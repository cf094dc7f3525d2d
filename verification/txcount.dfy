/** Transaction-count aggregation (`_fetch_tx_count`): the sender query and
    the recipient query each add the node's pagination total when it
    reports one, or the number of returned transactions when it does not;
    the count is unavailable (`None`) when neither query returned truthy
    data. */
module TxCount {
  import opened Base
  import opened Text
  import opened Json

  /** A reply the loop does not skip: present and truthy (`if not data:
      continue`). */
  predicate Seen(reply: Option<Json>) {
    reply.Some? && Truthy(reply.value)
  }

  /** What one seen reply adds. `data.get("pagination", {})` and
      `"total" in pag` are outside the `try` and may raise; only the
      reading of the total is guarded. */
  function QueryCount(data: Json): (r: Py<int>)
    ensures r.Raises? <==>
      || !data.JObj?
      || (var pag := Lookup(data.fields, "pagination").GetOr(JObj([]));
          !(pag.JArr? || pag.JStr? || pag.JObj?))
  {
    match GetOr(data, "pagination", JObj([]))
    case Raises => Raises
    case Returns(pag) =>
      match In("total", pag)
      case Raises => Raises
      case Returns(hasTotal) =>
        if hasTotal then
          Returns(match GetOr(pag, "total", JStr("0"))
                  case Raises => 0
                  case Returns(t) => IntOfStr(t).GetOr(0))
        else
          match Get(data, "tx_responses")
          case Returns(JArr(items)) => Returns(|items|)
          case _ => Returns(0)
  }

  /** What one reply adds to the total when no reply raises: its count if
      it is seen, nothing if it is skipped. */
  function Contribution(reply: Option<Json>): int {
    if Seen(reply) then (match QueryCount(reply.value) case Returns(n) => n case Raises => 0) else 0
  }

  /** The loop over the replies, in query order: the running total and
      whether any reply was seen. */
  function TxFold(replies: seq<Option<Json>>): (r: Py<(int, bool)>)
    ensures r.Raises? <==> exists i :: 0 <= i < |replies| && Seen(replies[i]) && QueryCount(replies[i].value).Raises?
    ensures r.Returns? ==> (r.value.1 <==> exists i :: 0 <= i < |replies| && Seen(replies[i]))
    ensures r.Returns? ==> r.value.0 == SumMap(replies, Contribution)
    decreases |replies|
  {
    if replies == [] then Returns((0, false))
    else
      var rest := TxFold(replies[1..]);
      assert forall i :: 1 <= i < |replies| ==> replies[i] == replies[1..][i - 1];
      if !Seen(replies[0]) then rest
      else
        match QueryCount(replies[0].value)
        case Raises => Raises
        case Returns(n) =>
          match rest
          case Raises => Raises
          case Returns(acc) => Returns((n + acc.0, true))
  }

  /** `_fetch_tx_count`: `total if saw else None`. The count, when there
      is one, adds up what every seen reply reports. */
  function FetchTxCount(replies: seq<Option<Json>>): (r: Py<Option<int>>)
    ensures r == Returns(None) <==> forall i :: 0 <= i < |replies| ==> !Seen(replies[i])
    ensures r.Raises? <==> exists i :: 0 <= i < |replies| && Seen(replies[i]) && QueryCount(replies[i].value).Raises?
    ensures r.Returns? && r.value.Some? ==> r.value.value == SumMap(replies, Contribution)
  {
    match TxFold(replies)
    case Raises => Raises
    case Returns(acc) => Returns(if acc.1 then Some(acc.0) else None)
  }

  /** A reply carrying a pagination total, as a node reports it. */
  function PaginatedReply(total: int): Json {
    JObj([("pagination", JObj([("next_key", JNull), ("total", JStr(IntToString(total)))]))])
  }

  /** A reply without a pagination total, listing the transactions. */
  function ListedReply(txs: seq<Json>): Json {
    JObj([("tx_responses", JArr(txs))])
  }

  lemma PaginatedReplyCount(total: int)
    ensures QueryCount(PaginatedReply(total)) == Returns(total)
  {
    var pag := JObj([("next_key", JNull), ("total", JStr(IntToString(total)))]);
    assert GetOr(PaginatedReply(total), "pagination", JObj([])) == Returns(pag);
    assert Lookup(pag.fields, "total") == Some(JStr(IntToString(total)));
    IntOfStrOfInteger(total);
  }

  lemma ListedReplyCount(txs: seq<Json>)
    ensures QueryCount(ListedReply(txs)) == Returns(|txs|)
  {
    LookupOne("tx_responses", JArr(txs), "pagination");
    LookupOne("tx_responses", JArr(txs), "tx_responses");
    assert Get(ListedReply(txs), "tx_responses") == Returns(JArr(txs));
  }

  /** Two paginated replies: the counts of sent and received
      transactions add up. */
  lemma SenderPlusRecipient(sent: int, received: int)
    ensures FetchTxCount([Some(PaginatedReply(sent)), Some(PaginatedReply(received))])
            == Returns(Some(sent + received))
  {
    PaginatedReplyCount(sent);
    PaginatedReplyCount(received);
    var replies := [Some(PaginatedReply(sent)), Some(PaginatedReply(received))];
    assert replies[1..] == [Some(PaginatedReply(received))];
    assert replies[1..][1..] == [];
    assert Seen(replies[0]) && Seen(replies[1]);
    assert TxFold(replies[1..][1..]) == Returns((0, false));
    assert TxFold(replies[1..]) == Returns((received, true));
    assert TxFold(replies) == Returns((sent + received, true));
  }

  /** One query failing and the other listing transactions without a
      total: the count is the number listed. */
  lemma FailedThenListed(txs: seq<Json>)
    ensures FetchTxCount([None, Some(ListedReply(txs))]) == Returns(Some(|txs|))
  {
    ListedReplyCount(txs);
    var replies: seq<Option<Json>> := [None, Some(ListedReply(txs))];
    assert replies[1..] == [Some(ListedReply(txs))];
    assert replies[1..][1..] == [];
    assert Seen(replies[1]);
    assert TxFold(replies[1..][1..]) == Returns((0, false));
    assert TxFold(replies[1..]) == Returns((|txs|, true));
    assert TxFold(replies) == Returns((|txs|, true));
  }

  /** A pagination record that is text containing "total" passes the
      membership test, then fails `.get` inside the `try`: it adds 0. */
  lemma TextPaginationAddsZero(pagText: string)
    requires Contains(pagText, "total")
    ensures QueryCount(JObj([("pagination", JStr(pagText))])) == Returns(0)
  {
  }

  /** A `null` pagination makes `"total" in pag` raise outside the `try`. */
  lemma NullPaginationRaises()
    ensures QueryCount(JObj([("pagination", JNull)])).Raises?
  {
  }
}
