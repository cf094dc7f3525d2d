/** The two response-decoding rules of a probe: `_fetch_first_ok`, which
    takes the first path that answered, and `_parse_balances_shape`, which
    accepts a flat or a once-nested balance list. Replies are given values:
    `None` is what `_get_json` reports for a transport error, a status
    other than 200, an empty body, a body that is not JSON, or a JSON
    `null` body. */
module Shapes {
  import opened Base
  import opened Json

  /** `_fetch_first_ok`: the first reply, in path order, that is not
      `None`. */
  function FetchFirstOk(replies: seq<Option<Json>>): (r: Option<Json>)
    ensures r.None? <==> forall i :: 0 <= i < |replies| ==> replies[i].None?
    ensures r.Some? ==>
      exists i :: 0 <= i < |replies| && replies[i] == r && forall k :: 0 <= k < i ==> replies[k].None?
    decreases |replies|
  {
    if replies == [] then None
    else if replies[0].Some? then replies[0]
    else
      var r := FetchFirstOk(replies[1..]);
      assert forall i :: 1 <= i < |replies| ==> replies[i] == replies[1..][i - 1];
      r
  }

  /** `_parse_balances_shape`: the list under "balances", or the list under
      "balances" inside the dict under "balances"; `None` for anything
      else. */
  function ParseBalancesShape(obj: Option<Json>): (r: Option<seq<Json>>)
    ensures r.Some? ==>
      && obj.Some? && obj.value.JObj?
      && (|| Lookup(obj.value.fields, "balances") == Some(JArr(r.value))
          || (&& Lookup(obj.value.fields, "balances").Some?
              && Lookup(obj.value.fields, "balances").value.JObj?
              && Lookup(Lookup(obj.value.fields, "balances").value.fields, "balances") == Some(JArr(r.value))))
    ensures obj.Some? && obj.value.JObj? ==>
      var b := Lookup(obj.value.fields, "balances");
      && (b.Some? && b.value.JArr? ==> r == Some(b.value.items))
      && (b.Some? && b.value.JObj? && Lookup(b.value.fields, "balances").Some?
          && Lookup(b.value.fields, "balances").value.JArr? ==>
            r == Some(Lookup(b.value.fields, "balances").value.items))
  {
    match obj
    case Some(JObj(fields)) =>
      (match Lookup(fields, "balances")
       case Some(JArr(list)) => Some(list)
       case Some(JObj(inner)) =>
         (match Lookup(inner, "balances")
          case Some(JArr(list)) => Some(list)
          case _ => None)
       case _ => None)
    case _ => None
  }

  /** The current REST shape, `{"balances": [...]}`. */
  function FlatBalances(list: seq<Json>): Json {
    JObj([("balances", JArr(list))])
  }

  /** The skewed shape, `{"balances": {"balances": [...]}}`. */
  function NestedBalances(list: seq<Json>): Json {
    JObj([("balances", JObj([("balances", JArr(list))]))])
  }

  /** Both accepted shapes decode back to the list they carry. */
  lemma ParseBalancesShapeRoundTrip(list: seq<Json>)
    ensures ParseBalancesShape(Some(FlatBalances(list))) == Some(list)
    ensures ParseBalancesShape(Some(NestedBalances(list))) == Some(list)
  {
  }

  /** Anything that is not a dict, and a dict whose "balances" member is
      neither a list nor a dict, is unparsable. */
  lemma ParseBalancesShapeRejects(obj: Option<Json>)
    requires obj.None? || !obj.value.JObj?
          || (var b := Lookup(obj.value.fields, "balances"); b.None? || !(b.value.JArr? || b.value.JObj?))
    ensures ParseBalancesShape(obj).None?
  {
  }

  /** The reply a node sends, `{"balances": [...], "pagination": {...}}`,
      with any further members: accepted with its list. */
  lemma NodeReplyShape(list: seq<Json>, pagination: Json, more: seq<(string, Json)>)
    ensures ParseBalancesShape(Some(JObj([("balances", JArr(list)), ("pagination", pagination)] + more))) == Some(list)
  {
    var fields := [("balances", JArr(list)), ("pagination", pagination)] + more;
    assert fields[0] == ("balances", JArr(list));
  }
}
