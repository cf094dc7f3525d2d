/** The integer sums of a probe, in minor units (`_sum_coin_list`,
    `_sum_delegations`, `_sum_unbonding`) and the listing of raw balances
    (`get_all_balances`). A `Raises` result is an exception that escapes
    the helper; inside a probe it becomes a failure that trips the
    breaker. */
module Sums {
  import opened Base
  import opened Text
  import opened Json

  /** The native minor-unit denomination. */
  const NativeDenom: string := "uxion"

  /** What `for x in (container.get(key) or [])` visits. It raises when
      `container` is not a dict, or when the member is truthy and cannot be
      iterated; a missing or falsy member visits nothing, a list its
      items. */
  function LoopItems(container: Json, key: string): (r: Py<seq<Json>>)
    ensures r.Returns? <==>
      container.JObj? &&
      (var v := Lookup(container.fields, key).GetOr(JNull); !Truthy(v) || v.JArr? || v.JStr? || v.JObj?)
    ensures container.JObj? && Lookup(container.fields, key).None? ==> r == Returns([])
    ensures container.JObj? && Lookup(container.fields, key).Some? && Lookup(container.fields, key).value.JArr? ==>
      r == Returns(Lookup(container.fields, key).value.items)
  {
    match Get(container, key)
    case Raises => Raises
    case Returns(v) => Iterate(Or(v, JArr([])))
  }

  // ---------------------------------------------------------------
  // Coin lists: `_sum_coin_list`
  // ---------------------------------------------------------------

  /** The amount a dict entry contributes when it counts: its "denom"
      member is exactly the text `denom` and `int(str(c.get("amount",
      "0")))` succeeds. */
  function Matched(c: Json, denom: string): Option<int>
    requires c.JObj?
  {
    if Lookup(c.fields, "denom") == Some(JStr(denom)) then
      IntOfStr(Lookup(c.fields, "amount").GetOr(JStr("0")))
    else None
  }

  /** What one dict entry adds: nothing when it does not count (the
      `except: pass`). */
  function CoinAmount(c: Json, denom: string): int
    requires c.JObj?
  {
    Matched(c, denom).GetOr(0)
  }

  /** The loop over the entries. `c.get(...)` sits outside the `try`, so an
      entry that is not a dict raises. */
  function CoinTotal(coins: seq<Json>, denom: string): (r: Py<int>)
    ensures r.Raises? <==> exists i :: 0 <= i < |coins| && !coins[i].JObj?
    decreases |coins|
  {
    if coins == [] then Returns(0)
    else if !coins[0].JObj? then Raises
    else
      var rest := CoinTotal(coins[1..], denom);
      assert forall i :: 1 <= i < |coins| ==> coins[i] == coins[1..][i - 1];
      match rest
      case Raises => Raises
      case Returns(t) => Returns(CoinAmount(coins[0], denom) + t)
  }

  /** One step of the loop: a dict entry in front adds its amount. */
  lemma CoinTotalCons(c: Json, rest: seq<Json>, denom: string)
    requires c.JObj?
    ensures CoinTotal([c] + rest, denom) ==
      (match CoinTotal(rest, denom)
       case Raises => Raises
       case Returns(t) => Returns(CoinAmount(c, denom) + t))
  {
    assert ([c] + rest)[1..] == rest;
  }

  /** `_sum_coin_list(container, key, denom)`. */
  function SumCoinList(container: Json, key: string, denom: string): Py<int> {
    match LoopItems(container, key)
    case Raises => Raises
    case Returns(coins) => CoinTotal(coins, denom)
  }

  /** The parsed amounts of the entries that count, in order. */
  function MatchingAmounts(coins: seq<Json>, denom: string): seq<int>
    decreases |coins|
  {
    if coins == [] then []
    else if coins[0].JObj? && Matched(coins[0], denom).Some? then
      [Matched(coins[0], denom).value] + MatchingAmounts(coins[1..], denom)
    else MatchingAmounts(coins[1..], denom)
  }

  /** The coin sum is the sum of the matching, parsable amounts: entries
      with another denom, or an amount `int()` rejects, add nothing. */
  lemma {:induction false} CoinTotalIsSumOfMatching(coins: seq<Json>, denom: string)
    requires forall i :: 0 <= i < |coins| ==> coins[i].JObj?
    ensures CoinTotal(coins, denom) == Returns(Sum(MatchingAmounts(coins, denom)))
    decreases |coins|
  {
    if coins != [] {
      assert forall i :: 0 <= i < |coins[1..]| ==> coins[1..][i] == coins[i + 1];
      CoinTotalIsSumOfMatching(coins[1..], denom);
      var rest := MatchingAmounts(coins[1..], denom);
      if Matched(coins[0], denom).Some? {
        SumAppend([Matched(coins[0], denom).value], rest);
      }
    }
  }

  /** The coin sum splits over concatenation. */
  lemma {:induction false} CoinTotalAppend(xs: seq<Json>, ys: seq<Json>, denom: string)
    requires forall i :: 0 <= i < |xs| ==> xs[i].JObj?
    requires forall i :: 0 <= i < |ys| ==> ys[i].JObj?
    ensures CoinTotal(xs + ys, denom).Returns?
    ensures CoinTotal(xs + ys, denom).value == CoinTotal(xs, denom).value + CoinTotal(ys, denom).value
    decreases |xs|
  {
    if xs == [] {
      assert xs + ys == ys;
    } else {
      assert (xs + ys)[1..] == xs[1..] + ys;
      assert forall i :: 0 <= i < |xs[1..]| ==> xs[1..][i] == xs[i + 1];
      CoinTotalAppend(xs[1..], ys, denom);
    }
  }

  /** A coin entry as a node reports it: `{"denom": d, "amount": str(n)}`. */
  function CoinRecord(denom: string, amount: int): Json {
    JObj([("denom", JStr(denom)), ("amount", JStr(IntToString(amount)))])
  }

  function CoinRecords(denom: string, amounts: seq<int>): (r: seq<Json>)
    ensures |r| == |amounts|
    ensures forall i :: 0 <= i < |r| ==> r[i] == CoinRecord(denom, amounts[i])
  {
    seq(|amounts|, i requires 0 <= i < |amounts| => CoinRecord(denom, amounts[i]))
  }

  /** A record of the requested denom counts with its own amount. */
  lemma CoinRecordMatches(denom: string, amount: int)
    ensures CoinRecord(denom, amount).JObj?
    ensures Matched(CoinRecord(denom, amount), denom) == Some(amount)
  {
    var fields := CoinRecord(denom, amount).fields;
    assert Lookup(fields, "denom") == Some(JStr(denom));
    assert Lookup(fields, "amount") == Some(JStr(IntToString(amount)));
    IntOfStrOfInteger(amount);
  }

  /** One step of `CoinTotalOfCounted`. */
  lemma CountedStep(coins: seq<Json>, amounts: seq<int>, denom: string)
    requires |coins| == |amounts| > 0
    requires coins[0].JObj? && CoinAmount(coins[0], denom) == amounts[0]
    requires CoinTotal(coins[1..], denom) == Returns(Sum(amounts[1..]))
    ensures CoinTotal(coins, denom) == Returns(Sum(amounts))
  {
    assert coins == [coins[0]] + coins[1..];
    CoinTotalCons(coins[0], coins[1..], denom);
  }

  /** Entries that each count with the given amounts add up to their sum. */
  lemma {:induction false} CoinTotalOfCounted(coins: seq<Json>, amounts: seq<int>, denom: string)
    requires |coins| == |amounts|
    requires forall i :: 0 <= i < |coins| ==> coins[i].JObj? && CoinAmount(coins[i], denom) == amounts[i]
    ensures CoinTotal(coins, denom) == Returns(Sum(amounts))
    decreases |coins|
  {
    if coins != [] {
      assert forall i :: 0 <= i < |coins[1..]| ==> coins[1..][i] == coins[i + 1] && amounts[1..][i] == amounts[i + 1];
      CoinTotalOfCounted(coins[1..], amounts[1..], denom);
      CountedStep(coins, amounts, denom);
    }
  }

  /** Summing well-formed records of the requested denom gives back the sum
      of the integers they were printed from. */
  lemma CoinTotalOfRecords(denom: string, amounts: seq<int>)
    ensures CoinTotal(CoinRecords(denom, amounts), denom) == Returns(Sum(amounts))
  {
    var recs := CoinRecords(denom, amounts);
    forall i | 0 <= i < |recs|
      ensures recs[i].JObj? && CoinAmount(recs[i], denom) == amounts[i]
    {
      CoinRecordMatches(denom, amounts[i]);
    }
    CoinTotalOfCounted(recs, amounts, denom);
  }

  /** `_sum_coin_list` over a response carrying such records. */
  lemma SumCoinListOfRecords(denom: string, amounts: seq<int>)
    ensures SumCoinList(JObj([("balances", JArr(CoinRecords(denom, amounts)))]), "balances", denom)
            == Returns(Sum(amounts))
  {
    var recs := CoinRecords(denom, amounts);
    CoinTotalOfRecords(denom, amounts);
    assert Get(JObj([("balances", JArr(recs))]), "balances") == Returns(JArr(recs));
    if amounts == [] {
      assert Or(JArr(recs), JArr([])) == JArr([]);
    } else {
      assert Or(JArr(recs), JArr([])) == JArr(recs);
    }
  }

  /** An entry of another denom leaves the coin sum unchanged, wherever it
      is appended. */
  lemma OtherDenomAddsNothing(coins: seq<Json>, denom: string, other: string, amount: int)
    requires forall i :: 0 <= i < |coins| ==> coins[i].JObj?
    requires other != denom
    ensures CoinTotal(coins + [CoinRecord(other, amount)], denom) == CoinTotal(coins, denom)
  {
    CoinTotalAppend(coins, [CoinRecord(other, amount)], denom);
  }

  // ---------------------------------------------------------------
  // Delegations: `_sum_delegations`
  // ---------------------------------------------------------------

  /** What one delegation response adds. The whole expression
      `int(str((d.get("balance") or {}).get("amount", "0")))` is inside the
      `try`, so a malformed response adds nothing rather than raising. */
  function DelegationAmount(d: Json): int {
    match Get(d, "balance")
    case Raises => 0
    case Returns(b) =>
      match GetOr(Or(b, JObj([])), "amount", JStr("0"))
      case Raises => 0
      case Returns(a) => IntOfStr(a).GetOr(0)
  }

  /** `_sum_delegations(deleg)`: raises only when `deleg` is not a dict or
      its "delegation_responses" member is truthy but not iterable. */
  function SumDelegations(deleg: Json): (r: Py<int>)
    ensures r.Raises? <==>
      || !deleg.JObj?
      || (var v := Lookup(deleg.fields, "delegation_responses").GetOr(JNull);
          Truthy(v) && !(v.JArr? || v.JStr? || v.JObj?))
  {
    match LoopItems(deleg, "delegation_responses")
    case Raises => Raises
    case Returns(ds) => Returns(SumMap(ds, DelegationAmount))
  }

  /** A delegation response as a node reports it:
      `{"balance": {"denom": "uxion", "amount": str(n)}}`. */
  function DelegationRecord(amount: int): Json {
    JObj([("balance", JObj([("denom", JStr(NativeDenom)), ("amount", JStr(IntToString(amount)))]))])
  }

  lemma DelegationRecordAmount(amount: int)
    ensures DelegationAmount(DelegationRecord(amount)) == amount
  {
    var inner := JObj([("denom", JStr(NativeDenom)), ("amount", JStr(IntToString(amount)))]);
    assert Get(DelegationRecord(amount), "balance") == Returns(inner);
    assert Or(inner, JObj([])) == inner;
    assert Lookup(inner.fields, "amount") == Some(JStr(IntToString(amount)));
    IntOfStrOfInteger(amount);
  }

  /** A delegation list whose responses add `amounts` sums to their sum. */
  lemma DelegationsOfCounted(recs: seq<Json>, amounts: seq<int>)
    requires |recs| == |amounts|
    requires forall i :: 0 <= i < |recs| ==> DelegationAmount(recs[i]) == amounts[i]
    ensures SumDelegations(JObj([("delegation_responses", JArr(recs))])) == Returns(Sum(amounts))
  {
    SumMapPointwise(recs, DelegationAmount, amounts);
    assert Get(JObj([("delegation_responses", JArr(recs))]), "delegation_responses") == Returns(JArr(recs));
    if recs == [] {
      assert Or(JArr(recs), JArr([])) == JArr([]);
    } else {
      assert Or(JArr(recs), JArr([])) == JArr(recs);
    }
  }

  /** Summing delegation records gives back the sum of their amounts. */
  lemma DelegationsOfRecords(amounts: seq<int>)
    ensures SumDelegations(JObj([("delegation_responses",
              JArr(seq(|amounts|, i requires 0 <= i < |amounts| => DelegationRecord(amounts[i]))))]))
            == Returns(Sum(amounts))
  {
    var recs := seq(|amounts|, i requires 0 <= i < |amounts| => DelegationRecord(amounts[i]));
    forall i | 0 <= i < |recs|
      ensures DelegationAmount(recs[i]) == amounts[i]
    {
      DelegationRecordAmount(amounts[i]);
    }
    DelegationsOfCounted(recs, amounts);
  }

  /** The amount a delegation response carries when it can be read: the
      response is a dict, its "balance" (or `{}` when falsy) is a dict,
      and that dict's "amount" (default "0") is an integer or its text. */
  function DelegationReading(d: Json): Option<int> {
    if !d.JObj? then None
    else
      var b := Or(Lookup(d.fields, "balance").GetOr(JNull), JObj([]));
      if !b.JObj? then None else IntOfStr(Lookup(b.fields, "amount").GetOr(JStr("0")))
  }

  /** For every reply, `_sum_delegations` raises exactly when its loop
      cannot start, and otherwise adds the readable amounts of the
      responses it visits; an unreadable response adds nothing. */
  lemma SumDelegationsValue(deleg: Json)
    ensures SumDelegations(deleg).Returns? <==> LoopItems(deleg, "delegation_responses").Returns?
    ensures LoopItems(deleg, "delegation_responses").Returns? ==>
      SumDelegations(deleg).value == Sum(Readings(LoopItems(deleg, "delegation_responses").value, DelegationReading))
  {
    match LoopItems(deleg, "delegation_responses")
    case Raises =>
    case Returns(ds) =>
      SumMapOfReadings(ds, DelegationReading, DelegationAmount);
  }

  // ---------------------------------------------------------------
  // Unbonding: `_sum_unbonding`
  // ---------------------------------------------------------------

  /** What one unbonding entry adds: `int(str(entry.get("balance", "0")))`,
      inside the `try`. */
  function EntryBalance(entry: Json): int {
    match GetOr(entry, "balance", JStr("0"))
    case Raises => 0
    case Returns(v) => IntOfStr(v).GetOr(0)
  }

  /** One unbonding response: `e.get("entries") or []` is outside the
      `try`, so a response that is not a dict, or whose entries are truthy
      but not iterable, raises. */
  function ResponseTotal(e: Json): Py<int> {
    match LoopItems(e, "entries")
    case Raises => Raises
    case Returns(entries) => Returns(SumMap(entries, EntryBalance))
  }

  /** The loop over the responses; the first one that raises ends it. */
  function ResponsesTotal(es: seq<Json>): (r: Py<int>)
    ensures r.Raises? <==> exists i :: 0 <= i < |es| && ResponseTotal(es[i]).Raises?
    decreases |es|
  {
    if es == [] then Returns(0)
    else
      var rest := ResponsesTotal(es[1..]);
      assert forall i :: 1 <= i < |es| ==> es[i] == es[1..][i - 1];
      match ResponseTotal(es[0])
      case Raises => Raises
      case Returns(a) =>
        match rest
        case Raises => Raises
        case Returns(b) => Returns(a + b)
  }

  /** `_sum_unbonding(unb)`. */
  function SumUnbonding(unb: Json): Py<int> {
    match LoopItems(unb, "unbonding_responses")
    case Raises => Raises
    case Returns(es) => ResponsesTotal(es)
  }

  /** An unbonding entry as a node reports it: `{"balance": str(n)}`. */
  function EntryRecord(balance: int): Json {
    JObj([("balance", JStr(IntToString(balance)))])
  }

  /** An unbonding response carrying one entry per balance. */
  function UnbondingRecord(balances: seq<int>): Json {
    JObj([("entries", JArr(seq(|balances|, i requires 0 <= i < |balances| => EntryRecord(balances[i]))))])
  }

  lemma EntryRecordBalance(balance: int)
    ensures EntryBalance(EntryRecord(balance)) == balance
  {
    assert GetOr(EntryRecord(balance), "balance", JStr("0")) == Returns(JStr(IntToString(balance)));
    IntOfStrOfInteger(balance);
  }

  /** A response record adds up the balances of its entries. */
  lemma ResponseRecordTotal(balances: seq<int>)
    ensures ResponseTotal(UnbondingRecord(balances)) == Returns(Sum(balances))
  {
    var entries := seq(|balances|, i requires 0 <= i < |balances| => EntryRecord(balances[i]));
    forall i | 0 <= i < |entries|
      ensures EntryBalance(entries[i]) == balances[i]
    {
      EntryRecordBalance(balances[i]);
    }
    SumMapPointwise(entries, EntryBalance, balances);
    var rec := UnbondingRecord(balances);
    assert Lookup(rec.fields, "entries") == Some(JArr(entries));
    assert LoopItems(rec, "entries") == Returns(entries);
  }

  /** Responses that each return the given totals add up to their sum. */
  lemma {:induction false} ResponsesTotalOfCounted(es: seq<Json>, totals: seq<int>)
    requires |es| == |totals|
    requires forall i :: 0 <= i < |es| ==> ResponseTotal(es[i]) == Returns(totals[i])
    ensures ResponsesTotal(es) == Returns(Sum(totals))
    decreases |es|
  {
    if es != [] {
      assert forall i :: 0 <= i < |es[1..]| ==> es[1..][i] == es[i + 1] && totals[1..][i] == totals[i + 1];
      ResponsesTotalOfCounted(es[1..], totals[1..]);
    }
  }

  /** Sum of the sums of a list of lists. */
  function SumAll(xss: seq<seq<int>>): int
    decreases |xss|
  {
    if xss == [] then 0 else Sum(xss[0]) + SumAll(xss[1..])
  }

  lemma {:induction false} SumAllIsSumOfSums(xss: seq<seq<int>>)
    ensures SumAll(xss) == Sum(seq(|xss|, i requires 0 <= i < |xss| => Sum(xss[i])))
    decreases |xss|
  {
    if xss != [] {
      SumAllIsSumOfSums(xss[1..]);
      var sums := seq(|xss|, i requires 0 <= i < |xss| => Sum(xss[i]));
      assert sums[1..] == seq(|xss[1..]|, i requires 0 <= i < |xss[1..]| => Sum(xss[1..][i]));
    }
  }

  /** `_sum_unbonding` adds the balance of every entry of every response. */
  lemma UnbondingOfRecords(balances: seq<seq<int>>)
    ensures ResponsesTotal(seq(|balances|, i requires 0 <= i < |balances| => UnbondingRecord(balances[i])))
            == Returns(SumAll(balances))
  {
    var es := seq(|balances|, i requires 0 <= i < |balances| => UnbondingRecord(balances[i]));
    var totals := seq(|balances|, i requires 0 <= i < |balances| => Sum(balances[i]));
    forall i | 0 <= i < |es|
      ensures ResponseTotal(es[i]) == Returns(totals[i])
    {
      ResponseRecordTotal(balances[i]);
    }
    ResponsesTotalOfCounted(es, totals);
    SumAllIsSumOfSums(balances);
  }

  /** The balance an unbonding entry carries when it can be read: the
      entry is a dict and its "balance" (default "0") is an integer or its
      text. */
  function EntryReading(entry: Json): Option<int> {
    if entry.JObj? then IntOfStr(Lookup(entry.fields, "balance").GetOr(JStr("0"))) else None
  }

  /** The entries the inner loop visits, response after response; `Raises`
      when some response's entries cannot be iterated. */
  function EntriesOf(es: seq<Json>): (r: Py<seq<Json>>)
    ensures r.Raises? <==> exists i :: 0 <= i < |es| && LoopItems(es[i], "entries").Raises?
    decreases |es|
  {
    if es == [] then Returns([])
    else
      var rest := EntriesOf(es[1..]);
      assert forall i :: 1 <= i < |es| ==> es[i] == es[1..][i - 1];
      match LoopItems(es[0], "entries")
      case Raises => Raises
      case Returns(xs) =>
        match rest
        case Raises => Raises
        case Returns(ys) => Returns(xs + ys)
  }

  /** The nested loop is one loop over all entries of all responses: it
      raises exactly when some response's entries cannot be iterated, and
      otherwise adds every readable entry balance. */
  lemma {:induction false} ResponsesTotalIsSumOfEntries(es: seq<Json>)
    ensures ResponsesTotal(es).Returns? <==> EntriesOf(es).Returns?
    ensures EntriesOf(es).Returns? ==>
      ResponsesTotal(es).value == Sum(Readings(EntriesOf(es).value, EntryReading))
    decreases |es|
  {
    if es != [] {
      assert forall i :: 0 <= i < |es[1..]| ==> es[1..][i] == es[i + 1];
      ResponsesTotalIsSumOfEntries(es[1..]);
      match LoopItems(es[0], "entries")
      case Raises =>
      case Returns(xs) =>
        SumMapOfReadings(xs, EntryReading, EntryBalance);
        if EntriesOf(es[1..]).Returns? {
          var ys := EntriesOf(es[1..]).value;
          ReadingsAppend(xs, ys, EntryReading);
          SumAppend(Readings(xs, EntryReading), Readings(ys, EntryReading));
        }
    }
  }

  /** For every reply, `_sum_unbonding` raises exactly when the outer loop
      or some inner loop cannot start, and otherwise adds the readable
      balances of all entries of all responses. */
  lemma SumUnbondingValue(unb: Json)
    ensures SumUnbonding(unb).Returns? <==>
      LoopItems(unb, "unbonding_responses").Returns? && EntriesOf(LoopItems(unb, "unbonding_responses").value).Returns?
    ensures SumUnbonding(unb).Returns? ==>
      SumUnbonding(unb).value == Sum(Readings(EntriesOf(LoopItems(unb, "unbonding_responses").value).value, EntryReading))
  {
    match LoopItems(unb, "unbonding_responses")
    case Raises =>
    case Returns(es) =>
      ResponsesTotalIsSumOfEntries(es);
  }

  // ---------------------------------------------------------------
  // Raw balance listing: `get_all_balances`
  // ---------------------------------------------------------------

  /** One listed balance: the entry's denom, the symbol shown ("XION" for
      the native denom, otherwise the denom itself) and the parsed amount
      in minor units (0 when it does not parse). */
  datatype BalanceRow = BalanceRow(denom: Json, symbol: Json, amount: int)

  function BalanceRowOf(coin: Json): BalanceRow
    requires coin.JObj?
  {
    var denom := Lookup(coin.fields, "denom").GetOr(JNull);
    var raw := IntOfStr(Lookup(coin.fields, "amount").GetOr(JStr("0"))).GetOr(0);
    if denom == JStr(NativeDenom) then BalanceRow(denom, JStr("XION"), raw)
    else BalanceRow(denom, denom, raw)
  }

  /** `get_all_balances({"balances": coins})`: one row per entry, in
      order; an entry that is not a dict raises. */
  function AllBalances(coins: seq<Json>): (r: Py<seq<BalanceRow>>)
    ensures r.Raises? <==> exists i :: 0 <= i < |coins| && !coins[i].JObj?
    ensures r.Returns? ==> |r.value| == |coins|
    ensures r.Returns? ==> forall i :: 0 <= i < |coins| ==> coins[i].JObj? && r.value[i] == BalanceRowOf(coins[i])
    decreases |coins|
  {
    if coins == [] then Returns([])
    else if !coins[0].JObj? then Raises
    else
      var rest := AllBalances(coins[1..]);
      assert forall i :: 1 <= i < |coins| ==> coins[i] == coins[1..][i - 1];
      match rest
      case Raises => Raises
      case Returns(rows) => Returns([BalanceRowOf(coins[0])] + rows)
  }

  /** Total of the listed rows of the native denom. */
  function NativeRowsTotal(rows: seq<BalanceRow>): int
    decreases |rows|
  {
    if rows == [] then 0
    else (if rows[0].denom == JStr(NativeDenom) then rows[0].amount else 0) + NativeRowsTotal(rows[1..])
  }

  /** The listed balances agree with the liquid sum: the native rows add up
      to what `_sum_coin_list` reports for the native denom. */
  lemma {:induction false} ListedNativeRowsMatchLiquid(coins: seq<Json>)
    requires AllBalances(coins).Returns?
    ensures CoinTotal(coins, NativeDenom) == Returns(NativeRowsTotal(AllBalances(coins).value))
    decreases |coins|
  {
    if coins != [] {
      assert forall i :: 0 <= i < |coins[1..]| ==> coins[1..][i] == coins[i + 1];
      ListedNativeRowsMatchLiquid(coins[1..]);
      var rows := AllBalances(coins).value;
      assert rows[1..] == AllBalances(coins[1..]).value;
      assert rows[0] == BalanceRowOf(coins[0]);
    }
  }
}
