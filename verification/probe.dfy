/** Probing one endpoint (`_probe_endpoint`): the breaker check, the
    accept / treat-as-empty / trip decision, and the snapshot built from
    the sums. The HTTP replies are given values; the breaker is passed in
    and returned. */
module Probe {
  import opened Base
  import opened Json
  import opened Breaker
  import opened Shapes
  import opened Sums
  import opened TxCount

  /** What one endpoint answers during a probe, as `_get_json` reports
      each request (`None` for a transport error, a status other than 200,
      an empty or undecodable body, or a JSON `null`). Path lists are in
      the order the probe tries them. */
  datatype Replies = Replies(
    account: seq<Option<Json>>,
    balances: seq<Option<Json>>,
    spendable: seq<Option<Json>>,
    delegations: Option<Json>,
    unbonding: Option<Json>,
    txQueries: seq<Option<Json>>)

  /** "ok" when the transaction count was available, "partial" when not. */
  datatype ProbeStatus = Ok | Partial

  /** The `debug_reason` of a successful probe. */
  datatype Debug = OkWithBalances | AcctExistsZeroBalance

  /** A successful probe's result; amounts in minor units. */
  datatype Snapshot = Snapshot(
    status: ProbeStatus,
    endpoint: string,
    debug: Debug,
    total: int,
    spendable: int,
    liquid: int,
    staked: int,
    unbonding: int,
    balances: seq<BalanceRow>,
    txCount: int,
    failedTxs: int)

  /** Why a probe produced no result. */
  datatype Failure = CircuitOpen | NoBalancesNoAccount | Error

  datatype Outcome = Success(snap: Snapshot) | Failed(failure: Failure)

  datatype ProbeResult = ProbeResult(breaker: CircuitState, outcome: Outcome)

  /** The reason string a failed probe reports. The exception text that
      follows "error: " is not modelled. */
  function FailureReason(base: string, f: Failure): string {
    match f
    case CircuitOpen => "circuit_open"
    case NoBalancesNoAccount => base + " empty_balances_and_no_acct"
    case Error => base + " error: "
  }

  /** `x or {}` for a reply. */
  function OrEmpty(reply: Option<Json>): (r: Json)
    ensures Truthy(r) ==> reply == Some(r)
    ensures reply.Some? && Truthy(reply.value) ==> r == reply.value
    ensures !(reply.Some? && Truthy(reply.value)) ==> r == JObj([])
  {
    match reply
    case None => JObj([])
    case Some(v) => Or(v, JObj([]))
  }

  /** `isinstance(acct, dict) and acct.get("account")` is truthy. */
  predicate AccountExists(acct: Option<Json>) {
    acct.Some? && acct.value.JObj? && Truthy(Lookup(acct.value.fields, "account").GetOr(JNull))
  }

  /** The balance list the probe goes on with: the parsed list, or an empty
      one when only the account record exists; `None` when neither. */
  function BalanceList(r: Replies): (list: Option<(seq<Json>, Debug)>)
    ensures list.None? <==>
      ParseBalancesShape(FetchFirstOk(r.balances)).None? && !AccountExists(FetchFirstOk(r.account))
  {
    match ParseBalancesShape(FetchFirstOk(r.balances))
    case Some(list) => Some((list, OkWithBalances))
    case None =>
      if AccountExists(FetchFirstOk(r.account)) then Some(([], AcctExistsZeroBalance)) else None
  }

  /** The body of the `try`: `Returns(None)` for the early "no balances,
      no account" return, `Raises` for an exception caught by the
      `except`. */
  function Attempt(base: string, r: Replies): Py<Option<Snapshot>> {
    match BalanceList(r)
    case None => Returns(None)
    case Some((list, debug)) =>
      var spendables := OrEmpty(FetchFirstOk(r.spendable));
      var deleg := OrEmpty(r.delegations);
      var unb := OrEmpty(r.unbonding);
      match FetchTxCount(r.txQueries)
      case Raises => Raises
      case Returns(tx) =>
        var liquid := CoinTotal(list, NativeDenom);
        var spendable := SumCoinList(spendables, "balances", NativeDenom);
        var staked := SumDelegations(deleg);
        var unbonding := SumUnbonding(unb);
        var rows := AllBalances(list);
        if liquid.Raises? || spendable.Raises? || staked.Raises? || unbonding.Raises? || rows.Raises? then Raises
        else
          Returns(Some(Snapshot(
            if tx.Some? then Ok else Partial,
            base, debug,
            liquid.value + staked.value + unbonding.value,
            spendable.value, liquid.value, staked.value, unbonding.value,
            rows.value,
            tx.GetOr(0),
            0)))
  }

  /** `_probe_endpoint(base)` at clock reading `now`: a blocked endpoint
      answers "circuit_open" without a request; a failure after the check
      trips the endpoint for the default cooldown; a success leaves the
      breaker alone. */
  function ProbeEndpoint(cb: CircuitState, now: real, base: string, r: Replies): (res: ProbeResult)
    ensures res.outcome == Failed(CircuitOpen) <==> IsBlocked(cb, base, now)
    ensures res.outcome.Success? || res.outcome == Failed(CircuitOpen) ==> res.breaker == cb
    ensures res.outcome.Failed? && res.outcome != Failed(CircuitOpen) ==>
      res.breaker == Trip(cb, base, now, DefaultCooldown)
    ensures res.outcome == Failed(NoBalancesNoAccount) <==>
      && !IsBlocked(cb, base, now)
      && ParseBalancesShape(FetchFirstOk(r.balances)).None?
      && !AccountExists(FetchFirstOk(r.account))
    ensures res.outcome.Success? ==>
      var s := res.outcome.snap;
      && s.endpoint == base
      && s.total == s.liquid + s.staked + s.unbonding
      && s.failedTxs == 0
      && (s.status == Partial <==> FetchTxCount(r.txQueries) == Returns(None))
      && (s.status == Partial ==> s.txCount == 0)
      && (s.status == Ok ==> FetchTxCount(r.txQueries) == Returns(Some(s.txCount)))
      && BalanceList(r).Some? && s.debug == BalanceList(r).value.1
      && CoinTotal(BalanceList(r).value.0, NativeDenom) == Returns(s.liquid)
      && AllBalances(BalanceList(r).value.0) == Returns(s.balances)
      && SumCoinList(OrEmpty(FetchFirstOk(r.spendable)), "balances", NativeDenom) == Returns(s.spendable)
      && SumDelegations(OrEmpty(r.delegations)) == Returns(s.staked)
      && SumUnbonding(OrEmpty(r.unbonding)) == Returns(s.unbonding)
    ensures res.outcome == Failed(Error) <==>
      && !IsBlocked(cb, base, now)
      && BalanceList(r).Some?
      && (|| FetchTxCount(r.txQueries).Raises?
          || (exists i :: 0 <= i < |BalanceList(r).value.0| && !BalanceList(r).value.0[i].JObj?)
          || SumCoinList(OrEmpty(FetchFirstOk(r.spendable)), "balances", NativeDenom).Raises?
          || SumDelegations(OrEmpty(r.delegations)).Raises?
          || SumUnbonding(OrEmpty(r.unbonding)).Raises?)
  {
    if IsBlocked(cb, base, now) then ProbeResult(cb, Failed(CircuitOpen))
    else
      match Attempt(base, r)
      case Raises => ProbeResult(Trip(cb, base, now, DefaultCooldown), Failed(Error))
      case Returns(None) => ProbeResult(Trip(cb, base, now, DefaultCooldown), Failed(NoBalancesNoAccount))
      case Returns(Some(snap)) => ProbeResult(cb, Success(snap))
  }

  /** A probe touches no breaker entry but its own endpoint's. */
  lemma ProbeTouchesOnlyItsEndpoint(cb: CircuitState, now: real, base: string, r: Replies, other: string)
    requires other != base
    ensures other in ProbeEndpoint(cb, now, base, r).breaker <==> other in cb
    ensures other in cb ==> ProbeEndpoint(cb, now, base, r).breaker[other] == cb[other]
  {
  }

  /** Parsed balances: the liquid amount is the coin sum of the list and
      the listed rows are its raw balances. */
  lemma ParsedBalancesSnapshot(cb: CircuitState, now: real, base: string, r: Replies)
    requires ParseBalancesShape(FetchFirstOk(r.balances)).Some?
    requires ProbeEndpoint(cb, now, base, r).outcome.Success?
    ensures var s := ProbeEndpoint(cb, now, base, r).outcome.snap;
      var list := ParseBalancesShape(FetchFirstOk(r.balances)).value;
      && s.debug == OkWithBalances
      && CoinTotal(list, NativeDenom) == Returns(s.liquid)
      && AllBalances(list) == Returns(s.balances)
  {
  }

  /** Unparsable balances but an existing account: the probe does not
      trip, the balance list is empty and the liquid amount is 0. */
  lemma AccountOnlySnapshot(cb: CircuitState, now: real, base: string, r: Replies)
    requires !IsBlocked(cb, base, now)
    requires ParseBalancesShape(FetchFirstOk(r.balances)).None?
    requires AccountExists(FetchFirstOk(r.account))
    ensures ProbeEndpoint(cb, now, base, r).outcome != Failed(NoBalancesNoAccount)
    ensures ProbeEndpoint(cb, now, base, r).outcome.Success? ==>
      var s := ProbeEndpoint(cb, now, base, r).outcome.snap;
      s.debug == AcctExistsZeroBalance && s.liquid == 0 && s.balances == []
  {
  }

  /** The spendable figure never enters the total: two reply sets that
      differ only in their spendable replies give the same total. */
  lemma SpendableNotInTotal(cb: CircuitState, now: real, base: string, r: Replies, spendable: seq<Option<Json>>)
    requires ProbeEndpoint(cb, now, base, r).outcome.Success?
    requires ProbeEndpoint(cb, now, base, r.(spendable := spendable)).outcome.Success?
    ensures ProbeEndpoint(cb, now, base, r.(spendable := spendable)).outcome.snap.total
         == ProbeEndpoint(cb, now, base, r).outcome.snap.total
  {
  }
}
