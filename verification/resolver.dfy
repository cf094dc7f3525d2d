/** Resolving a wallet (`get_wallet_info`): the invalid-address answer,
    the race over the eligible endpoints in completion order (the first
    success wins), and the `unreachable` answer carrying the last failure
    reason. The completion order of the probes is an input. */
module Resolver {
  import opened Base
  import opened Text
  import opened Address
  import opened Breaker
  import opened Sums
  import opened Probe

  datatype Status = StatusOk | StatusPartial | InvalidAddress | Unreachable

  function StatusName(s: Status): string {
    match s
    case StatusOk => "ok"
    case StatusPartial => "partial"
    case InvalidAddress => "invalid_address"
    case Unreachable => "unreachable"
  }

  /** The dict `get_wallet_info` returns, amounts in minor units. `reason`
      is absent from a successful result; `duration` is not modelled. */
  datatype WalletInfo = WalletInfo(
    address: string,
    status: Status,
    reason: Option<string>,
    endpoint: Option<string>,
    debugReason: string,
    total: int,
    spendable: int,
    liquid: int,
    staked: int,
    unbonding: int,
    balances: seq<BalanceRow>,
    txCount: int,
    failedTxs: int,
    anomaly: bool)

  /** The answer for an address that fails the shape check. */
  function InvalidInfo(address: string): WalletInfo {
    WalletInfo(address, InvalidAddress, Some("Invalid Xion bech32 format"), None, "invalid_format",
               0, 0, 0, 0, 0, [], 0, 0, true)
  }

  /** The answer when no probe succeeded; `reasons` in completion order. */
  function UnreachableInfo(address: string, reasons: seq<string>): (info: WalletInfo)
    ensures info.debugReason == (if reasons == [] then "unknown" else reasons[|reasons| - 1])
    ensures info.reason == Some("All endpoints failed. Last: " + info.debugReason)
  {
    var last := if reasons == [] then "unknown" else reasons[|reasons| - 1];
    WalletInfo(address, Unreachable, Some("All endpoints failed. Last: " + last), None, last,
               0, 0, 0, 0, 0, [], 0, 0, true)
  }

  /** A successful probe's snapshot, stamped with the address and the
      anomaly flag. `round(total / 10**6, 6) == 0.0` holds exactly when the
      integer total is 0, so the flag is read on the integer. */
  function SuccessInfo(address: string, s: Snapshot): WalletInfo {
    WalletInfo(address, if s.status == Ok then StatusOk else StatusPartial, None, Some(s.endpoint),
               if s.debug == OkWithBalances then "ok_with_balances" else "acct_exists_zero_balance",
               s.total, s.spendable, s.liquid, s.staked, s.unbonding, s.balances, s.txCount, s.failedTxs,
               s.total == 0 && s.txCount == 0)
  }

  /** The breaker and the answer after a resolution. */
  datatype Resolution = Resolution(breaker: CircuitState, info: WalletInfo)

  /** The outcome of the probe dispatched to each endpoint. Every probe
      checks the breaker as it stood when the probes were dispatched: each
      task runs its check before any request it makes can complete. */
  function Outcomes(cb0: CircuitState, now: real, endpoints: seq<string>, replies: seq<Replies>): (r: seq<Outcome>)
    requires |replies| == |endpoints|
    ensures |r| == |endpoints|
    ensures forall i :: 0 <= i < |endpoints| ==> r[i] == ProbeEndpoint(cb0, now, endpoints[i], replies[i]).outcome
  {
    seq(|endpoints|, i requires 0 <= i < |endpoints| => ProbeEndpoint(cb0, now, endpoints[i], replies[i]).outcome)
  }

  predicate ValidOrder(endpoints: seq<string>, order: seq<nat>) {
    forall k :: 0 <= k < |order| ==> order[k] < |endpoints|
  }

  /** The `as_completed` loop from completion position onwards, given each
      endpoint's probe outcome: `cb` is the breaker so far, `reasons` the
      failure reasons collected so far. A failed probe's trip lands on the
      breaker as it is when it fails. */
  function Race(cb: CircuitState, now: real, address: string, endpoints: seq<string>,
                outcomes: seq<Outcome>, order: seq<nat>, reasons: seq<string>): (res: Resolution)
    requires |outcomes| == |endpoints| && ValidOrder(endpoints, order)
    decreases |order|
  {
    if order == [] then Resolution(cb, UnreachableInfo(address, reasons))
    else
      var i := order[0];
      match outcomes[i]
      case Success(snap) => Resolution(cb, SuccessInfo(address, snap))
      case Failed(f) =>
        var cb' := if f == CircuitOpen then cb else Trip(cb, endpoints[i], now, DefaultCooldown);
        Race(cb', now, address, endpoints, outcomes, order[1..], reasons + [FailureReason(endpoints[i], f)])
  }

  /** `get_wallet_info(address)` against the endpoint list, with the
      replies of each endpoint, the breaker, one clock reading, and the
      order in which the dispatched probes complete. The address check is
      the pattern as written, so a valid address followed by one newline
      is probed. */
  function Resolve(address: string, cb: CircuitState, now: real, endpoints: seq<string>,
                   replies: seq<Replies>, order: seq<nat>): (res: Resolution)
    requires |replies| == |endpoints|
    requires multiset(order) == multiset(EligibleIndices(cb, now, endpoints))
    ensures !ValidateWalletAddressAsWritten(address) ==> res == Resolution(cb, InvalidInfo(address))
    ensures ValidateWalletAddressAsWritten(address) ==> res.info.status != InvalidAddress
    ensures res.info.address == address
    ensures res.info.anomaly <==>
      res.info.status in {InvalidAddress, Unreachable} || (res.info.total == 0 && res.info.txCount == 0)
    ensures res.info.status in {StatusOk, StatusPartial} <==> res.info.endpoint.Some?
  {
    if !ValidateWalletAddressAsWritten(address) then Resolution(cb, InvalidInfo(address))
    else
      var outcomes := Outcomes(cb, now, endpoints, replies);
      OrderValid(cb, now, endpoints, order);
      RaceShape(cb, now, address, endpoints, outcomes, order, []);
      Race(cb, now, address, endpoints, outcomes, order, [])
  }

  /** `get_wallet_info` with the intended address check: a text that
      fails it is answered `invalid_address` without a request; every
      other address is resolved as by `Resolve`. */
  function ResolveIntended(address: string, cb: CircuitState, now: real, endpoints: seq<string>,
                           replies: seq<Replies>, order: seq<nat>): (res: Resolution)
    requires |replies| == |endpoints|
    requires multiset(order) == multiset(EligibleIndices(cb, now, endpoints))
    ensures res.info.status == InvalidAddress <==> !ValidateWalletAddress(address)
    ensures !ValidateWalletAddress(address) ==> res == Resolution(cb, InvalidInfo(address))
    ensures ValidateWalletAddress(address) ==> res == Resolve(address, cb, now, endpoints, replies, order)
  {
    AsWrittenAdmitsTrailingNewline(address);
    if !ValidateWalletAddress(address) then Resolution(cb, InvalidInfo(address))
    else Resolve(address, cb, now, endpoints, replies, order)
  }

  /** The two resolvers differ only on texts that end in a newline. */
  lemma ResolveIntendedAgrees(address: string, cb: CircuitState, now: real, endpoints: seq<string>,
                              replies: seq<Replies>, order: seq<nat>)
    requires |replies| == |endpoints|
    requires multiset(order) == multiset(EligibleIndices(cb, now, endpoints))
    requires address == [] || address[|address| - 1] != '\n'
    ensures ResolveIntended(address, cb, now, endpoints, replies, order)
         == Resolve(address, cb, now, endpoints, replies, order)
  {
    AsWrittenAdmitsTrailingNewline(address);
  }

  /** `"xion1" + 20×"q" + "\n"` is probed by the resolver as written, and
      refused by the intended one. */
  lemma NewlineAddressProbed(cb: CircuitState, now: real, endpoints: seq<string>,
                             replies: seq<Replies>, order: seq<nat>)
    requires |replies| == |endpoints|
    requires multiset(order) == multiset(EligibleIndices(cb, now, endpoints))
    ensures Resolve("xion1qqqqqqqqqqqqqqqqqqqq\n", cb, now, endpoints, replies, order).info.status != InvalidAddress
    ensures ResolveIntended("xion1qqqqqqqqqqqqqqqqqqqq\n", cb, now, endpoints, replies, order)
         == Resolution(cb, InvalidInfo("xion1qqqqqqqqqqqqqqqqqqqq\n"))
  {
    TrailingNewlineCounterexample();
  }

  /** Every index in a permutation of the eligible indices is a valid one. */
  lemma OrderValid(cb: CircuitState, now: real, endpoints: seq<string>, order: seq<nat>)
    requires multiset(order) == multiset(EligibleIndices(cb, now, endpoints))
    ensures ValidOrder(endpoints, order)
    ensures forall k :: 0 <= k < |order| ==> !IsBlocked(cb, endpoints[order[k]], now)
  {
    var e := EligibleIndices(cb, now, endpoints);
    forall k | 0 <= k < |order|
      ensures order[k] < |endpoints| && !IsBlocked(cb, endpoints[order[k]], now)
    {
      assert order[k] in multiset(order);
      assert order[k] in multiset(e);
    }
  }

  /** The shape of any race answer: the address, the anomaly flag, and an
      endpoint exactly on success. */
  lemma {:induction false} RaceShape(cb: CircuitState, now: real, address: string, endpoints: seq<string>,
                                     outcomes: seq<Outcome>, order: seq<nat>, reasons: seq<string>)
    requires |outcomes| == |endpoints| && ValidOrder(endpoints, order)
    ensures var res := Race(cb, now, address, endpoints, outcomes, order, reasons);
      && res.info.address == address
      && (res.info.anomaly <==> res.info.status == Unreachable || (res.info.total == 0 && res.info.txCount == 0))
      && res.info.status != InvalidAddress
      && (res.info.status in {StatusOk, StatusPartial} <==> res.info.endpoint.Some?)
    decreases |order|
  {
    if order != [] {
      var i := order[0];
      match outcomes[i]
      case Success(snap) =>
      case Failed(f) =>
        var cb' := if f == CircuitOpen then cb else Trip(cb, endpoints[i], now, DefaultCooldown);
        RaceShape(cb', now, address, endpoints, outcomes, order[1..], reasons + [FailureReason(endpoints[i], f)]);
    }
  }

  /** The first success in completion order is the answer: if the probes
      completing before position `k` all failed and the one at `k`
      succeeded, the resolution reports that probe's snapshot. */
  lemma {:induction false} FirstSuccessWins(cb: CircuitState, now: real, address: string,
                                            endpoints: seq<string>, outcomes: seq<Outcome>, order: seq<nat>,
                                            reasons: seq<string>, k: nat)
    requires |outcomes| == |endpoints| && ValidOrder(endpoints, order)
    requires k < |order|
    requires forall j :: 0 <= j < k ==> outcomes[order[j]].Failed?
    requires outcomes[order[k]].Success?
    ensures Race(cb, now, address, endpoints, outcomes, order, reasons).info
         == SuccessInfo(address, outcomes[order[k]].snap)
    decreases k
  {
    if k > 0 {
      var i := order[0];
      var f := outcomes[i].failure;
      var cb' := if f == CircuitOpen then cb else Trip(cb, endpoints[i], now, DefaultCooldown);
      assert forall j :: 0 <= j < |order[1..]| ==> order[1..][j] == order[j + 1];
      FirstSuccessWins(cb', now, address, endpoints, outcomes, order[1..],
                       reasons + [FailureReason(endpoints[i], f)], k - 1);
    }
  }

  /** The reasons the failed probes report, in completion order. */
  function ReasonsOf(endpoints: seq<string>, outcomes: seq<Outcome>, order: seq<nat>): (r: seq<string>)
    requires |outcomes| == |endpoints| && ValidOrder(endpoints, order)
    requires forall j :: 0 <= j < |order| ==> outcomes[order[j]].Failed?
    ensures |r| == |order|
    decreases |order|
  {
    if order == [] then []
    else
      [FailureReason(endpoints[order[0]], outcomes[order[0]].failure)]
      + ReasonsOf(endpoints, outcomes, order[1..])
  }

  /** When every probe fails, the answer is `unreachable` with the reasons
      of all probes in completion order, so its debug reason is the last
      one to fail. */
  lemma {:induction false} AllFailedIsUnreachable(cb: CircuitState, now: real, address: string,
                                                  endpoints: seq<string>, outcomes: seq<Outcome>, order: seq<nat>,
                                                  reasons: seq<string>)
    requires |outcomes| == |endpoints| && ValidOrder(endpoints, order)
    requires forall j :: 0 <= j < |order| ==> outcomes[order[j]].Failed?
    ensures Race(cb, now, address, endpoints, outcomes, order, reasons).info
         == UnreachableInfo(address, reasons + ReasonsOf(endpoints, outcomes, order))
    decreases |order|
  {
    if order == [] {
      assert reasons + [] == reasons;
    } else {
      var i := order[0];
      var f := outcomes[i].failure;
      var cb' := if f == CircuitOpen then cb else Trip(cb, endpoints[i], now, DefaultCooldown);
      assert forall j :: 0 <= j < |order[1..]| ==> order[1..][j] == order[j + 1];
      var x := FailureReason(endpoints[i], f);
      AllFailedIsUnreachable(cb', now, address, endpoints, outcomes, order[1..], reasons + [x]);
      var rest := ReasonsOf(endpoints, outcomes, order[1..]);
      assert ReasonsOf(endpoints, outcomes, order) == [x] + rest;
      assert (reasons + [x]) + rest == reasons + ([x] + rest);
    }
  }

  /** No endpoint eligible (all blocked, or an empty list): `unreachable`
      with the reason "unknown", and the breaker unchanged. */
  lemma NothingEligible(address: string, cb: CircuitState, now: real, endpoints: seq<string>, replies: seq<Replies>)
    requires |replies| == |endpoints|
    requires ValidateWalletAddressAsWritten(address)
    requires forall j :: 0 <= j < |endpoints| ==> IsBlocked(cb, endpoints[j], now)
    ensures Resolve(address, cb, now, endpoints, replies, []) == Resolution(cb, UnreachableInfo(address, []))
    ensures Resolve(address, cb, now, endpoints, replies, []).info.debugReason == "unknown"
  {
    AllBlockedNoneEligible(cb, now, endpoints);
  }

  /** A dispatched probe never reports "circuit_open": it was dispatched
      because its endpoint was open at the same clock reading. */
  lemma DispatchedProbeNotCircuitOpen(cb: CircuitState, now: real, endpoints: seq<string>, replies: seq<Replies>,
                                      order: seq<nat>, k: nat)
    requires |replies| == |endpoints|
    requires multiset(order) == multiset(EligibleIndices(cb, now, endpoints))
    requires k < |order|
    ensures order[k] < |endpoints|
    ensures Outcomes(cb, now, endpoints, replies)[order[k]] != Failed(CircuitOpen)
  {
    OrderValid(cb, now, endpoints, order);
  }

  /** A resolution leaves the breaker entry of every endpoint outside the
      list untouched. */
  lemma {:induction false} RaceTouchesOnlyListed(cb: CircuitState, now: real, address: string,
                                                 endpoints: seq<string>, outcomes: seq<Outcome>, order: seq<nat>,
                                                 reasons: seq<string>, other: string)
    requires |outcomes| == |endpoints| && ValidOrder(endpoints, order)
    requires other !in endpoints
    ensures var b := Race(cb, now, address, endpoints, outcomes, order, reasons).breaker;
      (other in b <==> other in cb) && (other in cb ==> b[other] == cb[other])
    decreases |order|
  {
    if order != [] {
      var i := order[0];
      match outcomes[i]
      case Success(snap) =>
      case Failed(f) =>
        var cb' := if f == CircuitOpen then cb else Trip(cb, endpoints[i], now, DefaultCooldown);
        assert endpoints[i] != other;
        RaceTouchesOnlyListed(cb', now, address, endpoints, outcomes, order[1..],
                              reasons + [FailureReason(endpoints[i], f)], other);
    }
  }

  /** After a resolution in which every dispatched probe failed with a
      tripping failure, every dispatched endpoint is blocked for the
      cooldown. */
  lemma {:induction false} AllFailedTripsAll(cb: CircuitState, now: real, address: string,
                                             endpoints: seq<string>, outcomes: seq<Outcome>, order: seq<nat>,
                                             reasons: seq<string>)
    requires |outcomes| == |endpoints| && ValidOrder(endpoints, order)
    requires forall j :: 0 <= j < |order| ==> outcomes[order[j]].Failed? && outcomes[order[j]] != Failed(CircuitOpen)
    ensures var b := Race(cb, now, address, endpoints, outcomes, order, reasons).breaker;
      forall j :: 0 <= j < |order| ==> endpoints[order[j]] in b && b[endpoints[order[j]]] == now + DefaultCooldown as real
    decreases |order|
  {
    if order != [] {
      var i := order[0];
      var cb' := Trip(cb, endpoints[i], now, DefaultCooldown);
      var reasons' := reasons + [FailureReason(endpoints[i], outcomes[i].failure)];
      assert forall j :: 0 <= j < |order[1..]| ==> order[1..][j] == order[j + 1];
      AllFailedTripsAll(cb', now, address, endpoints, outcomes, order[1..], reasons');
      KeepsTripped(cb', now, address, endpoints, outcomes, order[1..], reasons', endpoints[i]);
    }
  }

  /** An entry set to `now + cooldown` stays so: later trips write the same
      value. */
  lemma {:induction false} KeepsTripped(cb: CircuitState, now: real, address: string,
                                        endpoints: seq<string>, outcomes: seq<Outcome>, order: seq<nat>,
                                        reasons: seq<string>, base: string)
    requires |outcomes| == |endpoints| && ValidOrder(endpoints, order)
    requires base in cb && cb[base] == now + DefaultCooldown as real
    ensures var b := Race(cb, now, address, endpoints, outcomes, order, reasons).breaker;
      base in b && b[base] == now + DefaultCooldown as real
    decreases |order|
  {
    if order != [] {
      var i := order[0];
      match outcomes[i]
      case Success(snap) =>
      case Failed(f) =>
        var cb' := if f == CircuitOpen then cb else Trip(cb, endpoints[i], now, DefaultCooldown);
        KeepsTripped(cb', now, address, endpoints, outcomes, order[1..],
                     reasons + [FailureReason(endpoints[i], f)], base);
    }
  }
}
