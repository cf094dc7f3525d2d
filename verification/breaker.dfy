/** The circuit breaker (`_CB`, `_cb_blocked`, `_cb_trip`): a map from
    endpoint to the time until which it is blocked. The map is passed in
    and returned explicitly; the clock reading is a parameter. */
module Breaker {

  type CircuitState = map<string, real>

  /** The cooldown `_cb_trip` applies when none is given, in seconds. */
  const DefaultCooldown: int := 180

  /** The stored unblock time; a missing entry reads as 0. */
  function UnblockTime(cb: CircuitState, base: string): real {
    if base in cb then cb[base] else 0.0
  }

  /** `_cb_blocked`: the unblock time is strictly in the future. */
  predicate IsBlocked(cb: CircuitState, base: string, now: real) {
    UnblockTime(cb, base) > now
  }

  /** `_cb_trip`: block `base` for `seconds` from `now`. */
  function Trip(cb: CircuitState, base: string, now: real, seconds: int): (r: CircuitState)
    ensures r.Keys == cb.Keys + {base}
    ensures forall b :: b in cb && b != base ==> r[b] == cb[b]
    ensures forall t :: IsBlocked(r, base, t) <==> t < now + seconds as real
  {
    cb[base := now + seconds as real]
  }

  /** An endpoint that was never tripped is not blocked at any clock
      reading after the epoch. */
  lemma NeverTrippedIsOpen(cb: CircuitState, base: string, now: real)
    requires base !in cb && now >= 0.0
    ensures !IsBlocked(cb, base, now)
  {
  }

  /** A trip changes no other endpoint's verdict, at any time. */
  lemma TripIsolated(cb: CircuitState, base: string, other: string, t: real, seconds: int, now: real)
    requires other != base
    ensures IsBlocked(Trip(cb, base, t, seconds), other, now) == IsBlocked(cb, other, now)
  {
  }

  /** Without further trips, an endpoint that is open stays open. */
  lemma OpenStaysOpen(cb: CircuitState, base: string, now: real, later: real)
    requires !IsBlocked(cb, base, now) && now <= later
    ensures !IsBlocked(cb, base, later)
  {
  }

  /** Indices of the endpoints not blocked at `now`, in list order: the
      endpoints a resolution dispatches a probe to. */
  function EligibleIndices(cb: CircuitState, now: real, endpoints: seq<string>): (r: seq<nat>)
    ensures forall i :: 0 <= i < |r| ==> r[i] < |endpoints| && !IsBlocked(cb, endpoints[r[i]], now)
    ensures forall j :: 0 <= j < |endpoints| && !IsBlocked(cb, endpoints[j], now) ==> j in r
    ensures forall i, k :: 0 <= i < k < |r| ==> r[i] < r[k]
    decreases |endpoints|
  {
    if endpoints == [] then []
    else
      var n := |endpoints| - 1;
      var front := EligibleIndices(cb, now, endpoints[..n]);
      assert forall j :: 0 <= j < n ==> endpoints[..n][j] == endpoints[j];
      if IsBlocked(cb, endpoints[n], now) then front else front + [n]
  }

  /** When every endpoint is blocked, none is eligible. */
  lemma {:induction false} AllBlockedNoneEligible(cb: CircuitState, now: real, endpoints: seq<string>)
    requires forall j :: 0 <= j < |endpoints| ==> IsBlocked(cb, endpoints[j], now)
    ensures EligibleIndices(cb, now, endpoints) == []
    decreases |endpoints|
  {
    if endpoints != [] {
      var n := |endpoints| - 1;
      assert forall j :: 0 <= j < n ==> endpoints[..n][j] == endpoints[j];
      AllBlockedNoneEligible(cb, now, endpoints[..n]);
    }
  }
}
