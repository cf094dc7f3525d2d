/** The per-IP sliding-window rate limiter (`rate_limiter`) and
    `rotate_endpoints`. The table of timestamps is passed in and returned;
    the clock reading is a parameter. */
module RateLimit {

  /** The window, in seconds. */
  const Window: real := 60.0
  /** Requests admitted per window. */
  const MaxRequests: nat := 15

  /** `RATE_LIMIT`: the admitted timestamps per IP. */
  type Limits = map<string, seq<real>>

  /** The timestamps still inside the window at `now`, in order, each as
      often as it was stored. */
  function Recent(ts: seq<real>, now: real): (r: seq<real>)
    ensures |r| <= |ts|
    ensures forall t :: t in r <==> t in ts && now - t < Window
    ensures forall t :: multiset(r)[t] == if now - t < Window then multiset(ts)[t] else 0
    decreases |ts|
  {
    if ts == [] then []
    else
      var n := |ts| - 1;
      var front := Recent(ts[..n], now);
      assert ts == ts[..n] + [ts[n]];
      if now - ts[n] < Window then front + [ts[n]] else front
  }

  /** Pruning keeps the order: it distributes over concatenation. */
  lemma {:induction false} RecentAppend(xs: seq<real>, ys: seq<real>, now: real)
    ensures Recent(xs + ys, now) == Recent(xs, now) + Recent(ys, now)
    decreases |ys|
  {
    if ys == [] {
      assert xs + ys == xs;
    } else {
      var n := |ys| - 1;
      var all := xs + ys;
      var front := ys[..n];
      assert all[..|all| - 1] == xs + front;
      assert all[|all| - 1] == ys[n];
      RecentAppend(xs, front, now);
      var tail := if now - ys[n] < Window then [ys[n]] else [];
      assert Recent(all, now) == Recent(xs + front, now) + tail;
      assert Recent(ys, now) == Recent(front, now) + tail;
      assert (Recent(xs, now) + Recent(front, now)) + tail == Recent(xs, now) + (Recent(front, now) + tail);
    }
  }

  /** The stored list for `ip`; a missing entry reads as empty. */
  function Stored(limits: Limits, ip: string): seq<real> {
    if ip in limits then limits[ip] else []
  }

  /** One call of `rate_limiter(ip)` at `now`: the expired timestamps are
      dropped (even when the call is refused), then the call is admitted
      iff fewer than `MaxRequests` remain, and an admitted call records
      `now`. */
  function Admit(limits: Limits, ip: string, now: real): (res: (bool, Limits))
    ensures res.1.Keys == limits.Keys + {ip}
    ensures forall k :: k in limits && k != ip ==> res.1[k] == limits[k]
    ensures res.0 <==> |Recent(Stored(limits, ip), now)| < MaxRequests
    ensures res.1[ip] == if res.0 then Recent(Stored(limits, ip), now) + [now] else Recent(Stored(limits, ip), now)
  {
    var kept := Recent(Stored(limits, ip), now);
    if |kept| >= MaxRequests then (false, limits[ip := kept]) else (true, limits[ip := kept + [now]])
  }

  /** `rate_limiter` as written, with its filtering loop. */
  method RateLimiter(limits: Limits, ip: string, now: real) returns (allowed: bool, limits': Limits)
    ensures (allowed, limits') == Admit(limits, ip, now)
  {
    var ts := Stored(limits, ip);
    var kept: seq<real> := [];
    var i := 0;
    while i < |ts|
      invariant 0 <= i <= |ts|
      invariant kept == Recent(ts[..i], now)
    {
      assert ts[..i + 1][..i] == ts[..i];
      if now - ts[i] < Window {
        kept := kept + [ts[i]];
      }
      i := i + 1;
    }
    assert ts[..|ts|] == ts;
    if |kept| >= MaxRequests {
      allowed := false;
      limits' := limits[ip := kept];
    } else {
      allowed := true;
      limits' := limits[ip := kept + [now]];
    }
  }

  /** Every stored list holds at most `MaxRequests` timestamps. */
  predicate Bounded(limits: Limits) {
    forall k :: k in limits ==> |limits[k]| <= MaxRequests
  }

  /** The bound is an invariant of the limiter. */
  lemma AdmitKeepsBound(limits: Limits, ip: string, now: real)
    requires Bounded(limits)
    ensures Bounded(Admit(limits, ip, now).1)
  {
    var after := Admit(limits, ip, now).1;
    forall k | k in after
      ensures |after[k]| <= MaxRequests
    {
      if k != ip {
        assert after[k] == limits[k];
      }
    }
  }

  /** After a call, the stored list holds only timestamps inside the
      window, and `now` only if the call was admitted (for a clock that
      does not run backwards past the stored times, `now` itself is
      inside the window). */
  lemma StoredAfterCall(limits: Limits, ip: string, now: real)
    ensures var res := Admit(limits, ip, now);
      forall t :: t in res.1[ip] ==> (t in Stored(limits, ip) && now - t < Window) || (res.0 && t == now)
    ensures var res := Admit(limits, ip, now);
      |res.1[ip]| == |Recent(Stored(limits, ip), now)| + (if res.0 then 1 else 0)
  {
  }

  /** A first call from an IP is always admitted. */
  lemma FirstCallAdmitted(limits: Limits, ip: string, now: real)
    requires ip !in limits
    ensures Admit(limits, ip, now) == (true, limits[ip := [now]])
  {
    assert Recent(Stored(limits, ip), now) == [];
    assert [] + [now] == [now];
  }

  /** A full window refuses, and keeps refusing at the same clock reading. */
  lemma FullWindowRefuses(limits: Limits, ip: string, now: real)
    requires |Recent(Stored(limits, ip), now)| >= MaxRequests
    ensures !Admit(limits, ip, now).0
    ensures !Admit(Admit(limits, ip, now).1, ip, now).0
  {
    var kept := Recent(Stored(limits, ip), now);
    RecentIdempotent(Stored(limits, ip), now);
    assert Stored(Admit(limits, ip, now).1, ip) == kept;
  }

  /** Filtering twice at the same clock reading changes nothing. */
  lemma {:induction false} RecentIdempotent(ts: seq<real>, now: real)
    ensures Recent(Recent(ts, now), now) == Recent(ts, now)
    decreases |ts|
  {
    if ts != [] {
      var n := |ts| - 1;
      RecentIdempotent(ts[..n], now);
      var front := Recent(ts[..n], now);
      if now - ts[n] < Window {
        assert (front + [ts[n]])[..|front|] == front;
      }
    }
  }

  /** `rotate_endpoints`: a copy of the list, in the same order. */
  function RotateEndpoints(endpoints: seq<string>): (r: seq<string>)
    ensures r == endpoints
  {
    endpoints[..]
  }
}
