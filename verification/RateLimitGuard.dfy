/**
 The guard's decision on one request, its headers, and what they promise; and the bound on admitted
 requests that follows from the counters.
 */
module RateLimitGuard {
  import opened Wrappers
  import opened RedisStore
  import opened RateLimit

  /** One request: its address, the hash of its target if it names one, and when its commands run. */
  datatype Hit = Hit(
    ip: string, target: Option<string>,
    ipAt: nat, ipProbe: nat, targetAt: nat, targetProbe: nat, nowSeconds: nat)

  /** The outcome and the values of the rate-limit headers. */
  datatype Verdict = Verdict(admitted: bool, remaining: nat, reset: nat, retryAfter: Option<nat>)

  function IpKey(o: Options, hit: Hit): CounterKey {
    IpWindow(o.prefix, hit.ip)
  }

  function TargetKey(o: Options, hit: Hit): CounterKey
    requires hit.target.Some?
  {
    TargetWindow(o.prefix, hit.target.value)
  }

  function Min(a: nat, b: nat): nat { if a < b then a else b }

  function Max(a: nat, b: nat): nat { if a < b then b else a }

  function Spare(limit: nat, count: nat): nat {
    if count < limit then limit - count else 0
  }

  /** What the guard leaves in Redis and answers. */
  function Decide(s: Store, o: Options, hit: Hit): (Store, Verdict) {
    var ipCount := Bumped(s, IpKey(o, hit), hit.ipAt);
    var s1 := Bump(s, IpKey(o, hit), o.ttl, hit.ipAt);
    var ipTtl := RetryAfter(TimeLeft(s1.counts, IpKey(o, hit), hit.ipProbe), o.ttl);
    if hit.target.None? then
      (s1, Verdict(ipCount <= o.limit, Spare(o.limit, ipCount), hit.nowSeconds + ipTtl,
                   if ipCount > o.limit then Some(ipTtl) else None))
    else
      var count := Bumped(s1, TargetKey(o, hit), hit.targetAt);
      var s2 := Bump(s1, TargetKey(o, hit), o.ttl, hit.targetAt);
      var ttl := RetryAfter(TimeLeft(s2.counts, TargetKey(o, hit), hit.targetProbe), o.ttl);
      (s2, Verdict(ipCount <= o.limit && count <= o.limit,
                   Min(Spare(o.limit, ipCount), Spare(o.limit, count)),
                   hit.nowSeconds + Max(ipTtl, ttl),
                   if ipCount > o.limit then Some(ipTtl) else if count > o.limit then Some(ttl) else None))
  }

  /** Requests share a counter exactly when they share the endpoint's prefix and the address, or the target. */
  lemma {:induction false} CountersAreSeparate(o: Options, a: Hit, p: Options, b: Hit)
    ensures IpKey(o, a) == IpKey(p, b) <==> o.prefix == p.prefix && a.ip == b.ip
    ensures a.target.Some? && b.target.Some? ==>
      (TargetKey(o, a) == TargetKey(p, b) <==> o.prefix == p.prefix && a.target == b.target)
    ensures b.target.Some? ==> IpKey(o, a) != TargetKey(p, b)
  {
  }

  // ---------------------------------------------------------------------------------------------
  // Overlapping requests
  // ---------------------------------------------------------------------------------------------

  /** Where in the traffic the two scripts of a request ran. */
  datatype Slots = Slots(ip: nat, target: Option<nat>)

  /** Position `i` of the traffic is an execution of this request. */
  predicate RanAt(slots: Slots, i: nat) {
    i == slots.ip || slots.target == Some(i)
  }

  /** The scripts of `hit` ran at these positions, the one for the address first. */
  predicate Placed(o: Options, h: seq<Touch>, hit: Hit, slots: Slots) {
    && slots.ip < |h| && h[slots.ip] == Touch(IpKey(o, hit), hit.ipAt)
    && (hit.target.None? <==> slots.target.None?)
    && (hit.target.Some? ==>
         && slots.ip < slots.target.value < |h|
         && h[slots.target.value] == Touch(TargetKey(o, hit), hit.targetAt))
  }

  /** The traffic interleaves the scripts of all requests in any order that keeps each request's own. */
  ghost predicate Interleaves(o: Options, h: seq<Touch>, hits: seq<Hit>, slots: seq<Slots>) {
    && |slots| == |hits|
    && (forall r :: 0 <= r < |hits| ==> Placed(o, h, hits[r], slots[r]))
    && (forall i, q, r :: 0 <= q < |hits| && 0 <= r < |hits| && RanAt(slots[q], i) && RanAt(slots[r], i) ==> q == r)
  }

  /** The count the execution at position `i` returned is within the limit. */
  predicate PassesAt(o: Options, h: seq<Touch>, i: nat)
    requires i < |h|
  {
    LastCount(o, h[..i + 1]) <= o.limit
  }

  /** The guard admits a request when each count it got is within the limit. */
  predicate Admitted(o: Options, h: seq<Touch>, hit: Hit, slots: Slots)
    requires Placed(o, h, hit, slots)
  {
    PassesAt(o, h, slots.ip) && (slots.target.Some? ==> PassesAt(o, h, slots.target.value))
  }

  /** The request touches counter `k` within the interval from `a`. */
  predicate TouchesIn(o: Options, hit: Hit, k: CounterKey, a: nat) {
    || (IpKey(o, hit) == k && Within(hit.ipAt, a, Seconds(o.ttl)))
    || (hit.target.Some? && TargetKey(o, hit) == k && Within(hit.targetAt, a, Seconds(o.ttl)))
  }

  /** The requests admitted that touch `k` in the interval. */
  ghost function AdmittedOn(
      o: Options, h: seq<Touch>, hits: seq<Hit>, slots: seq<Slots>, k: CounterKey, a: nat): set<nat>
    requires Interleaves(o, h, hits, slots)
  {
    set r | 0 <= r < |hits| && TouchesIn(o, hits[r], k, a) && Admitted(o, h, hits[r], slots[r])
  }

  /** Position `i` is a touch of `k` in the interval that passes. */
  predicate Passing(o: Options, h: seq<Touch>, k: CounterKey, a: nat, i: nat) {
    i < |h| && h[i].key == k && Within(h[i].at, a, Seconds(o.ttl)) && PassesAt(o, h, i)
  }

  function PassPositions(o: Options, h: seq<Touch>, k: CounterKey, a: nat): set<nat> {
    set i | 0 <= i < |h| && Passing(o, h, k, a, i)
  }

  lemma {:induction false} PassingEarlier(o: Options, h: seq<Touch>, k: CounterKey, a: nat, n: nat, i: nat)
    requires i < n <= |h|
    ensures Passing(o, h[..n], k, a, i) <==> Passing(o, h, k, a, i)
  {
    assert h[..n][..i + 1] == h[..i + 1];
  }

  lemma {:induction false} PositionsGrow(o: Options, h: seq<Touch>, k: CounterKey, a: nat)
    requires h != []
    ensures var n := |h| - 1;
      var before := PassPositions(o, h[..n], k, a);
      PassPositions(o, h, k, a) == before + (if Passing(o, h, k, a, n) then {n} else {}) && n !in before
  {
    var n := |h| - 1;
    forall i | 0 <= i < n ensures Passing(o, h[..n], k, a, i) <==> Passing(o, h, k, a, i) {
      PassingEarlier(o, h, k, a, n, i);
    }
  }

  lemma {:induction false} PassesAreCounted(o: Options, h: seq<Touch>, k: CounterKey, a: nat)
    ensures |PassPositions(o, h, k, a)| == PassesIn(o, h, k, a)
  {
    if h != [] {
      var n := |h| - 1;
      PassesAreCounted(o, h[..n], k, a);
      PositionsGrow(o, h, k, a);
      assert h[..n + 1] == h;
    }
  }

  /** Where the request touched counter `k`. */
  function SlotFor(o: Options, hit: Hit, slots: Slots, k: CounterKey): nat {
    if IpKey(o, hit) == k || slots.target.None? then slots.ip else slots.target.value
  }

  lemma {:induction false} AdmittedPasses(
      o: Options, h: seq<Touch>, hits: seq<Hit>, slots: seq<Slots>, k: CounterKey, a: nat, r: nat)
    requires Interleaves(o, h, hits, slots) && r in AdmittedOn(o, h, hits, slots, k, a)
    ensures SlotFor(o, hits[r], slots[r], k) in PassPositions(o, h, k, a)
    ensures RanAt(slots[r], SlotFor(o, hits[r], slots[r], k))
  {
    assert Placed(o, h, hits[r], slots[r]);
  }

  /** Numbers that have values of their own in a set are no more than the set has. */
  lemma {:induction false} Injected(a: set<nat>, b: set<nat>, f: nat -> nat)
    requires forall x :: x in a ==> f(x) in b
    requires forall x, y :: x in a && y in a && f(x) == f(y) ==> x == y
    ensures |a| <= |b|
    decreases |a|
  {
    if a != {} {
      var x :| x in a;
      Injected(a - {x}, b - {f(x)}, f);
    }
  }

  /**
   Whatever mix of addresses and targets arrives, however the scripts of overlapping requests interleave, any
   `ttl` seconds admit fewer than 2 * limit requests that touch the same counter.
   */
  lemma {:induction false} AdmittedBound(
      o: Options, h: seq<Touch>, hits: seq<Hit>, slots: seq<Slots>, k: CounterKey, a: nat)
    requires InOrder(h) && Interleaves(o, h, hits, slots)
    ensures |AdmittedOn(o, h, hits, slots, k, a)| <= AtMost(o)
  {
    var admitted := AdmittedOn(o, h, hits, slots, k, a);
    var slot := (r: nat) => if r < |hits| then SlotFor(o, hits[r], slots[r], k) else 0;
    forall r | r in admitted
      ensures slot(r) in PassPositions(o, h, k, a) && RanAt(slots[r], slot(r))
    {
      AdmittedPasses(o, h, hits, slots, k, a, r);
    }
    Injected(admitted, PassPositions(o, h, k, a), slot);
    PassesAreCounted(o, h, k, a);
    SlidingWindowBound(o, h, k, a);
  }

  function Touches(o: Options, hit: Hit): seq<Touch> {
    [Touch(IpKey(o, hit), hit.ipAt)]
    + (if hit.target.Some? then [Touch(TargetKey(o, hit), hit.targetAt)] else [])
  }

  /** The places of a request served with nothing in between, after `n` executions. */
  function NextSlots(hit: Hit, n: nat): Slots {
    Slots(n, if hit.target.Some? then Some(n + 1) else None)
  }

  /** The verdict of a request whose scripts run back to back is the one the traffic gives. */
  lemma {:induction false} VerdictIsAdmission(o: Options, h: seq<Touch>, hit: Hit)
    ensures var h' := h + Touches(o, hit);
      && Placed(o, h', hit, NextSlots(hit, |h|))
      && Decide(Replay(o, h), o, hit).0 == Replay(o, h')
      && (Decide(Replay(o, h), o, hit).1.admitted <==> Admitted(o, h', hit, NextSlots(hit, |h|)))
  {
    var ip := Touch(IpKey(o, hit), hit.ipAt);
    var h' := h + Touches(o, hit);
    OneMoreTouch(o, h, ip, ip.key, 0);
    assert h'[..|h| + 1] == h + [ip] && (h + [ip])[..|h|] == h;
    if hit.target.Some? {
      var target := Touch(TargetKey(o, hit), hit.targetAt);
      OneMoreTouch(o, h + [ip], target, ip.key, 0);
      assert h' == (h + [ip]) + [target] && h'[..|h| + 2] == h' && h'[..|h| + 1] == h + [ip];
    }
  }

  /** `n` seconds from `t`, up to the half second TTL is rounded by, the window of `k` is over. */
  predicate OverBy(s: Store, k: CounterKey, t: nat, n: nat) {
    k in s.counts && s.counts[k].expiresAt.Some? && s.counts[k].expiresAt.value < t + Seconds(n) + 500
  }

  lemma {:induction false} BumpedIsOver(s: Store, o: Options, k: CounterKey, at: nat, probe: nat)
    ensures var s' := Bump(s, k, o.ttl, at); OverBy(s', k, probe, RetryAfter(TimeLeft(s'.counts, k, probe), o.ttl))
  {
  }

  lemma {:induction false} OtherBumpKeepsOver(
      s: Store, o: Options, k: CounterKey, other: CounterKey, at: nat, t: nat, n: nat)
    requires OverBy(s, k, t, n) && k != other
    ensures OverBy(Bump(s, other, o.ttl, at), k, t, n)
  {
  }

  /**
   Up to that half second the headers do not promise too early: by the announced reset every window the
   request counts in is over, and a client that waits for Retry-After finds the window over that blocked it.
   */
  lemma {:induction false} ResetOutlastsWindows(s: Store, o: Options, hit: Hit)
    requires hit.ipProbe <= Seconds(hit.nowSeconds) && hit.targetProbe <= Seconds(hit.nowSeconds)
    ensures var (s', v) := Decide(s, o, hit);
      && OverBy(s', IpKey(o, hit), 0, v.reset)
      && (hit.target.Some? ==> OverBy(s', TargetKey(o, hit), 0, v.reset))
      && (v.retryAfter.Some? ==>
           if s'.counts[IpKey(o, hit)].value > o.limit then OverBy(s', IpKey(o, hit), hit.ipProbe, v.retryAfter.value)
           else hit.target.Some? && OverBy(s', TargetKey(o, hit), hit.targetProbe, v.retryAfter.value))
  {
    var s1 := Bump(s, IpKey(o, hit), o.ttl, hit.ipAt);
    BumpedIsOver(s, o, IpKey(o, hit), hit.ipAt, hit.ipProbe);
    if hit.target.Some? {
      var ttl := RetryAfter(TimeLeft(s1.counts, IpKey(o, hit), hit.ipProbe), o.ttl);
      BumpedIsOver(s1, o, TargetKey(o, hit), hit.targetAt, hit.targetProbe);
      OtherBumpKeepsOver(s1, o, IpKey(o, hit), TargetKey(o, hit), hit.targetAt, hit.ipProbe, ttl);
    }
  }

  /** The time left of the address's window, as the guard reads it. */
  predicate IpAnnounces(s: Store, o: Options, hit: Hit, n: nat) {
    Announces(Bump(s, IpKey(o, hit), o.ttl, hit.ipAt).counts, IpKey(o, hit), hit.ipProbe, o.ttl, n)
  }

  predicate TargetAnnounces(s: Store, o: Options, hit: Hit, n: nat)
    requires hit.target.Some?
  {
    Announces(Decide(s, o, hit).0.counts, TargetKey(o, hit), hit.targetProbe, o.ttl, n)
  }

  predicate IpBlocks(s: Store, o: Options, hit: Hit) {
    Count(s, IpKey(o, hit), hit.ipAt) + 1 > o.limit
  }

  predicate TargetBlocks(s: Store, o: Options, hit: Hit) {
    hit.target.Some? &&
    Count(Bump(s, IpKey(o, hit), o.ttl, hit.ipAt), TargetKey(o, hit), hit.targetAt) + 1 > o.limit
  }

  /**
   The answer is exact: a request is refused exactly when one of its counters is past the limit, and exactly then it
   is told when to come back, by the window that refuses it, the address's first; and the reset is the later end of
   the windows it counts in, each to the nearest second.
   */
  lemma {:induction false} HeadersAreExact(s: Store, o: Options, hit: Hit, ip: nat, target: nat)
    requires IpAnnounces(s, o, hit, ip) && (hit.target.Some? ==> TargetAnnounces(s, o, hit, target))
    ensures var v := Decide(s, o, hit).1;
      && (v.admitted <==> !IpBlocks(s, o, hit) && !TargetBlocks(s, o, hit))
      && v.retryAfter ==
           (if IpBlocks(s, o, hit) then Some(ip) else if TargetBlocks(s, o, hit) then Some(target) else None)
      && v.reset - hit.nowSeconds == (if hit.target.Some? && ip < target then target else ip)
      && (!v.admitted ==> v.remaining == 0)
  {
    var s1 := Bump(s, IpKey(o, hit), o.ttl, hit.ipAt);
    DelayIsAnnounced(s1.counts, IpKey(o, hit), hit.ipProbe, o.ttl);
    OneAnnouncement(s1.counts, IpKey(o, hit), hit.ipProbe, o.ttl, ip);
    if hit.target.Some? {
      OneAnnouncement(Decide(s, o, hit).0.counts, TargetKey(o, hit), hit.targetProbe, o.ttl, target);
    }
  }

  /** At most one number is the time left to the nearest second. */
  lemma {:induction false} OneAnnouncement(m: map<CounterKey, Entry<nat>>, k: CounterKey, t: nat, default: nat, n: nat)
    requires Announces(m, k, t, default, n)
    ensures n == RetryAfter(TimeLeft(m, k, t), default)
  {
    DelayIsAnnounced(m, k, t, default);
  }

  // ---------------------------------------------------------------------------------------------
  // The X-RateLimit-Remaining header
  // ---------------------------------------------------------------------------------------------

  /** The live count of every key the request touches is `ip`, `target`, and stays alive before `until`. */
  predicate CountsAre(s: Store, o: Options, hit: Hit, ip: nat, target: nat, until: nat) {
    && IpKey(o, hit) in s.counts && s.counts[IpKey(o, hit)].value == ip
    && s.counts[IpKey(o, hit)].expiresAt.Some? && until <= s.counts[IpKey(o, hit)].expiresAt.value
    && (hit.target.Some? ==>
         && TargetKey(o, hit) in s.counts && s.counts[TargetKey(o, hit)].value == target
         && s.counts[TargetKey(o, hit)].expiresAt.Some?
         && until <= s.counts[TargetKey(o, hit)].expiresAt.value)
  }

  predicate Early(hit: Hit, until: nat) {
    hit.ipAt < until && hit.targetAt < until
  }

  predicate Same(a: Hit, b: Hit) {
    a.ip == b.ip && a.target == b.target
  }

  function ServeAll(s: Store, o: Options, hits: seq<Hit>): Store {
    if hits == [] then s else Decide(ServeAll(s, o, hits[..|hits| - 1]), o, hits[|hits| - 1]).0
  }

  lemma {:induction false} CountsGrow(
      s: Store, o: Options, first: Hit, hits: seq<Hit>, ip: nat, target: nat, until: nat)
    requires CountsAre(s, o, first, ip, target, until) && ip > 0 && (first.target.Some? ==> target > 0)
    requires forall j :: 0 <= j < |hits| ==> Same(hits[j], first) && Early(hits[j], until)
    ensures CountsAre(ServeAll(s, o, hits), o, first, ip + |hits|, target + |hits|, until)
  {
    if hits != [] {
      CountsGrow(s, o, first, hits[..|hits| - 1], ip, target, until);
    }
  }

  /** The next request is admitted exactly when one more fits under the limit on every key it touches. */
  lemma {:induction false} NextIsAdmitted(s: Store, o: Options, first: Hit, next: Hit, ip: nat, target: nat, until: nat)
    requires CountsAre(s, o, first, ip, target, until) && Same(next, first) && Early(next, until)
    ensures Decide(s, o, next).1.admitted <==> ip < o.limit && (first.target.Some? ==> target < o.limit)
  {
  }

  lemma {:induction false} RemainingSpares(s: Store, o: Options, first: Hit)
    ensures var (s', v) := Decide(s, o, first);
      var ip := Spare(o.limit, Bumped(s, IpKey(o, first), first.ipAt));
      v.remaining == if first.target.None? then ip
                     else Min(ip, Spare(o.limit, s'.counts[TargetKey(o, first)].value))
  {
  }

  /**
   The header is exact: after a verdict with `remaining` r, of further requests with the same address and
   target, alone on their keys and before either window ends, the n-th is admitted if and only if n <= r.
   */
  lemma {:induction false} RemainingIsExact(s: Store, o: Options, first: Hit, hits: seq<Hit>, next: Hit, until: nat)
    requires var s' := Decide(s, o, first).0;
      CountsAre(s', o, first,
                Bumped(s, IpKey(o, first), first.ipAt),
                if first.target.Some? then s'.counts[TargetKey(o, first)].value else 0, until)
    requires Early(first, until)
    requires forall j :: 0 <= j < |hits| ==> Same(hits[j], first) && Early(hits[j], until)
    requires Same(next, first) && Early(next, until)
    ensures var (s', v) := Decide(s, o, first);
      Decide(ServeAll(s', o, hits), o, next).1.admitted <==> |hits| + 1 <= v.remaining
  {
    var (s', v) := Decide(s, o, first);
    var ip := Bumped(s, IpKey(o, first), first.ipAt);
    var target := if first.target.Some? then s'.counts[TargetKey(o, first)].value else 0;
    RemainingSpares(s, o, first);
    CountsGrow(s', o, first, hits, ip, target, until);
    NextIsAdmitted(ServeAll(s', o, hits), o, first, next, ip + |hits|, target + |hits|, until);
  }

  // ---------------------------------------------------------------------------------------------
  // The code
  // ---------------------------------------------------------------------------------------------

  class Guard {
    const redis: Redis

    constructor (redis: Redis)
      ensures this.redis == redis
    {
      this.redis := redis;
    }

    /** EVAL of the script. */
    method Eval(k: CounterKey, ttl: nat, t: nat) returns (current: nat)
      modifies redis
      ensures redis.store == Bump(old(redis.store), k, ttl, t)
      ensures current == Bumped(old(redis.store), k, t)
    {
      current := redis.Increment(k, t);
      if current == 1 {
        redis.ExpireCount(k, ttl, t);
      } else {
        var left := redis.CountTtl(k, t);
        if left == -1 {
          redis.ExpireCount(k, ttl, t);
        }
      }
    }

    method CanActivate(options: Option<Options>, hit: Hit) returns (verdict: Option<Verdict>)
      modifies redis
      ensures options.None? ==> verdict.None? && redis.store == old(redis.store)
      ensures options.Some? ==>
        verdict.Some? && (redis.store, verdict.value) == Decide(old(redis.store), options.value, hit)
    {
      if options.None? {
        return None;
      }
      var o := options.value;
      var ipCount := Eval(IpKey(o, hit), o.ttl, hit.ipAt);
      var ipLeft := redis.CountTtl(IpKey(o, hit), hit.ipProbe);
      var ipTtl: nat := if ipLeft > 0 then ipLeft else o.ttl;
      var remaining := Spare(o.limit, ipCount);
      var effectiveTtl := ipTtl;
      var emailCount := 0;
      var emailTtl := o.ttl;
      if hit.target.Some? {
        emailCount := Eval(TargetKey(o, hit), o.ttl, hit.targetAt);
        var left := redis.CountTtl(TargetKey(o, hit), hit.targetProbe);
        emailTtl := if left > 0 then left else o.ttl;
        remaining := Min(remaining, Spare(o.limit, emailCount));
        effectiveTtl := Max(ipTtl, emailTtl);
      }
      var reset := hit.nowSeconds + effectiveTtl;
      if ipCount > o.limit {
        return Some(Verdict(false, remaining, reset, Some(ipTtl)));
      }
      if hit.target.Some? && emailCount > o.limit {
        return Some(Verdict(false, remaining, reset, Some(emailTtl)));
      }
      verdict := Some(Verdict(true, remaining, reset, None));
    }
  }
}
