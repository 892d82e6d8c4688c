/**
 What a rate-limit counter, as Redis holds it at instant `a`, says about the traffic to come: exactly when no traffic
 can get more than `limit` requests through in the next `ttl` seconds, and how many it can otherwise.
 */
module RateLimitAhead {
  import opened Wrappers
  import opened RedisStore
  import opened RateLimit

  /** An execution on `k`, within `ttl` from `a`, that returns a count within the limit. */
  predicate PassesAt(o: Options, s: Store, e: Touch, k: CounterKey, a: nat) {
    e.key == k && Within(e.at, a, Seconds(o.ttl)) && Bumped(s, k, e.at) <= o.limit
  }

  /** How many of the executions to come do so. */
  function PassesAhead(o: Options, s: Store, more: seq<Touch>, k: CounterKey, a: nat): nat
    decreases |more|
  {
    if more == [] then 0
    else
      (if PassesAt(o, s, more[0], k, a) then 1 else 0)
      + PassesAhead(o, Bump(s, more[0].key, o.ttl, more[0].at), more[1..], k, a)
  }

  predicate FromOn(more: seq<Touch>, a: nat) {
    InOrder(more) && forall i :: 0 <= i < |more| ==> a <= more[i].at
  }

  /** What every traffic leaves of a counter: a positive count with an expiry. */
  predicate Sound(s: Store, k: CounterKey) {
    k in s.counts ==> s.counts[k].value > 0 && s.counts[k].expiresAt.Some?
  }

  lemma {:induction false} TrafficIsSound(o: Options, h: seq<Touch>, k: CounterKey)
    requires InOrder(h)
    ensures Sound(Replay(o, h), k)
  {
    WindowsAreOk(o, h, k, 0);
  }

  /** What a client can read from Redis: no live counter, or one at its limit, or one that lasts the interval. */
  predicate Tight(o: Options, s: Store, k: CounterKey, a: nat)
    requires Sound(s, k)
  {
    || !Has(s.counts, k, a)
    || s.counts[k].value >= o.limit
    || s.counts[k].expiresAt.value >= a + Seconds(o.ttl)
  }

  /** What is left of the limit in the window live at `a`. */
  function Left(o: Options, s: Store, k: CounterKey, a: nat): nat {
    if Has(s.counts, k, a) && s.counts[k].value < o.limit then o.limit - s.counts[k].value else 0
  }

  function Capped(o: Options, c: nat): nat {
    if c < o.limit then c else o.limit
  }

  /** Still the counter found at `a`: what passed since is what it has counted since. */
  predicate SameWindow(o: Options, s0: Store, s: Store, k: CounterKey, a: nat, p: nat)
    requires Sound(s0, k)
  {
    && k in s0.counts && k in s.counts && s.counts[k].expiresAt == s0.counts[k].expiresAt
    && (if Has(s0.counts, k, a) then
          s0.counts[k].value <= s.counts[k].value
          && p + Capped(o, s0.counts[k].value) <= Capped(o, s.counts[k].value)
        else s.counts[k] == s0.counts[k] && p == 0)
  }

  /** A later window, which began at `a` or after, and not before the one found at `a` was over. */
  predicate LaterWindow(o: Options, s0: Store, s: Store, k: CounterKey, a: nat, p: nat, t: nat)
    requires Sound(s0, k)
  {
    && k in s.counts && s.counts[k].value > 0 && s.counts[k].expiresAt.Some?
    && var span := Seconds(o.ttl);
       var end := s.counts[k].expiresAt.value;
       var left := Left(o, s0, k, a);
       && a + span <= end <= t + span
       && (Has(s0.counts, k, a) ==> s0.counts[k].expiresAt.value + span <= end)
       && p <= left + o.limit
       && (end < a + 2 * span ==> p <= left + Capped(o, s.counts[k].value))
       && (Has(s0.counts, k, a) && a + span <= s0.counts[k].expiresAt.value ==> p <= left)
  }

  predicate AheadOk(o: Options, s0: Store, s: Store, k: CounterKey, a: nat, p: nat, t: nat)
    requires Sound(s0, k)
  {
    || (k !in s0.counts && k !in s.counts && p == 0)
    || SameWindow(o, s0, s, k, a, p)
    || LaterWindow(o, s0, s, k, a, p, t)
  }

  lemma {:induction false} TouchKeepsAhead(
      o: Options, s0: Store, s: Store, k: CounterKey, a: nat, p: nat, t: nat, e: Touch)
    requires Sound(s0, k) && AheadOk(o, s0, s, k, a, p, t) && a <= e.at && t <= e.at
    ensures AheadOk(o, s0, Bump(s, e.key, o.ttl, e.at), k, a, p + (if PassesAt(o, s, e, k, a) then 1 else 0), e.at)
  {
  }

  /** The most the interval from `a` can let through. */
  function MostAhead(o: Options, s: Store, k: CounterKey, a: nat): nat
    requires Sound(s, k)
  {
    if Tight(o, s, k, a) then o.limit else 2 * o.limit - s.counts[k].value
  }

  /** What has passed and what is to come stay within the bound. */
  lemma {:induction false} RestStaysBounded(
      o: Options, s0: Store, s: Store, more: seq<Touch>, k: CounterKey, a: nat, p: nat, t: nat)
    requires Sound(s0, k) && AheadOk(o, s0, s, k, a, p, t)
    requires FromOn(more, a) && forall i :: 0 <= i < |more| ==> t <= more[i].at
    ensures p + PassesAhead(o, s, more, k, a) <= MostAhead(o, s0, k, a)
    decreases |more|
  {
    if more != [] {
      var e := more[0];
      var s' := Bump(s, e.key, o.ttl, e.at);
      TouchKeepsAhead(o, s0, s, k, a, p, t, e);
      RestStaysBounded(o, s0, s', more[1..], k, a, p + (if PassesAt(o, s, e, k, a) then 1 else 0), e.at);
    }
  }

  lemma {:induction false} AheadBound(o: Options, s: Store, more: seq<Touch>, k: CounterKey, a: nat)
    requires Sound(s, k) && FromOn(more, a)
    ensures PassesAhead(o, s, more, k, a) <= MostAhead(o, s, k, a)
  {
    RestStaysBounded(o, s, s, more, k, a, 0, a);
  }

  // ---------------------------------------------------------------------------------------------
  // The worst case ahead
  // ---------------------------------------------------------------------------------------------

  /** `n` executions on `k` at time `t`. */
  function Repeated(k: CounterKey, t: nat, n: nat): seq<Touch> {
    if n == 0 then [] else [Touch(k, t)] + Repeated(k, t, n - 1)
  }

  function WithCounter(s: Store, k: CounterKey, c: nat, end: nat): Store {
    s.(counts := s.counts[k := Entry(c, Some(end))])
  }

  lemma {:induction false} OneAhead(o: Options, s: Store, e: Touch, rest: seq<Touch>, k: CounterKey, a: nat)
    ensures PassesAhead(o, s, [e] + rest, k, a)
         == (if PassesAt(o, s, e, k, a) then 1 else 0) + PassesAhead(o, Bump(s, e.key, o.ttl, e.at), rest, k, a)
  {
    assert ([e] + rest)[1..] == rest;
  }

  lemma {:induction false} BumpInside(o: Options, s: Store, k: CounterKey, c: nat, end: nat, t: nat)
    requires 0 < c && t < end
    ensures Bump(WithCounter(s, k, c, end), k, o.ttl, t) == WithCounter(s, k, c + 1, end)
    ensures Bumped(WithCounter(s, k, c, end), k, t) == c + 1
  {
  }

  lemma {:induction false} BumpAfter(o: Options, s: Store, k: CounterKey, c: nat, end: nat)
    ensures Bump(WithCounter(s, k, c, end), k, o.ttl, end) == WithCounter(s, k, 1, end + Seconds(o.ttl))
    ensures Bumped(WithCounter(s, k, c, end), k, end) == 1
  {
  }

  lemma {:induction false} OneFits(
      o: Options, s: Store, k: CounterKey, a: nat, c: nat, end: nat, t: nat, rest: seq<Touch>)
    requires 0 < c < o.limit && t < end && Within(t, a, Seconds(o.ttl))
    ensures PassesAhead(o, WithCounter(s, k, c, end), [Touch(k, t)] + rest, k, a)
         == 1 + PassesAhead(o, WithCounter(s, k, c + 1, end), rest, k, a)
  {
    BumpInside(o, s, k, c, end, t);
    OneAhead(o, WithCounter(s, k, c, end), Touch(k, t), rest, k, a);
  }

  /** Executions inside a window with room for them all pass. */
  lemma {:induction false} FillsWindow(
      o: Options, s: Store, k: CounterKey, a: nat, c: nat, end: nat, t: nat, last: nat, rest: seq<Touch>)
    requires 0 < c <= last <= o.limit && t < end && Within(t, a, Seconds(o.ttl))
    ensures PassesAhead(o, WithCounter(s, k, c, end), Repeated(k, t, last - c) + rest, k, a)
         == last - c + PassesAhead(o, WithCounter(s, k, last, end), rest, k, a)
    decreases last - c
  {
    if c == last {
      assert Repeated(k, t, 0) + rest == rest;
    } else {
      var tail := Repeated(k, t, last - c - 1) + rest;
      assert Repeated(k, t, last - c) + rest == [Touch(k, t)] + tail;
      var passes := PassesAhead(o, WithCounter(s, k, c + 1, end), tail, k, a);
      assert passes == last - c - 1 + PassesAhead(o, WithCounter(s, k, last, end), rest, k, a) by {
        FillsWindow(o, s, k, a, c + 1, end, t, last, rest);
      }
      OneFits(o, s, k, a, c, end, t, tail);
    }
  }

  /** The moment a window is over the next one opens. */
  lemma {:induction false} OpensWindow(o: Options, s: Store, k: CounterKey, a: nat, c: nat, end: nat, rest: seq<Touch>)
    requires Within(end, a, Seconds(o.ttl)) && o.limit > 0
    ensures PassesAhead(o, WithCounter(s, k, c, end), [Touch(k, end)] + rest, k, a)
         == 1 + PassesAhead(o, WithCounter(s, k, 1, end + Seconds(o.ttl)), rest, k, a)
  {
    BumpAfter(o, s, k, c, end);
    OneAhead(o, WithCounter(s, k, c, end), Touch(k, end), rest, k, a);
  }

  /** The rest of the live window at `a`, and a whole window the moment it is over. */
  function WorstAhead(o: Options, s: Store, k: CounterKey, a: nat): seq<Touch>
    requires Sound(s, k) && !Tight(o, s, k, a)
  {
    var end := s.counts[k].expiresAt.value;
    Repeated(k, a, o.limit - s.counts[k].value) + ([Touch(k, end)] + (Repeated(k, end, o.limit - 1) + []))
  }

  lemma {:induction false} WorstAheadIsFromOn(o: Options, s: Store, k: CounterKey, a: nat)
    requires Sound(s, k) && !Tight(o, s, k, a)
    ensures FromOn(WorstAhead(o, s, k, a), a)
  {
    RepeatedAt(k, a, o.limit - s.counts[k].value);
    RepeatedAt(k, s.counts[k].expiresAt.value, o.limit - 1);
  }

  lemma {:induction false} WorstAheadIsReached(o: Options, s: Store, k: CounterKey, a: nat)
    requires Sound(s, k) && !Tight(o, s, k, a)
    ensures FromOn(WorstAhead(o, s, k, a), a)
    ensures PassesAhead(o, s, WorstAhead(o, s, k, a), k, a) == MostAhead(o, s, k, a)
  {
    var c := s.counts[k].value;
    var end := s.counts[k].expiresAt.value;
    var second := Repeated(k, end, o.limit - 1) + [];
    WorstAheadIsFromOn(o, s, k, a);
    assert WithCounter(s, k, c, end) == s;
    FillsWindow(o, s, k, a, c, end, a, o.limit, [Touch(k, end)] + second);
    OpensWindow(o, s, k, a, o.limit, end, second);
    FillsWindow(o, s, k, a, 1, end + Seconds(o.ttl), end, o.limit, []);
  }

  lemma {:induction false} RepeatedAt(k: CounterKey, t: nat, n: nat)
    ensures |Repeated(k, t, n)| == n && forall i :: 0 <= i < n ==> Repeated(k, t, n)[i].at == t
  {
    if n > 0 { RepeatedAt(k, t, n - 1); }
  }

  ghost predicate NeverExceeds(o: Options, s: Store, k: CounterKey, a: nat) {
    forall more :: FromOn(more, a) ==> PassesAhead(o, s, more, k, a) <= o.limit
  }

  /**
   The documented "`limit` per `ttl`" holds from instant `a` on, for whatever traffic comes, exactly when the key has
   no live counter at `a`, or its count has reached the limit, or its window lasts the whole interval.
   */
  lemma {:induction false} LimitHoldsExactlyWhenTight(o: Options, s: Store, k: CounterKey, a: nat)
    requires Sound(s, k)
    ensures NeverExceeds(o, s, k, a) <==> Tight(o, s, k, a)
  {
    if Tight(o, s, k, a) {
      forall more | FromOn(more, a) ensures PassesAhead(o, s, more, k, a) <= o.limit {
        AheadBound(o, s, more, k, a);
      }
    } else {
      WorstAheadIsReached(o, s, k, a);
    }
  }

  /** So it is after any traffic up to `a`. */
  lemma {:induction false} LimitAheadOfTraffic(o: Options, h: seq<Touch>, k: CounterKey, a: nat)
    requires InOrder(h) && forall i :: 0 <= i < |h| ==> h[i].at <= a
    ensures Sound(Replay(o, h), k)
    ensures NeverExceeds(o, Replay(o, h), k, a) <==> Tight(o, Replay(o, h), k, a)
  {
    TrafficIsSound(o, h, k);
    LimitHoldsExactlyWhenTight(o, Replay(o, h), k, a);
  }

  // ---------------------------------------------------------------------------------------------
  // The sliding window's bound is reached
  // ---------------------------------------------------------------------------------------------

  /** What traffic lets through is what its first part did and what then lay ahead. */
  lemma {:induction false} PassesSplit(o: Options, h: seq<Touch>, more: seq<Touch>, k: CounterKey, a: nat)
    ensures PassesIn(o, h + more, k, a) == PassesIn(o, h, k, a) + PassesAhead(o, Replay(o, h), more, k, a)
    decreases |more|
  {
    if more == [] {
      assert h + more == h;
    } else {
      OneMoreTouch(o, h, more[0], k, a);
      PassesSplit(o, h + [more[0]], more[1..], k, a);
      assert h + more == (h + [more[0]]) + more[1..];
    }
  }

  /** One touch opens a window; the rest of it a moment later, and the whole of the next when it is over. */
  function TwoWindows(o: Options, k: CounterKey): seq<Touch>
    requires o.limit > 0 && o.ttl > 0
  {
    [Touch(k, 0)]
    + (if o.limit == 1 then [Touch(k, Seconds(o.ttl))] + []
       else WorstAhead(o, WithCounter(EMPTY, k, 1, Seconds(o.ttl)), k, 1))
  }

  /** Two windows back to back let 2 * limit - 1 requests through in one interval of the window's length. */
  lemma {:induction false} SlidingWindowBoundIsReached(o: Options, k: CounterKey)
    requires o.limit > 0 && o.ttl > 0
    ensures InOrder(TwoWindows(o, k))
    ensures PassesIn(o, TwoWindows(o, k), k, 1) == 2 * o.limit - 1
  {
    var first := [Touch(k, 0)];
    var window := WithCounter(EMPTY, k, 1, Seconds(o.ttl));
    FirstTouch(o, k);
    if o.limit == 1 {
      PassesSplit(o, first, [Touch(k, Seconds(o.ttl))] + [], k, 1);
      OpensWindow(o, EMPTY, k, 1, 1, Seconds(o.ttl), []);
    } else {
      WorstAheadIsReached(o, window, k, 1);
      PassesSplit(o, first, WorstAhead(o, window, k, 1), k, 1);
    }
  }

  lemma {:induction false} FirstTouch(o: Options, k: CounterKey)
    requires o.limit > 0
    ensures Replay(o, [Touch(k, 0)]) == WithCounter(EMPTY, k, 1, Seconds(o.ttl))
    ensures PassesIn(o, [Touch(k, 0)], k, 1) == 0
  {
    OneMoreTouch(o, [], Touch(k, 0), k, 1);
    assert [] + [Touch(k, 0)] == [Touch(k, 0)];
  }
}
