/**
 The gateway's two-layer rate limiter: one fixed-window counter per client address and one per targeted
 account, both bumped by an atomic script.  Over any traffic a fixed window of `limit` per `ttl` lets at
 most 2 * limit - 1 requests through in any interval of length `ttl`, and that many it can let through.
 */
module RateLimit {
  import opened Wrappers
  import opened RedisStore

  datatype Options = Options(limit: nat, ttl: nat, prefix: string)

  /** The Lua script: INCR, and EXPIRE when the key is new or has lost its expiry. */
  function Bump(s: Store, k: CounterKey, ttl: nat, t: nat): Store {
    var bumped := Incr(s, k, t);
    if Count(bumped, k, t) == 1 || TimeLeft(bumped.counts, k, t) == -1 then Expire(bumped, k, ttl, t)
    else bumped
  }

  /** What the script returns. */
  function Bumped(s: Store, k: CounterKey, t: nat): nat {
    Count(s, k, t) + 1
  }

  // ---------------------------------------------------------------------------------------------
  // Traffic on the counters, in the order Redis serves it
  // ---------------------------------------------------------------------------------------------

  /** One execution of the script for some request. */
  datatype Touch = Touch(key: CounterKey, at: nat)

  function Replay(o: Options, h: seq<Touch>): Store {
    if h == [] then EMPTY
    else Bump(Replay(o, h[..|h| - 1]), h[|h| - 1].key, o.ttl, h[|h| - 1].at)
  }

  predicate InOrder(h: seq<Touch>) {
    forall i, j :: 0 <= i < j < |h| ==> h[i].at <= h[j].at
  }

  /** The count the last touch of `h` received. */
  function LastCount(o: Options, h: seq<Touch>): nat
    requires h != []
  {
    Bumped(Replay(o, h[..|h| - 1]), h[|h| - 1].key, h[|h| - 1].at)
  }

  /** Touches of `k` in the interval from `a` whose count the limit allows. */
  function PassesIn(o: Options, h: seq<Touch>, k: CounterKey, a: nat): nat {
    if h == [] then 0
    else
      var e := h[|h| - 1];
      PassesIn(o, h[..|h| - 1], k, a)
      + (if e.key == k && Within(e.at, a, Seconds(o.ttl)) && LastCount(o, h) <= o.limit then 1 else 0)
  }

  /** The same, split at the start of the counter's current window. */
  datatype Split = Split(before: nat, current: nat)

  function Tally(o: Options, h: seq<Touch>, k: CounterKey, a: nat): Split {
    if h == [] then Split(0, 0)
    else
      var rest := Tally(o, h[..|h| - 1], k, a);
      var e := h[|h| - 1];
      var x := if Within(e.at, a, Seconds(o.ttl)) && LastCount(o, h) <= o.limit then 1 else 0;
      if e.key != k then rest
      else if LastCount(o, h) == 1 then Split(rest.before + rest.current, x)
      else Split(rest.before, rest.current + x)
  }

  lemma {:induction false} TallyIsPasses(o: Options, h: seq<Touch>, k: CounterKey, a: nat)
    ensures var s := Tally(o, h, k, a); s.before + s.current == PassesIn(o, h, k, a)
  {
    if h != [] {
      TallyIsPasses(o, h[..|h| - 1], k, a);
    }
  }

  /** The exact most an interval can let through: the first touch of the older window precedes it. */
  function AtMost(o: Options): nat {
    if o.limit == 0 then 0 else 2 * o.limit - 1
  }

  /** The counter of `k` after `h`, seen no earlier than `t`: its count, and how the interval splits. */
  predicate WindowOk(o: Options, s: Store, k: CounterKey, a: nat, t: nat, split: Split) {
    var span := Seconds(o.ttl);
    && (k !in s.counts ==> split == Split(0, 0))
    && (k in s.counts ==>
         var e := s.counts[k];
         && e.value > 0 && e.expiresAt.Some? && span <= e.expiresAt.value
         && var start := e.expiresAt.value - span;
         && start <= t
         && split.current <= e.value && split.current <= o.limit
         && (split.current > 0 ==> a < e.expiresAt.value && start < a + span)
         && (start < a && split.current > 0 ==> split.current < e.value && split.current < o.limit)
         && (start <= a ==> split.before == 0)
         && (start < a + span && split.before > 0 ==> split.before < o.limit)
         && split.before <= AtMost(o))
  }

  lemma {:induction false} TouchKeepsWindow(o: Options, h: seq<Touch>, k: CounterKey, a: nat, t: nat)
    requires h != [] && t <= h[|h| - 1].at
    requires var n := |h| - 1; WindowOk(o, Replay(o, h[..n]), k, a, t, Tally(o, h[..n], k, a))
    ensures WindowOk(o, Replay(o, h), k, a, h[|h| - 1].at, Tally(o, h, k, a))
  {
  }

  lemma {:induction false} WindowsAreOk(o: Options, h: seq<Touch>, k: CounterKey, a: nat)
    requires InOrder(h)
    ensures WindowOk(o, Replay(o, h), k, a, if h == [] then 0 else h[|h| - 1].at, Tally(o, h, k, a))
  {
    if h != [] {
      WindowsAreOk(o, h[..|h| - 1], k, a);
      TouchKeepsWindow(o, h, k, a, if |h| == 1 then 0 else h[|h| - 2].at);
    }
  }

  /** Any traffic, any key, any interval as long as the window: fewer than twice the limit pass. */
  lemma {:induction false} SlidingWindowBound(o: Options, h: seq<Touch>, k: CounterKey, a: nat)
    requires InOrder(h)
    ensures PassesIn(o, h, k, a) <= AtMost(o)
  {
    WindowsAreOk(o, h, k, a);
    TallyIsPasses(o, h, k, a);
  }

  /** No counter is ever left without an expiry, so every window ends within `ttl` of its last touch. */
  lemma {:induction false} EveryWindowEnds(o: Options, h: seq<Touch>, k: CounterKey)
    requires InOrder(h) && k in Replay(o, h).counts
    ensures Replay(o, h).counts[k].expiresAt.Some?
    ensures Replay(o, h).counts[k].expiresAt.value <= h[|h| - 1].at + Seconds(o.ttl)
  {
    WindowsAreOk(o, h, k, 0);
  }

  // ---------------------------------------------------------------------------------------------
  // One window
  // ---------------------------------------------------------------------------------------------

  /** Passes of `k` since its counter last started at 1. */
  function PassesThisWindow(o: Options, h: seq<Touch>, k: CounterKey): nat {
    if h == [] then 0
    else
      var e := h[|h| - 1];
      var x := if LastCount(o, h) <= o.limit then 1 else 0;
      if e.key != k then PassesThisWindow(o, h[..|h| - 1], k)
      else if LastCount(o, h) == 1 then x
      else PassesThisWindow(o, h[..|h| - 1], k) + x
  }

  /** Within one window exactly the first `limit` touches pass. */
  lemma {:induction false} WindowBound(o: Options, h: seq<Touch>, k: CounterKey)
    ensures PassesThisWindow(o, h, k) <= o.limit
    ensures k in Replay(o, h).counts ==>
      PassesThisWindow(o, h, k) == if Replay(o, h).counts[k].value <= o.limit then Replay(o, h).counts[k].value
                                   else o.limit
    ensures k !in Replay(o, h).counts ==> PassesThisWindow(o, h, k) == 0
    ensures k in Replay(o, h).counts ==> Replay(o, h).counts[k].value > 0
  {
    if h != [] {
      WindowBound(o, h[..|h| - 1], k);
    }
  }

  lemma {:induction false} OneMoreTouch(o: Options, h: seq<Touch>, e: Touch, k: CounterKey, a: nat)
    ensures Replay(o, h + [e]) == Bump(Replay(o, h), e.key, o.ttl, e.at)
    ensures PassesIn(o, h + [e], k, a) == PassesIn(o, h, k, a)
      + (if e.key == k && Within(e.at, a, Seconds(o.ttl)) && Bumped(Replay(o, h), e.key, e.at) <= o.limit
         then 1 else 0)
  {
    assert (h + [e])[..|h|] == h;
  }
}
