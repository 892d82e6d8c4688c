/**
 One request's commands on a failure counter as a run of the interleaved guard by a single attempt: the pieces the
 login and the verification handler share.
 */
module CounterRun {
  import opened Wrappers
  import opened RedisStore
  import opened FailureGuard

  /** The counter as the machine sees it at time `t`: gone once its expiry is reached. */
  function CounterAt(s: Store, k: CounterKey, t: nat): Option<Entry<nat>> {
    if Has(s.counts, k, t) then Some(s.counts[k]) else None
  }

  /** The machine agrees with the store about one key, and no attempt is under way. */
  predicate Agrees(m: State, s: Store, k: CounterKey) {
    m.flight == map[] && m.counter == CounterAt(s, k, m.now)
  }

  /** Arrival and the guard's GET at time `t`. */
  function Opening(t: nat): seq<Event> {
    [Pass(t)] + [Arrive(0)] + [Guard(0)]
  }

  lemma {:induction false} OpeningRun(policy: Policy, s: Store, k: CounterKey, t: nat, m: State) returns (end: State)
    requires Agrees(m, s, k) && m.now <= t && policy.maxFlight > 0
    ensures Leads(m, policy, Opening(t), end)
    ensures end.now == t && end.counter == CounterAt(s, k, t)
    ensures end.flight == if Count(s, k, t) >= policy.limit then map[] else map[0 := Guarded]
  {
    var m1 := Apply(m, policy, Pass(t));
    var m2 := Apply(m1, policy, Arrive(0));
    end := Apply(m2, policy, Guard(0));
    LeadsOne(m, policy, Pass(t));
    LeadsNext(m, policy, [Pass(t)], m1, Arrive(0));
    LeadsNext(m, policy, [Pass(t)] + [Arrive(0)], m2, Guard(0));
  }

  /** A failure counted: INCR, and EXPIRE if the count `n` calls for it. */
  function Counting(policy: Policy, n: nat, count: nat, extend: nat): seq<Event> {
    [Pass(count)] + [FailureGuard.Incr(0)] + Closing(policy, n, extend)
  }

  function Closing(policy: Policy, n: nat, extend: nat): seq<Event> {
    if n == 1 || n >= policy.limit then [Pass(extend)] + [FailureGuard.Expire(0)] else []
  }

  /** The machine after INCR. */
  lemma {:induction false} IncrRun(policy: Policy, s: Store, k: CounterKey, count: nat, m: State) returns (end: State)
    requires m.flight == map[0 := Failed] && m.counter == CounterAt(s, k, m.now) && m.now <= count
    ensures Leads(m, policy, [Pass(count)] + [FailureGuard.Incr(0)], end)
    ensures end.now == count && end.counter == Some(RedisStore.Incr(s, k, count).counts[k])
    ensures var n := Count(s, k, count) + 1;
      end.flight == if n == 1 || n >= policy.limit then map[0 := Counted] else map[]
  {
    var m1 := Apply(m, policy, Pass(count));
    assert m1.counter == CounterAt(s, k, count);
    end := Apply(m1, policy, FailureGuard.Incr(0));
    LeadsOne(m, policy, Pass(count));
    LeadsNext(m, policy, [Pass(count)], m1, FailureGuard.Incr(0));
  }

  /** EXPIRE at `extend`, if the counter INCR left at `count` still lives then. */
  lemma {:induction false} ExpireRun(
      policy: Policy, s: Store, k: CounterKey, count: nat, extend: nat, m: State) returns (end: State)
    requires m.now == count <= extend && m.flight == map[0 := Counted]
    requires m.counter == Some(RedisStore.Incr(s, k, count).counts[k])
    ensures Leads(m, policy, [Pass(extend)] + [FailureGuard.Expire(0)], end)
    ensures Agrees(end, RedisStore.Expire(RedisStore.Incr(s, k, count), k, LOCK_TTL, extend), k) && end.now == extend
  {
    var m1 := Apply(m, policy, Pass(extend));
    assert m1.counter == CounterAt(RedisStore.Incr(s, k, count), k, extend);
    LeadsOne(m, policy, Pass(extend));
    LeadsNext(m, policy, [Pass(extend)], m1, FailureGuard.Expire(0));
    end := Apply(m1, policy, FailureGuard.Expire(0));
  }

  lemma {:induction false} ClosingRun(
      policy: Policy, s: Store, k: CounterKey, count: nat, extend: nat, m: State) returns (end: State)
    requires m.now == count <= extend && m.counter == Some(RedisStore.Incr(s, k, count).counts[k])
    requires var n := Count(s, k, count) + 1;
      m.flight == if n == 1 || n >= policy.limit then map[0 := Counted] else map[]
    ensures Leads(m, policy, Closing(policy, Count(s, k, count) + 1, extend), end)
    ensures Agrees(end, CountFailure(s, k, policy.limit, LOCK_TTL, count, extend), k)
    ensures end.now <= extend
  {
    var n := Count(s, k, count) + 1;
    if n == 1 || n >= policy.limit {
      end := ExpireRun(policy, s, k, count, extend, m);
    } else {
      end := m;
    }
  }

  lemma {:induction false} CountingRun(
      policy: Policy, s: Store, k: CounterKey, count: nat, extend: nat, m: State) returns (end: State)
    requires m.flight == map[0 := Failed] && m.counter == CounterAt(s, k, m.now) && m.now <= count <= extend
    ensures Leads(m, policy, Counting(policy, Count(s, k, count) + 1, count, extend), end)
    ensures Agrees(end, CountFailure(s, k, policy.limit, LOCK_TTL, count, extend), k)
    ensures end.now <= extend
  {
    var mid := IncrRun(policy, s, k, count, m);
    end := ClosingRun(policy, s, k, count, extend, mid);
    var closing := Closing(policy, Count(s, k, count) + 1, extend);
    LeadsOn(m, policy, [Pass(count)] + [FailureGuard.Incr(0)], mid, closing, end);
  }

  /** The counter's DEL after a success. */
  function Clearing(t: nat): seq<Event> {
    [Pass(t)] + [Clear(0)]
  }

  lemma {:induction false} ClearingRun(policy: Policy, s: Store, k: CounterKey, t: nat, m: State) returns (end: State)
    requires m.flight == map[0 := Matched] && m.now <= t
    ensures Leads(m, policy, Clearing(t), end)
    ensures Agrees(end, DelCount(s, k), k) && end.now == t
  {
    var m1 := Apply(m, policy, Pass(t));
    LeadsOne(m, policy, Pass(t));
    LeadsNext(m, policy, [Pass(t)], m1, Clear(0));
    end := Apply(m1, policy, Clear(0));
  }
}
