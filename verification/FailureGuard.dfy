/**
 A failure counter under concurrent attempts, as login and verification use it: the guard's GET, the comparison,
 the INCR and the EXPIRE of each attempt are separate steps and interleave in any order.
 */
module FailureGuard {
  import opened Wrappers
  import opened RedisStore
  import opened Sets

  const LOCK_TTL: nat := 900

  /** The failures that close the guard, and how many attempts may be under way at once. */
  datatype Policy = Policy(limit: nat, maxFlight: nat)

  /** How far an attempt has come. */
  datatype Phase =
    | Arrived             // before the guard's GET
    | Guarded             // read fewer failures than the limit
    | Failed              // compared wrong, not yet counted
    | Counted             // INCR done, EXPIRE still to come
    | Matched             // compared right, DEL still to come

  /**
   `counter` is the key while it lives; `wrongs` counts the wrong comparisons since the previous lifetime of the
   counter ended, by expiry or by a success.
   */
  datatype State = State(now: nat, counter: Option<Entry<nat>>, flight: map<nat, Phase>, wrongs: nat)

  datatype Event =
    | Arrive(id: nat)
    | Guard(id: nat)
    | Leave(id: nat)
    | CompareWrong(id: nat)
    | CompareRight(id: nat)
    | Incr(id: nat)
    | Expire(id: nat)
    | Clear(id: nat)
    | Pass(until: nat)

  const IDLE: State := State(0, None, map[], 0)

  function Failures(s: State): nat {
    if s.counter.Some? then s.counter.value.value else 0
  }

  /** Time moves on; a counter past its expiry is gone and its lifetime over. */
  function Advance(s: State, t: nat): State {
    if s.counter.Some? && !Live(s.counter.value, t) then s.(now := t, counter := None, wrongs := 0)
    else s.(now := t)
  }

  predicate In(s: State, id: nat, p: Phase) {
    id in s.flight && s.flight[id] == p
  }

  /** An attempt gives up before the guard, after it, or when what follows a right comparison fails. */
  predicate Enabled(s: State, policy: Policy, e: Event) {
    match e
    case Arrive(id) => id !in s.flight && |s.flight| < policy.maxFlight
    case Guard(id) => In(s, id, Arrived)
    case Leave(id) => In(s, id, Arrived) || In(s, id, Guarded) || In(s, id, Matched)
    case CompareWrong(id) => In(s, id, Guarded)
    case CompareRight(id) => In(s, id, Guarded)
    case Incr(id) => In(s, id, Failed)
    case Expire(id) => In(s, id, Counted)
    case Clear(id) => In(s, id, Matched)
    case Pass(t) => s.now <= t
  }

  function Apply(s: State, policy: Policy, e: Event): State {
    match e
    case Arrive(id) => s.(flight := s.flight[id := Arrived])
    case Guard(id) =>
      if Failures(s) >= policy.limit then s.(flight := s.flight - {id})
      else s.(flight := s.flight[id := Guarded])
    case Leave(id) => s.(flight := s.flight - {id})
    case CompareWrong(id) => s.(flight := s.flight[id := Failed], wrongs := s.wrongs + 1)
    case CompareRight(id) => s.(flight := s.flight[id := Matched])
    case Incr(id) =>
      var n := Failures(s) + 1;
      var expiry := if s.counter.Some? then s.counter.value.expiresAt else None;
      s.(counter := Some(Entry(n, expiry)),
         flight := if n == 1 || n >= policy.limit then s.flight[id := Counted] else s.flight - {id})
    case Expire(id) =>
      var done := s.(flight := s.flight - {id});
      if s.counter.Some? then
        done.(counter := Some(Entry(s.counter.value.value, Some(s.now + Seconds(LOCK_TTL)))))
      else done
    case Clear(id) => State(s.now, None, s.flight - {id}, 0)
    case Pass(t) => Advance(s, t)
  }

  predicate Possible(s: State, policy: Policy, es: seq<Event>)
    decreases |es|
  {
    es == [] || (Enabled(s, policy, es[0]) && Possible(Apply(s, policy, es[0]), policy, es[1..]))
  }

  function Exec(s: State, policy: Policy, es: seq<Event>): State
    decreases |es|
  {
    if es == [] then s else Exec(Apply(s, policy, es[0]), policy, es[1..])
  }

  /** The run `es` is possible from `s` and ends in `end`. */
  predicate Leads(s: State, policy: Policy, es: seq<Event>, end: State) {
    Possible(s, policy, es) && Exec(s, policy, es) == end
  }

  lemma {:induction false} LeadsOne(s: State, policy: Policy, e: Event)
    requires Enabled(s, policy, e)
    ensures Leads(s, policy, [e], Apply(s, policy, e))
  {
    assert [e][1..] == [];
    assert Leads(Apply(s, policy, e), policy, [e][1..], Apply(s, policy, e));
  }

  lemma {:induction false} LeadsOn(s: State, policy: Policy, a: seq<Event>, mid: State, b: seq<Event>, end: State)
    requires Leads(s, policy, a, mid) && Leads(mid, policy, b, end)
    ensures Leads(s, policy, a + b, end)
    decreases |a|
  {
    if a == [] {
      assert a + b == b;
    } else {
      LeadsOn(Apply(s, policy, a[0]), policy, a[1..], mid, b, end);
      assert (a + b)[1..] == a[1..] + b;
    }
  }

  /** A run goes on by one event. */
  lemma {:induction false} LeadsNext(s: State, policy: Policy, es: seq<Event>, mid: State, e: Event)
    requires Leads(s, policy, es, mid) && Enabled(mid, policy, e)
    ensures Leads(s, policy, es + [e], Apply(mid, policy, e))
  {
    LeadsOne(mid, policy, e);
    LeadsOn(s, policy, es, mid, [e], Apply(mid, policy, e));
  }

  // ---------------------------------------------------------------------------------------------
  // The bound
  // ---------------------------------------------------------------------------------------------

  /** Attempts whose wrong comparison is not counted yet. */
  function Uncounted(s: State): set<nat> {
    set id | id in s.flight && s.flight[id].Failed?
  }

  /** Attempts past the guard that may still reach INCR. */
  function Committed(s: State): set<nat> {
    set id | id in s.flight && (s.flight[id].Guarded? || s.flight[id].Failed?)
  }

  predicate Inv(s: State, policy: Policy) {
    && |s.flight| <= policy.maxFlight
    && s.wrongs <= Failures(s) + |Uncounted(s)|
    && Failures(s) + |Committed(s)| <= policy.limit + policy.maxFlight - 1
  }

  /** Group `a` after element `x` joined or left it. */
  function Regrouped(a: set<nat>, x: nat, joins: bool): set<nat> {
    if joins then a - {x} + {x} else a - {x}
  }

  lemma {:induction false} GroupSize(a: set<nat>, x: nat, joins: bool)
    ensures |Regrouped(a, x, joins)| == |a| - (if x in a then 1 else 0) + (if joins then 1 else 0)
  {
  }

  /** Dropping attempt `id` from flight drops it from each group it was in. */
  lemma {:induction false} Landing(s: State, s': State, id: nat)
    requires id in s.flight && s'.flight == s.flight - {id}
    ensures |s'.flight| == |s.flight| - 1
    ensures |Committed(s')| == |Committed(s)| - (if id in Committed(s) then 1 else 0)
    ensures |Uncounted(s')| == |Uncounted(s)| - (if id in Uncounted(s) then 1 else 0)
  {
    assert s'.flight.Keys == Regrouped(s.flight.Keys, id, false);
    assert Committed(s') == Regrouped(Committed(s), id, false);
    assert Uncounted(s') == Regrouped(Uncounted(s), id, false);
    GroupSize(s.flight.Keys, id, false);
    GroupSize(Committed(s), id, false);
    GroupSize(Uncounted(s), id, false);
  }

  /** Moving attempt `id` to phase `p` moves it between the groups. */
  lemma {:induction false} Moving(s: State, s': State, id: nat, p: Phase)
    requires s'.flight == s.flight[id := p]
    ensures |s'.flight| == |s.flight| + (if id in s.flight then 0 else 1)
    ensures |Committed(s')| == |Committed(s)| - (if id in Committed(s) then 1 else 0)
                                             + (if p.Guarded? || p.Failed? then 1 else 0)
    ensures |Uncounted(s')| == |Uncounted(s)| - (if id in Uncounted(s) then 1 else 0) + (if p.Failed? then 1 else 0)
  {
    MovingGroups(s, s', id, p);
    GroupSize(s.flight.Keys, id, true);
    GroupSize(Committed(s), id, p.Guarded? || p.Failed?);
    GroupSize(Uncounted(s), id, p.Failed?);
  }

  lemma {:induction false} MovingGroups(s: State, s': State, id: nat, p: Phase)
    requires s'.flight == s.flight[id := p]
    ensures s'.flight.Keys == Regrouped(s.flight.Keys, id, true)
    ensures Committed(s') == Regrouped(Committed(s), id, p.Guarded? || p.Failed?)
    ensures Uncounted(s') == Regrouped(Uncounted(s), id, p.Failed?)
  {
  }

  lemma {:induction false} GroupsFit(s: State)
    ensures |Uncounted(s)| <= |Committed(s)| <= |s.flight|
  {
    assert Committed(s) <= s.flight.Keys;
    SubsetSize(Uncounted(s), Committed(s));
    SubsetSize(Committed(s), s.flight.Keys);
  }

  /** INCR moves one wrong comparison from the uncounted to the counter. */
  lemma {:induction false} IncrKeepsInv(s: State, policy: Policy, id: nat)
    requires Inv(s, policy) && In(s, id, Failed)
    ensures Inv(Apply(s, policy, Incr(id)), policy)
  {
    var s' := Apply(s, policy, Incr(id));
    assert id in Uncounted(s) && id in Committed(s);
    if s'.flight == s.flight[id := Counted] {
      Moving(s, s', id, Counted);
    } else {
      Landing(s, s', id);
    }
  }

  /** The events that move an attempt already in flight, or a new one, to another phase. */
  lemma {:induction false} MoveKeepsInv(s: State, policy: Policy, e: Event)
    requires Inv(s, policy) && Enabled(s, policy, e)
    requires e.Arrive? || e.CompareWrong? || e.CompareRight? || (e.Guard? && Failures(s) < policy.limit)
    ensures Inv(Apply(s, policy, e), policy)
  {
    var s' := Apply(s, policy, e);
    Moving(s, s', e.id, if e.Arrive? then Arrived else if e.Guard? then Guarded
                        else if e.CompareWrong? then Failed else Matched);
    GroupsFit(s');
  }

  /** The events after which an attempt is over. */
  lemma {:induction false} EndKeepsInv(s: State, policy: Policy, e: Event)
    requires Inv(s, policy) && Enabled(s, policy, e)
    requires e.Leave? || e.Expire? || e.Clear? || (e.Guard? && Failures(s) >= policy.limit)
    ensures Inv(Apply(s, policy, e), policy)
  {
    var s' := Apply(s, policy, e);
    Landing(s, s', e.id);
    GroupsFit(s');
  }

  lemma {:induction false} PassKeepsInv(s: State, policy: Policy, t: nat)
    requires Inv(s, policy)
    ensures Inv(Advance(s, t), policy)
  {
    var s' := Advance(s, t);
    assert Committed(s') == Committed(s) && Uncounted(s') == Uncounted(s);
  }

  lemma {:induction false} StepKeepsInv(s: State, policy: Policy, e: Event)
    requires Inv(s, policy) && Enabled(s, policy, e)
    ensures Inv(Apply(s, policy, e), policy)
  {
    match e {
      case Incr(id) => IncrKeepsInv(s, policy, id);
      case Pass(t) => PassKeepsInv(s, policy, t);
      case Guard(id) =>
        if Failures(s) >= policy.limit { EndKeepsInv(s, policy, e); } else { MoveKeepsInv(s, policy, e); }
      case Arrive(_) => MoveKeepsInv(s, policy, e);
      case CompareWrong(_) => MoveKeepsInv(s, policy, e);
      case CompareRight(_) => MoveKeepsInv(s, policy, e);
      case _ => EndKeepsInv(s, policy, e);
    }
  }

  lemma {:induction false} RunKeepsInv(s: State, policy: Policy, es: seq<Event>)
    requires Inv(s, policy) && Possible(s, policy, es)
    ensures Inv(Exec(s, policy, es), policy)
    decreases |es|
  {
    if es != [] {
      StepKeepsInv(s, policy, es[0]);
      RunKeepsInv(Apply(s, policy, es[0]), policy, es[1..]);
    }
  }

  /** Whatever attempts are under way: a counter that has counted nothing yet meets the invariant. */
  lemma {:induction false} StartMeetsInv(s: State, policy: Policy)
    requires s.counter.None? && s.wrongs == 0 && |s.flight| <= policy.maxFlight && policy.limit > 0
    ensures Inv(s, policy)
  {
    GroupsFit(s);
  }

  lemma {:induction false} InvBoundsWrongs(s: State, policy: Policy)
    requires Inv(s, policy)
    ensures s.wrongs <= policy.limit + policy.maxFlight - 1
  {
    GroupsFit(s);
  }

  // ---------------------------------------------------------------------------------------------
  // The bound is reached
  // ---------------------------------------------------------------------------------------------

  /** One failed attempt from arrival to INCR, and to EXPIRE when it is the first or reaches the limit. */
  function OneFailure(expires: bool): seq<Event> {
    [Arrive(0)] + [Guard(0)] + [CompareWrong(0)] + [Incr(0)] + (if expires then [Expire(0)] else [])
  }

  /** The state after `k` failures, one after the other, at time 0, while `others` are under way. */
  function AfterFailures(k: nat, others: map<nat, Phase>): State {
    State(0, if k == 0 then None else Some(Entry(k, Some(Seconds(LOCK_TTL)))), others, k)
  }

  /** The same with attempt 0 past its wrong comparison. */
  lemma {:induction false} OneComparisonRun(policy: Policy, k: nat, others: map<nat, Phase>)
    requires |others| < policy.maxFlight && 0 !in others && k < policy.limit
    ensures Leads(AfterFailures(k, others), policy, [Arrive(0)] + [Guard(0)] + [CompareWrong(0)],
                  AfterFailures(k, others).(flight := others[0 := Failed], wrongs := k + 1))
  {
    var s0 := AfterFailures(k, others);
    var s1 := Apply(s0, policy, Arrive(0));
    var s2 := Apply(s1, policy, Guard(0));
    LeadsOne(s0, policy, Arrive(0));
    LeadsNext(s0, policy, [Arrive(0)], s1, Guard(0));
    LeadsNext(s0, policy, [Arrive(0)] + [Guard(0)], s2, CompareWrong(0));
    assert Apply(s2, policy, CompareWrong(0)).flight == others[0 := Failed];
  }

  lemma {:induction false} OneFailureRun(policy: Policy, k: nat, others: map<nat, Phase>)
    requires |others| < policy.maxFlight && 0 !in others && k < policy.limit
    ensures Leads(AfterFailures(k, others), policy, OneFailure(k == 0 || k + 1 == policy.limit),
                  AfterFailures(k + 1, others))
  {
    var s0 := AfterFailures(k, others);
    var s3 := s0.(flight := others[0 := Failed], wrongs := k + 1);
    var s4 := Apply(s3, policy, Incr(0));
    var es := [Arrive(0)] + [Guard(0)] + [CompareWrong(0)];
    OneComparisonRun(policy, k, others);
    LeadsNext(s0, policy, es, s3, Incr(0));
    if k == 0 || k + 1 == policy.limit {
      LeadsNext(s0, policy, es + [Incr(0)], s4, Expire(0));
      assert Apply(s4, policy, Expire(0)).flight == others;
    } else {
      assert s4.flight == others;
      assert es + [Incr(0)] + [] == es + [Incr(0)];
    }
  }

  function FailuresRun(limit: nat, k: nat): seq<Event> {
    if k == 0 then [] else FailuresRun(limit, k - 1) + OneFailure(k == 1 || k == limit)
  }

  lemma {:induction false} FailuresRunReaches(policy: Policy, k: nat, others: map<nat, Phase>)
    requires |others| < policy.maxFlight && 0 !in others && k <= policy.limit
    ensures Leads(AfterFailures(0, others), policy, FailuresRun(policy.limit, k), AfterFailures(k, others))
  {
    if k > 0 {
      FailuresRunReaches(policy, k - 1, others);
      OneFailureRun(policy, k - 1, others);
      LeadsOn(AfterFailures(0, others), policy, FailuresRun(policy.limit, k - 1), AfterFailures(k - 1, others),
              OneFailure(k == 1 || k == policy.limit), AfterFailures(k, others));
    }
  }

  /** `n` attempts that all pass the guard and compare before any of them counts. */
  function Burst(n: nat): seq<Event> {
    if n == 0 then [] else Burst(n - 1) + [Arrive(n - 1)] + [Guard(n - 1)] + [CompareWrong(n - 1)]
  }

  function BurstFlight(n: nat): map<nat, Phase> {
    if n == 0 then map[] else BurstFlight(n - 1)[n - 1 := Failed]
  }

  function InBurst(limit: nat, n: nat): State
    requires limit > 0
  {
    AfterFailures(limit - 1, BurstFlight(n)).(wrongs := limit - 1 + n)
  }

  lemma {:induction false} BurstFlightSize(n: nat, id: nat)
    ensures |BurstFlight(n)| == n
    ensures id in BurstFlight(n) <==> id < n
  {
    if n > 0 {
      BurstFlightSize(n - 1, id);
      BurstFlightSize(n - 1, n - 1);
    }
  }

  lemma {:induction false} BurstGrows(s: State, policy: Policy, es: seq<Event>, n: nat)
    requires policy.limit > 0 && n < policy.maxFlight && Leads(s, policy, es, InBurst(policy.limit, n))
    ensures Leads(s, policy, es + [Arrive(n)] + [Guard(n)] + [CompareWrong(n)], InBurst(policy.limit, n + 1))
  {
    BurstFlightSize(n, n);
    var s0 := InBurst(policy.limit, n);
    var s1 := Apply(s0, policy, Arrive(n));
    var s2 := Apply(s1, policy, Guard(n));
    LeadsNext(s, policy, es, s0, Arrive(n));
    LeadsNext(s, policy, es + [Arrive(n)], s1, Guard(n));
    LeadsNext(s, policy, es + [Arrive(n)] + [Guard(n)], s2, CompareWrong(n));
    assert Apply(s2, policy, CompareWrong(n)).flight == BurstFlight(n + 1);
  }

  lemma {:induction false} BurstReaches(policy: Policy, n: nat)
    requires policy.limit > 0 && n <= policy.maxFlight
    ensures Leads(InBurst(policy.limit, 0), policy, Burst(n), InBurst(policy.limit, n))
  {
    if n > 0 {
      BurstReaches(policy, n - 1);
      BurstGrows(InBurst(policy.limit, 0), policy, Burst(n - 1), n - 1);
    }
  }

  /** All failures but one, one after the other, and then a burst. */
  function WorstRun(policy: Policy): seq<Event>
    requires policy.limit > 0
  {
    FailuresRun(policy.limit, policy.limit - 1) + Burst(policy.maxFlight)
  }

  lemma {:induction false} WorstRunReaches(policy: Policy)
    requires policy.limit > 0 && policy.maxFlight > 0
    ensures Leads(IDLE, policy, WorstRun(policy), InBurst(policy.limit, policy.maxFlight))
  {
    FailuresRunReaches(policy, policy.limit - 1, map[]);
    BurstReaches(policy, policy.maxFlight);
    LeadsOn(IDLE, policy, FailuresRun(policy.limit, policy.limit - 1), AfterFailures(policy.limit - 1, map[]),
            Burst(policy.maxFlight), InBurst(policy.limit, policy.maxFlight));
  }
}
