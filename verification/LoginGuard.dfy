/**
 The login failure counter of one identifier under concurrent logins: how many wrong passwords it lets be compared,
 and when the freeze it imposes holds.
 */
module LoginGuard {
  import opened RedisStore
  import opened FailureGuard

  const MAX_FAILURES: nat := 5

  function Logins(maxFlight: nat): Policy {
    Policy(MAX_FAILURES, maxFlight)
  }

  /**
   With at most `maxFlight` logins in flight, in any interleaving, no more than 5 + maxFlight - 1 wrong
   passwords are compared in one lifetime of the counter; one login at a time gives the documented five.
   */
  lemma {:induction false} WrongPasswordBound(maxFlight: nat, es: seq<Event>)
    requires maxFlight > 0 && Possible(IDLE, Logins(maxFlight), es)
    ensures Exec(IDLE, Logins(maxFlight), es).wrongs <= 5 + maxFlight - 1
  {
    StartMeetsInv(IDLE, Logins(maxFlight));
    RunKeepsInv(IDLE, Logins(maxFlight), es);
    InvBoundsWrongs(Exec(IDLE, Logins(maxFlight), es), Logins(maxFlight));
  }

  /** The bound is exact: four failures in a row and a burst of `maxFlight` logins reach it. */
  lemma {:induction false} WrongPasswordBoundIsReached(maxFlight: nat)
    requires maxFlight > 0
    ensures var es := WorstRun(Logins(maxFlight));
      && Possible(IDLE, Logins(maxFlight), es)
      && Exec(IDLE, Logins(maxFlight), es).wrongs == 5 + maxFlight - 1
  {
    WorstRunReaches(Logins(maxFlight));
  }

  // ---------------------------------------------------------------------------------------------
  // The freeze
  // ---------------------------------------------------------------------------------------------

  /** Logins are frozen until `y`, which the latest EXPIRE set, at least. */
  predicate Frozen(s: State, y: nat) {
    && Failures(s) >= MAX_FAILURES
    && s.counter.value.expiresAt.Some? && y <= s.counter.value.expiresAt.value
    && s.now < y <= s.now + Seconds(LOCK_TTL)
  }

  /** A login past the guard can still compare the right password, or has. */
  predicate PastGuard(s: State) {
    exists id :: id in s.flight && (s.flight[id].Guarded? || s.flight[id].Matched?)
  }

  predicate Before(es: seq<Event>, y: nat) {
    forall k :: 0 <= k < |es| && es[k].Pass? ==> es[k].until < y
  }

  /** The freeze holds at every point of the run. */
  predicate FrozenThroughout(s: State, maxFlight: nat, es: seq<Event>, y: nat)
    decreases |es|
  {
    Frozen(s, y) &&
    (es == [] || FrozenThroughout(Apply(s, Logins(maxFlight), es[0]), maxFlight, es[1..], y))
  }

  lemma {:induction false} FreezeStep(s: State, maxFlight: nat, e: Event, y: nat)
    requires Frozen(s, y) && Enabled(s, Logins(maxFlight), e) && (e.Pass? ==> e.until < y)
    ensures Frozen(Apply(s, Logins(maxFlight), e), y) <==> !e.Clear?
    ensures !PastGuard(s) ==> !e.Clear? && !PastGuard(Apply(s, Logins(maxFlight), e))
  {
  }

  /**
   Until it expires the freeze holds throughout a run exactly when no login of the run clears the counter; more
   failures only prolong it.
   */
  lemma {:induction false} FreezeHoldsUnlessCleared(s: State, maxFlight: nat, es: seq<Event>, y: nat)
    requires Frozen(s, y) && Possible(s, Logins(maxFlight), es) && Before(es, y)
    ensures FrozenThroughout(s, maxFlight, es, y) <==> forall k :: 0 <= k < |es| ==> !es[k].Clear?
    decreases |es|
  {
    if es != [] {
      FreezeStep(s, maxFlight, es[0], y);
      assert forall k :: 0 < k < |es| ==> es[k] == es[1..][k - 1];
      if !es[0].Clear? {
        FreezeHoldsUnlessCleared(Apply(s, Logins(maxFlight), es[0]), maxFlight, es[1..], y);
      }
    }
  }

  lemma {:induction false} FreezeHolds(s: State, maxFlight: nat, es: seq<Event>, y: nat)
    requires Frozen(s, y) && !PastGuard(s) && Possible(s, Logins(maxFlight), es) && Before(es, y)
    ensures FrozenThroughout(s, maxFlight, es, y)
    decreases |es|
  {
    if es != [] {
      FreezeStep(s, maxFlight, es[0], y);
      FreezeHolds(Apply(s, Logins(maxFlight), es[0]), maxFlight, es[1..], y);
    }
  }

  /** A login past the guard lifts the freeze by entering the right password. */
  function Lift(s: State, id: nat): seq<Event>
    requires id in s.flight
  {
    (if s.flight[id].Guarded? then [CompareRight(id)] else []) + [Clear(id)]
  }

  lemma {:induction false} FreezeBreaks(s: State, maxFlight: nat, id: nat)
    requires id in s.flight && (s.flight[id].Guarded? || s.flight[id].Matched?)
    ensures Possible(s, Logins(maxFlight), Lift(s, id))
    ensures Exec(s, Logins(maxFlight), Lift(s, id)).counter.None?
  {
    if s.flight[id].Guarded? {
      var matched := Apply(s, Logins(maxFlight), CompareRight(id));
      LeadsOne(s, Logins(maxFlight), CompareRight(id));
      LeadsNext(s, Logins(maxFlight), [CompareRight(id)], matched, Clear(id));
    } else {
      LeadsOne(s, Logins(maxFlight), Clear(id));
      assert [] + [Clear(id)] == [Clear(id)];
    }
  }

  /** Every run until `y` keeps the freeze. */
  ghost predicate Unbreakable(s: State, maxFlight: nat, y: nat) {
    forall es :: Possible(s, Logins(maxFlight), es) && Before(es, y) ==>
      Frozen(Exec(s, Logins(maxFlight), es), y)
  }

  /** The documented freeze is certain exactly when no login is past the guard at the moment it sets in. */
  lemma {:induction false} FreezeIsCertainExactly(s: State, maxFlight: nat, y: nat)
    requires Frozen(s, y)
    ensures Unbreakable(s, maxFlight, y) <==> !PastGuard(s)
  {
    if PastGuard(s) {
      var id :| id in s.flight && (s.flight[id].Guarded? || s.flight[id].Matched?);
      FreezeBreaks(s, maxFlight, id);
      assert Before(Lift(s, id), y);
    } else {
      forall es | Possible(s, Logins(maxFlight), es) && Before(es, y)
        ensures Frozen(Exec(s, Logins(maxFlight), es), y)
      {
        FreezeHolds(s, maxFlight, es, y);
        EndsFrozen(s, maxFlight, es, y);
      }
    }
  }

  lemma {:induction false} EndsFrozen(s: State, maxFlight: nat, es: seq<Event>, y: nat)
    requires FrozenThroughout(s, maxFlight, es, y)
    ensures Frozen(Exec(s, Logins(maxFlight), es), y)
    decreases |es|
  {
    if es != [] { EndsFrozen(Apply(s, Logins(maxFlight), es[0]), maxFlight, es[1..], y); }
  }

  /** Login 1 passes the guard, five wrong logins freeze the identifier, and login 1 enters the right password. */
  function ThawingRun(): seq<Event> {
    [Arrive(1)] + [Guard(1)] + FailuresRun(MAX_FAILURES, MAX_FAILURES) + [CompareRight(1)] + [Clear(1)]
  }

  /** As the code stands two logins suffice to lift a freeze that has just set in. */
  lemma {:induction false} FreezeCanBeLifted(maxFlight: nat)
    requires maxFlight >= 2
    ensures var frozen := AfterFailures(MAX_FAILURES, map[1 := Guarded]);
      && Frozen(frozen, Seconds(LOCK_TTL))
      && Leads(IDLE, Logins(maxFlight), [Arrive(1)] + [Guard(1)] + FailuresRun(MAX_FAILURES, MAX_FAILURES), frozen)
      && Possible(IDLE, Logins(maxFlight), ThawingRun())
      && Exec(IDLE, Logins(maxFlight), ThawingRun()).counter.None?
  {
    var policy := Logins(maxFlight);
    var guarded := map[1 := Guarded];
    var arrived := Apply(IDLE, policy, Arrive(1));
    LeadsOne(IDLE, policy, Arrive(1));
    LeadsNext(IDLE, policy, [Arrive(1)], arrived, Guard(1));
    assert Apply(arrived, policy, Guard(1)) == AfterFailures(0, guarded);
    FailuresRunReaches(policy, MAX_FAILURES, guarded);
    var opening := [Arrive(1)] + [Guard(1)];
    var frozen := AfterFailures(MAX_FAILURES, guarded);
    LeadsOn(IDLE, policy, opening, AfterFailures(0, guarded), FailuresRun(MAX_FAILURES, MAX_FAILURES), frozen);
    var es := opening + FailuresRun(MAX_FAILURES, MAX_FAILURES);
    LeadsNext(IDLE, policy, es, frozen, CompareRight(1));
    var matched := Apply(frozen, policy, CompareRight(1));
    LeadsNext(IDLE, policy, es + [CompareRight(1)], matched, Clear(1));
  }
}
