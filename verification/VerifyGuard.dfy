/**
 Verifications of one email that overlap: the guard's GET, the comparison with the OTP, the INCR, the EXPIRE and the
 deletions of each are separate steps.  From the issue of an OTP on, this counts the wrong codes compared against it,
 whatever requests are already under way.
 */
module VerifyGuard {
  import opened Wrappers
  import opened RedisStore
  import opened Accounts
  import opened CounterRun
  import G = FailureGuard

  function Verifies(maxFlight: nat): G.Policy {
    G.Policy(MAX_FAILURES, maxFlight)
  }

  /** `otpUntil` is the expiry of the OTP while it exists; `guesses` the wrong codes compared against it. */
  datatype State = State(guard: G.State, otpUntil: Option<nat>, guesses: nat)

  /** `DropOtp` is the deletion by a seventh failure or by a success; it may come at any time. */
  datatype Event = Step(e: G.Event) | DropOtp

  predicate OtpLive(s: State) {
    s.otpUntil.Some? && s.guard.now < s.otpUntil.value
  }

  predicate Compares(e: G.Event) {
    e.CompareWrong? || e.CompareRight?
  }

  /** A code is compared the moment the OTP is read, and only with an OTP that is there. */
  predicate Enabled(s: State, policy: G.Policy, e: Event) {
    e.Step? ==> G.Enabled(s.guard, policy, e.e) && (Compares(e.e) ==> OtpLive(s))
  }

  function Apply(s: State, policy: G.Policy, e: Event): State {
    match e
    case Step(g) => State(G.Apply(s.guard, policy, g), s.otpUntil, s.guesses + (if g.CompareWrong? then 1 else 0))
    case DropOtp => s.(otpUntil := None)
  }

  predicate Possible(s: State, policy: G.Policy, es: seq<Event>)
    decreases |es|
  {
    es == [] || (Enabled(s, policy, es[0]) && Possible(Apply(s, policy, es[0]), policy, es[1..]))
  }

  function Exec(s: State, policy: G.Policy, es: seq<Event>): State
    decreases |es|
  {
    if es == [] then s else Exec(Apply(s, policy, es[0]), policy, es[1..])
  }

  /** An OTP has just been issued: the counter is gone, while requests may be under way at any point. */
  predicate JustIssued(s: State, policy: G.Policy) {
    && s.guard.counter.None? && s.guard.wrongs == 0 && |s.guard.flight| <= policy.maxFlight
    && s.otpUntil == Some(s.guard.now + Seconds(OTP_TTL)) && s.guesses == 0
  }

  // ---------------------------------------------------------------------------------------------
  // The bound
  // ---------------------------------------------------------------------------------------------

  /** The counter outlives the OTP issued at `at`, so while the OTP lives it has counted every guess. */
  predicate Inv(s: State, policy: G.Policy, at: nat) {
    && G.Inv(s.guard, policy) && at <= s.guard.now
    && (s.guard.counter.Some? && s.guard.counter.value.expiresAt.Some? ==>
         at + Seconds(LOCK_TTL) <= s.guard.counter.value.expiresAt.value)
    && (s.otpUntil.Some? ==> s.otpUntil.value == at + Seconds(OTP_TTL))
    && (s.guard.now < at + Seconds(LOCK_TTL) ==> s.guesses == s.guard.wrongs)
    && s.guesses <= policy.limit + policy.maxFlight - 1
  }

  lemma {:induction false} StepKeepsInv(s: State, policy: G.Policy, e: Event, at: nat)
    requires Inv(s, policy, at) && Enabled(s, policy, e) && !(e.Step? && e.e.Clear?)
    ensures Inv(Apply(s, policy, e), policy, at)
  {
    if e.Step? {
      G.StepKeepsInv(s.guard, policy, e.e);
      G.InvBoundsWrongs(G.Apply(s.guard, policy, e.e), policy);
    }
  }

  lemma {:induction false} RunKeepsInv(s: State, policy: G.Policy, es: seq<Event>, at: nat)
    requires Inv(s, policy, at) && Possible(s, policy, es)
    requires forall k :: 0 <= k < |es| ==> !(es[k].Step? && es[k].e.Clear?)
    ensures Inv(Exec(s, policy, es), policy, at)
    decreases |es|
  {
    if es != [] {
      StepKeepsInv(s, policy, es[0], at);
      RunKeepsInv(Apply(s, policy, es[0]), policy, es[1..], at);
    }
  }

  /**
   With at most `maxFlight` verifications of an email under way, in any interleaving, and no resend, at most
   7 + maxFlight - 1 wrong codes are compared against one OTP before a success; one at a time gives seven.
   */
  lemma {:induction false} OverlappingGuessBound(maxFlight: nat, s: State, es: seq<Event>)
    requires maxFlight > 0 && JustIssued(s, Verifies(maxFlight)) && Possible(s, Verifies(maxFlight), es)
    requires forall k :: 0 <= k < |es| ==> !(es[k].Step? && es[k].e.Clear?)
    ensures Exec(s, Verifies(maxFlight), es).guesses <= 7 + maxFlight - 1
  {
    G.StartMeetsInv(s.guard, Verifies(maxFlight));
    RunKeepsInv(s, Verifies(maxFlight), es, s.guard.now);
  }

  // ---------------------------------------------------------------------------------------------
  // Runs of the guard as runs with the OTP
  // ---------------------------------------------------------------------------------------------

  function Steps(es: seq<G.Event>): seq<Event> {
    seq(|es|, i requires 0 <= i < |es| => Step(es[i]))
  }

  /** No success, and no time passes. */
  predicate Calm(es: seq<G.Event>) {
    forall k :: 0 <= k < |es| ==> !es[k].Clear? && !es[k].Pass?
  }

  /** While the OTP lives, whatever the guard can do at once can be done with the OTP. */
  lemma {:induction false} CalmRun(s: State, policy: G.Policy, es: seq<G.Event>)
    requires OtpLive(s) && G.Possible(s.guard, policy, es) && Calm(es)
    ensures Possible(s, policy, Steps(es))
    ensures var end := Exec(s, policy, Steps(es));
      && end.guard == G.Exec(s.guard, policy, es) && end.otpUntil == s.otpUntil
      && end.guesses - s.guesses == end.guard.wrongs - s.guard.wrongs
    decreases |es|
  {
    if es != [] {
      CalmRun(Apply(s, policy, Step(es[0])), policy, es[1..]);
      assert Steps(es)[1..] == Steps(es[1..]);
    }
  }

  lemma {:induction false} FailuresAreCalm(limit: nat, k: nat)
    ensures Calm(G.FailuresRun(limit, k))
  {
    if k > 0 {
      FailuresAreCalm(limit, k - 1);
      assert Calm(G.OneFailure(k == 1 || k == limit));
    }
  }

  lemma {:induction false} BurstIsCalm(n: nat)
    ensures Calm(G.Burst(n))
  {
    if n > 0 { BurstIsCalm(n - 1); }
  }

  /** The bound is exact: six failures in a row and a burst reach it while the OTP lives. */
  lemma {:induction false} OverlappingGuessBoundIsReached(maxFlight: nat)
    requires maxFlight > 0
    ensures var policy := Verifies(maxFlight);
      var s := State(G.IDLE, Some(Seconds(OTP_TTL)), 0);
      var es := Steps(G.WorstRun(policy));
      && JustIssued(s, policy) && Possible(s, policy, es)
      && (forall k :: 0 <= k < |es| ==> !(es[k].Step? && es[k].e.Clear?))
      && Exec(s, policy, es).guesses == 7 + maxFlight - 1
  {
    var policy := Verifies(maxFlight);
    G.WorstRunReaches(policy);
    FailuresAreCalm(policy.limit, policy.limit - 1);
    BurstIsCalm(maxFlight);
    CalmRun(State(G.IDLE, Some(Seconds(OTP_TTL)), 0), policy, G.WorstRun(policy));
  }

  // ---------------------------------------------------------------------------------------------
  // One call of the handler is a run
  // ---------------------------------------------------------------------------------------------

  predicate Leads(s: State, policy: G.Policy, es: seq<Event>, end: State) {
    Possible(s, policy, es) && Exec(s, policy, es) == end
  }

  lemma {:induction false} LeadsOne(s: State, policy: G.Policy, e: Event)
    requires Enabled(s, policy, e)
    ensures Leads(s, policy, [e], Apply(s, policy, e))
  {
    assert [e][1..] == [];
    assert Leads(Apply(s, policy, e), policy, [e][1..], Apply(s, policy, e));
  }

  lemma {:induction false} LeadsOn(s: State, policy: G.Policy, a: seq<Event>, mid: State, b: seq<Event>, end: State)
    requires Leads(s, policy, a, mid) && Leads(mid, policy, b, end)
    ensures Leads(s, policy, a + b, end)
    decreases |a|
  {
    if a == [] {
      assert a + b == b;
    } else {
      LeadsOn(Apply(s, policy, a[0]), policy, a[1..], mid, b, end);
      assert (a + b)[1..] == a[1..] + b;
    }
  }

  /** A run of the guard that compares nothing leaves OTP and guesses alone. */
  lemma {:induction false} GuardRun(s: State, policy: G.Policy, es: seq<G.Event>, end: G.State)
    requires G.Leads(s.guard, policy, es, end) && forall k :: 0 <= k < |es| ==> !Compares(es[k])
    ensures Leads(s, policy, Steps(es), s.(guard := end))
    decreases |es|
  {
    if es != [] {
      GuardRun(Apply(s, policy, Step(es[0])), policy, es[1..], end);
      assert Steps(es)[1..] == Steps(es[1..]);
    }
  }

  const ALONE: G.Policy := Verifies(1)

  /** Machine and Redis agree on the counter and the OTP of an email; every OTP has an expiry. */
  predicate AgreesOn(m: State, s: Store, email: string) {
    && Agrees(m.guard, s, VerifyFailures(email))
    && (Otp(email) in s.texts ==> s.texts[Otp(email)].expiresAt.Some?)
    && m.otpUntil == if Otp(email) in s.texts then s.texts[Otp(email)].expiresAt else None
  }

  /** What the handler does after the guard let it pass. */
  function Ending(w: World, sha: string -> string, r: Request): seq<Event>
    requires r.Verify?
  {
    var otp := Get(w.redis, Otp(r.email), r.ver.read);
    var n := Count(w.redis, VerifyFailures(r.email), r.ver.count) + 1;
    if !Truthy(otp) then [Step(G.Leave(0))]
    else if sha(r.input) != otp.value then
      Steps([G.Pass(r.ver.read)]) + [Step(G.CompareWrong(0))] + Steps(Counting(ALONE, n, r.ver.count, r.ver.extend))
      + (if n >= MAX_FAILURES then [DropOtp] else [])
    else
      Steps([G.Pass(r.ver.read)]) + [Step(G.CompareRight(0))]
      + (if DoVerify(w, sha, r).1.Verified? then Steps(Clearing(r.ver.clear)) + [DropOtp] else [Step(G.Leave(0))])
  }

  function CallEvents(w: World, sha: string -> string, r: Request): seq<Event>
    requires r.Verify?
  {
    Steps(Opening(r.ver.guard))
    + if Count(w.redis, VerifyFailures(r.email), r.ver.guard) >= MAX_FAILURES then [] else Ending(w, sha, r)
  }

  /** Past the guard at time `t`, with the counter as it was read. */
  predicate Passed(m: State, s: Store, email: string, t: nat) {
    && m.guard.now == t && m.guard.flight == map[0 := G.Guarded]
    && m.guard.counter == CounterAt(s, VerifyFailures(email), t)
    && (Otp(email) in s.texts ==> s.texts[Otp(email)].expiresAt.Some?)
    && m.otpUntil == if Otp(email) in s.texts then s.texts[Otp(email)].expiresAt else None
  }

  /** Reading the OTP and comparing the code with it. */
  lemma {:induction false} CompareRun(m: State, w: World, r: Request, right: bool) returns (end: State)
    requires r.Verify? && InOrder(r) && Passed(m, w.redis, r.email, r.ver.guard)
    requires Get(w.redis, Otp(r.email), r.ver.read).Some?
    ensures var e := if right then G.CompareRight(0) else G.CompareWrong(0);
      Leads(m, ALONE, Steps([G.Pass(r.ver.read)]) + [Step(e)], end)
    ensures end.guard.now == r.ver.read && end.guard.flight == map[0 := if right then G.Matched else G.Failed]
    ensures end.guard.counter == CounterAt(w.redis, VerifyFailures(r.email), r.ver.read)
    ensures end.otpUntil == m.otpUntil && end.guesses == m.guesses + (if right then 0 else 1)
  {
    var pass := G.Apply(m.guard, ALONE, G.Pass(r.ver.read));
    G.LeadsOne(m.guard, ALONE, G.Pass(r.ver.read));
    GuardRun(m, ALONE, [G.Pass(r.ver.read)], pass);
    var mid := m.(guard := pass);
    var e := if right then G.CompareRight(0) else G.CompareWrong(0);
    LeadsOne(mid, ALONE, Step(e));
    end := Apply(mid, ALONE, Step(e));
    LeadsOn(m, ALONE, Steps([G.Pass(r.ver.read)]), mid, [Step(e)], end);
  }

  lemma {:induction false} WrongRun(m: State, w: World, sha: string -> string, r: Request) returns (end: State)
    requires r.Verify? && InOrder(r) && Passed(m, w.redis, r.email, r.ver.guard)
    requires Count(w.redis, VerifyFailures(r.email), r.ver.guard) < MAX_FAILURES
    requires var otp := Get(w.redis, Otp(r.email), r.ver.read); Truthy(otp) && sha(r.input) != otp.value
    ensures Leads(m, ALONE, Ending(w, sha, r), end)
    ensures AgreesOn(end, DoVerify(w, sha, r).0.redis, r.email) && end.guesses == m.guesses + 1
  {
    var n := Count(w.redis, VerifyFailures(r.email), r.ver.count) + 1;
    var compared := CompareRun(m, w, r, false);
    var counting := Counting(ALONE, n, r.ver.count, r.ver.extend);
    var counted := CountingRun(ALONE, w.redis, VerifyFailures(r.email), r.ver.count, r.ver.extend, compared.guard);
    GuardRun(compared, ALONE, counting, counted);
    var before := Steps([G.Pass(r.ver.read)]) + [Step(G.CompareWrong(0))];
    end := compared.(guard := counted);
    LeadsOn(m, ALONE, before, compared, Steps(counting), end);
    if n >= MAX_FAILURES {
      LeadsOne(end, ALONE, DropOtp);
      LeadsOn(m, ALONE, before + Steps(counting), end, [DropOtp], Apply(end, ALONE, DropOtp));
      end := Apply(end, ALONE, DropOtp);
    } else {
      assert before + Steps(counting) + [] == before + Steps(counting);
    }
  }

  lemma {:induction false} RightRun(m: State, w: World, sha: string -> string, r: Request) returns (end: State)
    requires r.Verify? && InOrder(r) && Passed(m, w.redis, r.email, r.ver.guard)
    requires Count(w.redis, VerifyFailures(r.email), r.ver.guard) < MAX_FAILURES
    requires var otp := Get(w.redis, Otp(r.email), r.ver.read); Truthy(otp) && sha(r.input) == otp.value
    ensures Leads(m, ALONE, Ending(w, sha, r), end)
    ensures AgreesOn(end, DoVerify(w, sha, r).0.redis, r.email) && end.guesses == m.guesses
  {
    var compared := CompareRun(m, w, r, true);
    var before := Steps([G.Pass(r.ver.read)]) + [Step(G.CompareRight(0))];
    if DoVerify(w, sha, r).1.Verified? {
      var cleared := ClearingRun(ALONE, w.redis, VerifyFailures(r.email), r.ver.clear, compared.guard);
      GuardRun(compared, ALONE, Clearing(r.ver.clear), cleared);
      var mid := compared.(guard := cleared);
      LeadsOne(mid, ALONE, DropOtp);
      end := Apply(mid, ALONE, DropOtp);
      LeadsOn(compared, ALONE, Steps(Clearing(r.ver.clear)), mid, [DropOtp], end);
      LeadsOn(m, ALONE, before, compared, Steps(Clearing(r.ver.clear)) + [DropOtp], end);
    } else {
      LeadsOne(compared, ALONE, Step(G.Leave(0)));
      end := Apply(compared, ALONE, Step(G.Leave(0)));
      LeadsOn(m, ALONE, before, compared, [Step(G.Leave(0))], end);
    }
  }

  lemma {:induction false} EndingRun(m: State, w: World, sha: string -> string, r: Request) returns (end: State)
    requires r.Verify? && InOrder(r) && Passed(m, w.redis, r.email, r.ver.guard)
    requires Count(w.redis, VerifyFailures(r.email), r.ver.guard) < MAX_FAILURES
    ensures Leads(m, ALONE, Ending(w, sha, r), end)
    ensures AgreesOn(end, DoVerify(w, sha, r).0.redis, r.email)
    ensures end.guesses - m.guesses == |DoVerify(w, sha, r).0.history| - |w.history|
  {
    var otp := Get(w.redis, Otp(r.email), r.ver.read);
    if !Truthy(otp) {
      LeadsOne(m, ALONE, Step(G.Leave(0)));
      end := Apply(m, ALONE, Step(G.Leave(0)));
    } else if sha(r.input) != otp.value {
      end := WrongRun(m, w, sha, r);
    } else {
      end := RightRun(m, w, sha, r);
    }
  }

  /**
   A call of the handler moves counter and OTP as a run of the overlapping machine by one verification, and adds a
   guess exactly when it compares a wrong code, so the bound covers any mix of such calls.
   */
  lemma {:induction false} VerifyIsARun(m: State, w: World, sha: string -> string, r: Request)
    requires r.Verify? && InOrder(r) && AgreesOn(m, w.redis, r.email) && m.guard.now <= r.ver.guard
    ensures var es := CallEvents(w, sha, r);
      var end := Exec(m, ALONE, es);
      && Possible(m, ALONE, es)
      && AgreesOn(end, DoVerify(w, sha, r).0.redis, r.email)
      && end.guesses - m.guesses == |DoVerify(w, sha, r).0.history| - |w.history|
  {
    var opening := Opening(r.ver.guard);
    var guard := OpeningRun(ALONE, w.redis, VerifyFailures(r.email), r.ver.guard, m.guard);
    GuardRun(m, ALONE, opening, guard);
    var mid := m.(guard := guard);
    if Count(w.redis, VerifyFailures(r.email), r.ver.guard) >= MAX_FAILURES {
      assert Steps(opening) + [] == Steps(opening);
    } else {
      var end := EndingRun(mid, w, sha, r);
      LeadsOn(m, ALONE, Steps(opening), mid, Ending(w, sha, r), end);
    }
  }
}
