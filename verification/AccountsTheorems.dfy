/**
 The theorems about serialised account runs: at most seven guesses per OTP, at most 7 * (T / 60 s + 2)
 guesses in any interval, the fifteen-minute lock, atomic registration, and the agreement of OTP and mail.
 */
module AccountsTheorems {
  import opened Wrappers
  import opened RedisStore
  import opened Accounts
  import opened AccountsSafety

  // ---------------------------------------------------------------------------------------------
  // Guesses against one OTP
  // ---------------------------------------------------------------------------------------------

  /** The position of the latest issue for `email`. */
  function LastIssueIndex(h: seq<Mark>, email: string): Option<nat> {
    if h == [] then None
    else if IssueFor(h[|h| - 1], email) then Some(|h| - 1)
    else LastIssueIndex(h[..|h| - 1], email)
  }

  /** The wrong codes compared while the OTP of issue `j` was the latest. */
  function GuessesAgainst(h: seq<Mark>, email: string, j: nat): nat {
    if h == [] then 0
    else
      var n := |h| - 1;
      GuessesAgainst(h[..n], email, j)
      + (if GuessFor(h[n], email) && LastIssueIndex(h[..n], email) == Some(j) then 1 else 0)
  }

  lemma {:induction false} NoGuessBeforeIssue(h: seq<Mark>, email: string, j: nat)
    requires |h| <= j
    ensures GuessesAgainst(h, email, j) == 0
    ensures LastIssueIndex(h, email) != Some(j)
  {
    if h != [] {
      NoGuessBeforeIssue(h[..|h| - 1], email, j);
    }
  }

  lemma {:induction false} GuessesAreWrongs(h: seq<Mark>, email: string, j: nat)
    requires Paced(h, email)
    ensures GuessesAgainst(h, email, j) <= MAX_FAILURES
    ensures LastIssueIndex(h, email) == Some(j) ==> GuessesAgainst(h, email, j) == Wrongs(h, email)
  {
    if h != [] {
      var n := |h| - 1;
      GuessesAreWrongs(h[..n], email, j);
      NoGuessBeforeIssue(h[..n], email, n);
    }
  }

  lemma {:induction false} RunIsPaced(sha: string -> string, rs: seq<Request>, email: string)
    requires Serialised(rs)
    ensures Paced(Run(sha, rs).history, email)
  {
    RunIsGood(sha, rs, email);
  }

  /** At most seven wrong codes are ever compared against any one issued OTP. */
  lemma {:induction false} OtpGuessBound(sha: string -> string, rs: seq<Request>, email: string, j: nat)
    requires Serialised(rs)
    ensures GuessesAgainst(Run(sha, rs).history, email, j) <= 7
  {
    RunIsPaced(sha, rs, email);
    GuessesAreWrongs(Run(sha, rs).history, email, j);
  }

  // ---------------------------------------------------------------------------------------------
  // Guesses in an interval
  // ---------------------------------------------------------------------------------------------

  function GuessesIn(h: seq<Mark>, email: string, a: nat, span: nat): nat {
    if h == [] then 0
    else
      var m := h[|h| - 1];
      GuessesIn(h[..|h| - 1], email, a, span) + (if GuessFor(m, email) && Within(m.at, a, span) then 1 else 0)
  }

  function IssuesIn(h: seq<Mark>, email: string, a: nat, span: nat): nat {
    if h == [] then 0
    else
      var m := h[|h| - 1];
      IssuesIn(h[..|h| - 1], email, a, span) + (if IssueFor(m, email) && Within(m.at, a, span) then 1 else 0)
  }

  /** Issues lie at least the cooldown apart, so few fit into an interval. */
  lemma {:induction false} IssuesAreSpaced(h: seq<Mark>, email: string, a: nat, span: nat)
    requires Paced(h, email)
    ensures var n := IssuesIn(h, email, a, span);
      n > 0 ==>
        && LastIssue(h, email).Some?
        && Seconds(COOLDOWN_TTL) * (n - 1) < span
        && Seconds(COOLDOWN_TTL) * (n - 1) + a <= LastIssue(h, email).value.at
  {
    if h != [] {
      IssuesAreSpaced(h[..|h| - 1], email, a, span);
    }
  }

  /** Each issue buys at most seven guesses, and the OTP current at `a` at most seven more. */
  lemma {:induction false} GuessesArePaidFor(h: seq<Mark>, email: string, a: nat, span: nat)
    requires Paced(h, email)
    ensures var guesses := GuessesIn(h, email, a, span);
      var issues := IssuesIn(h, email, a, span);
      && guesses <= MAX_FAILURES * (issues + 1)
      && (LastAt(h, email) < a ==> guesses == 0 && issues == 0)
      && (LastAt(h, email) < a + span ==>
           guesses + MAX_FAILURES <= MAX_FAILURES * (issues + 1) + Wrongs(h, email))
  {
    if h != [] {
      GuessesArePaidFor(h[..|h| - 1], email, a, span);
    }
  }

  /** In any interval of `span` milliseconds at most 7 * (span / 60 s + 2) wrong codes are compared. */
  lemma {:induction false} GuessRateBound(sha: string -> string, rs: seq<Request>, email: string, a: nat, span: nat)
    requires Serialised(rs)
    ensures GuessesIn(Run(sha, rs).history, email, a, span)
         <= 7 * (span / 60000 + 2)
  {
    var h := Run(sha, rs).history;
    RunIsPaced(sha, rs, email);
    IssuesAreSpaced(h, email, a, span);
    GuessesArePaidFor(h, email, a, span);
    var n := IssuesIn(h, email, a, span);
    assert n <= span / Seconds(COOLDOWN_TTL) + 1;
  }

  // ---------------------------------------------------------------------------------------------
  // The lock
  // ---------------------------------------------------------------------------------------------

  /** The email is locked until `y`: seven failures counted, no OTP left. */
  predicate LockedUntil(w: World, email: string, y: nat) {
    && email in w.users
    && Otp(email) !in w.redis.texts
    && VerifyFailures(email) in w.redis.counts
    && w.redis.counts[VerifyFailures(email)].value >= MAX_FAILURES
    && w.redis.counts[VerifyFailures(email)].expiresAt == Some(y)
  }

  lemma {:induction false} FailLocks(w: World, sha: string -> string, r: Request, t: nat)
    requires r.Verify? && InOrder(r) && t <= From(r) && Good(ViewOf(w, r.email), sha, t)
    requires Get(w.redis, Otp(r.email), r.ver.read).Some?
    requires Count(w.redis, VerifyFailures(r.email), r.ver.count) + 1 >= MAX_FAILURES
    ensures var w' := Fail(w, r).0;
      && Otp(r.email) !in w'.redis.texts
      && (LockedUntil(w', r.email, r.ver.extend + Seconds(LOCK_TTL)) <==>
           Has(w.redis.counts, VerifyFailures(r.email), r.ver.extend))
  {
    var v := ViewOf(w, r.email);
    assert v.otp.Some? && v.user.Some?;
  }

  /** The request gets past the guard with a wrong code, and its failure is the seventh counted. */
  predicate SeventhFailure(w: World, sha: string -> string, r: Request)
    requires r.Verify?
  {
    && Count(w.redis, VerifyFailures(r.email), r.ver.guard) < MAX_FAILURES
    && Truthy(Get(w.redis, Otp(r.email), r.ver.read))
    && sha(r.input) != Get(w.redis, Otp(r.email), r.ver.read).value
    && Count(w.redis, VerifyFailures(r.email), r.ver.count) + 1 >= MAX_FAILURES
  }

  /**
   The seventh failure is answered with 900 seconds and removes the OTP; it locks the email for 900 seconds
   from its EXPIRE exactly when the counter is still alive at that instant.
   */
  lemma {:induction false} SeventhFailureLocks(sha: string -> string, rs: seq<Request>, r: Request)
    requires r.Verify? && Serialised(rs + [r])
    requires SeventhFailure(Run(sha, rs), sha, r)
    ensures var w := Run(sha, rs);
      var w' := Run(sha, rs + [r]);
      && Serve(w, sha, r).1 == Locked(15 * 60)
      && Otp(r.email) !in w'.redis.texts
      && (LockedUntil(w', r.email, r.ver.extend + 900000) <==>
           Has(w.redis.counts, VerifyFailures(r.email), r.ver.extend))
  {
    assert (rs + [r])[..|rs|] == rs;
    RunIsGood(sha, rs, r.email);
    FailLocks(Run(sha, rs), sha, r, LastEnd(rs, r.email));
  }

  /** While the lock lasts a request for the email changes nothing and is refused with a positive delay. */
  lemma {:induction false} LockRejects(w: World, sha: string -> string, r: Request, y: nat)
    requires LockedUntil(w, r.email, y) && From(r) < y
    ensures Serve(w, sha, r).0 == w
    ensures r.Register? ==> Serve(w, sha, r).1.DuplicateUser?
    ensures !r.Register? ==> Serve(w, sha, r).1.Locked? && Serve(w, sha, r).1.retryAfter > 0
  {
  }

  function RunFrom(w: World, sha: string -> string, rs: seq<Request>): World {
    if rs == [] then w else Serve(RunFrom(w, sha, rs[..|rs| - 1]), sha, rs[|rs| - 1]).0
  }

  /**
   Until the lock expires, no sequence of requests, for this and any other emails, lifts it, issues an OTP
   for the email, or gets a verify or resend for it through.
   */
  lemma {:induction false} LockPersists(w: World, sha: string -> string, rs: seq<Request>, email: string, y: nat)
    requires LockedUntil(w, email, y)
    requires forall k :: 0 <= k < |rs| && rs[k].email == email ==> From(rs[k]) < y
    ensures LockedUntil(RunFrom(w, sha, rs), email, y)
    ensures forall k :: 0 <= k < |rs| && rs[k].email == email && !rs[k].Register? ==>
      var reply := Serve(RunFrom(w, sha, rs[..k]), sha, rs[k]).1;
      reply.Locked? && reply.retryAfter > 0
  {
    if rs != [] {
      var n := |rs| - 1;
      LockPersists(w, sha, rs[..n], email, y);
      var before := RunFrom(w, sha, rs[..n]);
      if rs[n].email == email {
        LockRejects(before, sha, rs[n], y);
      } else {
        OthersKeepStored(before, sha, rs[n], email);
      }
      forall k | 0 <= k < |rs| && rs[k].email == email && !rs[k].Register?
        ensures var reply := Serve(RunFrom(w, sha, rs[..k]), sha, rs[k]).1; reply.Locked? && reply.retryAfter > 0
      {
        if k < n { assert rs[..n][..k] == rs[..k] && rs[..n][k] == rs[k]; }
      }
    }
  }

  /** A run goes on from where its first requests end. */
  lemma {:induction false} RunGoesOn(sha: string -> string, rs: seq<Request>, more: seq<Request>)
    ensures Run(sha, rs + more) == RunFrom(Run(sha, rs), sha, more)
    decreases |more|
  {
    if more == [] {
      assert rs + more == rs;
    } else {
      var n := |more| - 1;
      RunGoesOn(sha, rs, more[..n]);
      assert (rs + more)[..|rs + more| - 1] == rs + more[..n];
    }
  }

  lemma {:induction false} OneMoreRequest(sha: string -> string, rs: seq<Request>, r: Request)
    ensures Run(sha, rs + [r]) == Serve(Run(sha, rs), sha, r).0
    ensures Serialised(rs + [r]) <==> Serialised(rs) && InOrder(r) && LastEnd(rs, r.email) <= From(r)
    ensures LastEnd(rs + [r], r.email) == To(r)
  {
    assert (rs + [r])[..|rs|] == rs;
  }

  /**
   The lock rests on the TTLs: the counter was started after the OTP was issued and lives 900 seconds, the OTP
   600, so an EXPIRE that comes within 300 seconds of reading the OTP always finds the counter alive.
   */
  lemma {:induction false} TimelyFailureLocks(sha: string -> string, rs: seq<Request>, r: Request)
    requires r.Verify? && Serialised(rs + [r])
    requires SeventhFailure(Run(sha, rs), sha, r)
    requires r.ver.extend <= r.ver.read + 300000
    ensures LockedUntil(Run(sha, rs + [r]), r.email, r.ver.extend + 900000)
  {
    assert (rs + [r])[..|rs|] == rs;
    RunIsGood(sha, rs, r.email);
    var v := ViewOf(Run(sha, rs), r.email);
    LaterIsGood(v, sha, LastEnd(rs, r.email), r.ver.read);
    assert v.user.Some? && Guarded(v, r.ver.read);
    SeventhFailureLocks(sha, rs, r);
  }

  /**
   The documented lock: after a seventh failure whose EXPIRE is timely, every verify and resend for the email
   that starts within 900 seconds of it is refused with a positive delay, whatever else is requested.
   */
  lemma {:induction false} LockHolds(sha: string -> string, rs: seq<Request>, r: Request, more: seq<Request>)
    requires r.Verify? && Serialised(rs + [r])
    requires SeventhFailure(Run(sha, rs), sha, r)
    requires r.ver.extend <= r.ver.read + 300000
    requires forall k :: 0 <= k < |more| && more[k].email == r.email ==>
      From(more[k]) < r.ver.extend + 900000
    ensures Otp(r.email) !in Run(sha, rs + [r] + more).redis.texts
    ensures forall k :: 0 <= k < |more| && more[k].email == r.email && !more[k].Register? ==>
      var reply := Serve(Run(sha, rs + [r] + more[..k]), sha, more[k]).1;
      reply.Locked? && reply.retryAfter > 0
  {
    TimelyFailureLocks(sha, rs, r);
    var y := r.ver.extend + Seconds(LOCK_TTL);
    LockPersists(Run(sha, rs + [r]), sha, more, r.email, y);
    RunGoesOn(sha, rs + [r], more);
    forall k | 0 <= k < |more| && more[k].email == r.email && !more[k].Register?
      ensures var reply := Serve(Run(sha, rs + [r] + more[..k]), sha, more[k]).1; reply.Locked? && reply.retryAfter > 0
    {
      RunGoesOn(sha, rs + [r], more[..k]);
    }
  }

  // The margin is exact: one millisecond more and the lock can be lost.

  const ADA: string := "ada@example.org"

  /** A registration of code `a` and `k` wrong guesses `b`, all at time 0. */
  function EarlyGuesses(a: string, b: string, k: nat): seq<Request> {
    if k == 0 then [Register(ADA, "ada", "id", None, None, a, NoFault, RegisterTimes(0, 0, 0, 0, 0))]
    else EarlyGuesses(a, b, k - 1) + [EarlyGuess(b)]
  }

  function EarlyGuess(b: string): Request {
    Verify(ADA, b, true, VerifyTimes(0, 0, 0, 0, 0, 0))
  }

  /** A seventh guess in the OTP's last millisecond, whose EXPIRE comes 300 seconds and a millisecond later. */
  function LateGuess(b: string): Request {
    Verify(ADA, b, true, VerifyTimes(599999, 599999, 599999, 599999, 900000, 900000))
  }

  function GuessedWorld(sha: string -> string, a: string, k: nat): World {
    World(
      Store(map[Otp(ADA) := Entry(sha(a), Some(600000)), Cooldown(ADA) := Entry("1", Some(60000))],
            if k == 0 then map[] else map[VerifyFailures(ADA) := Entry(k, Some(900000))]),
      map[ADA := User("ada", PENDING, None)],
      [VerificationEmail(ADA, a, "ada")],
      [Issued(ADA, 0, a, true)] + seq(k, _ => WrongGuess(ADA, 0)))
  }

  lemma {:induction false} GuessCounts(sha: string -> string, a: string, b: string, k: nat)
    requires sha(a) != sha(b) && sha(a) != "" && k < MAX_FAILURES - 1
    ensures Serve(GuessedWorld(sha, a, k), sha, EarlyGuess(b)).0 == GuessedWorld(sha, a, k + 1)
  {
    assert GuessedWorld(sha, a, k + 1).history == GuessedWorld(sha, a, k).history + [WrongGuess(ADA, 0)];
  }

  /** `rs` is such a run, with `k` guesses. */
  predicate Guessed(sha: string -> string, a: string, rs: seq<Request>, k: nat) {
    Serialised(rs) && LastEnd(rs, ADA) == 0 && Run(sha, rs) == GuessedWorld(sha, a, k)
  }

  lemma {:induction false} RegistrationStarts(sha: string -> string, a: string, b: string)
    ensures Guessed(sha, a, EarlyGuesses(a, b, 0), 0)
  {
    var rs := EarlyGuesses(a, b, 0);
    assert rs[..0] == [];
    assert Serialised(rs[..0]);
    var w := Serve(START, sha, rs[0]).0;
    assert w.redis.texts == GuessedWorld(sha, a, 0).redis.texts;
    assert w.history == GuessedWorld(sha, a, 0).history;
    assert w.outbox == GuessedWorld(sha, a, 0).outbox;
  }

  lemma {:induction false} GuessGoesOn(sha: string -> string, a: string, b: string, rs: seq<Request>, k: nat)
    requires sha(a) != sha(b) && sha(a) != "" && k < MAX_FAILURES - 1 && Guessed(sha, a, rs, k)
    ensures Guessed(sha, a, rs + [EarlyGuess(b)], k + 1)
  {
    GuessCounts(sha, a, b, k);
    OneMoreRequest(sha, rs, EarlyGuess(b));
  }

  lemma {:induction false} EarlyGuessesRun(sha: string -> string, a: string, b: string, k: nat)
    requires sha(a) != sha(b) && sha(a) != "" && k < MAX_FAILURES
    ensures Guessed(sha, a, EarlyGuesses(a, b, k), k)
  {
    if k == 0 {
      RegistrationStarts(sha, a, b);
    } else {
      var before := EarlyGuesses(a, b, k - 1);
      EarlyGuessesRun(sha, a, b, k - 1);
      assert Guessed(sha, a, before + [EarlyGuess(b)], k) by { GuessGoesOn(sha, a, b, before, k - 1); }
    }
  }

  /** The seventh failure then answers 900 seconds, and leaves neither a lock nor a counter that still counts. */
  lemma {:induction false} LateFailureDoesNotLock(sha: string -> string, a: string, b: string)
    requires sha(a) != sha(b) && sha(a) != ""
    ensures var rs := EarlyGuesses(a, b, MAX_FAILURES - 1);
      var r := LateGuess(b);
      var w' := Run(sha, rs + [r]);
      && Serialised(rs + [r]) && SeventhFailure(Run(sha, rs), sha, r)
      && r.ver.extend == r.ver.read + 300001
      && Serve(Run(sha, rs), sha, r).1 == Locked(15 * 60)
      && !LockedUntil(w', ADA, r.ver.extend + 900000)
      && Count(w'.redis, VerifyFailures(ADA), r.ver.extend) == 0
  {
    var rs := EarlyGuesses(a, b, MAX_FAILURES - 1);
    var r := LateGuess(b);
    EarlyGuessesRun(sha, a, b, MAX_FAILURES - 1);
    OneMoreRequest(sha, rs, r);
    var w := GuessedWorld(sha, a, MAX_FAILURES - 1);
    assert Get(w.redis, Otp(ADA), 599999) == Some(sha(a));
    assert Count(w.redis, VerifyFailures(ADA), 599999) == MAX_FAILURES - 1;
    assert Serve(w, sha, r) == Fail(w, r);
  }

  // ---------------------------------------------------------------------------------------------
  // The right code
  // ---------------------------------------------------------------------------------------------

  /**
   In every serialised run a verify answers Verified exactly when an OTP is live, the code hashes to it, and
   the database works: a live OTP is never locked out, never a user's who is missing or already ACTIVE.
   */
  lemma {:induction false} VerifiedExactlyWhenCodeMatches(sha: string -> string, rs: seq<Request>, r: Request)
    requires r.Verify? && Serialised(rs + [r])
    ensures var w := Run(sha, rs);
      var otp := Get(w.redis, Otp(r.email), r.ver.read);
      Serve(w, sha, r).1.Verified? <==> Truthy(otp) && otp.value == sha(r.input) && r.dbOk
  {
    assert (rs + [r])[..|rs|] == rs;
    RunIsGood(sha, rs, r.email);
    var v := ViewOf(Run(sha, rs), r.email);
    if Get(Run(sha, rs).redis, Otp(r.email), r.ver.read).Some? {
      assert v.user.Some? && Guarded(v, LastEnd(rs, r.email));
    }
  }

  // ---------------------------------------------------------------------------------------------
  // A verified account
  // ---------------------------------------------------------------------------------------------

  /** The account is ACTIVE and nothing of its verification is left in Redis but, perhaps, a cooldown. */
  predicate Settled(w: World, email: string) {
    && email in w.users && w.users[email].status.ACTIVE?
    && Otp(email) !in w.redis.texts && VerifyFailures(email) !in w.redis.counts
  }

  lemma {:induction false} VerifiedIsSettled(w: World, sha: string -> string, r: Request)
    requires r.Verify? && DoVerify(w, sha, r).1.Verified?
    ensures Settled(DoVerify(w, sha, r).0, r.email)
  {
  }

  /** What a settled account answers: there is no code to guess, to resend, or to register again. */
  predicate SettledReply(r: Request, reply: Reply) {
    match r
    case Register(_, _, _, _, _, _, _, _) => reply.DuplicateUser?
    case Resend(_, _, _, _) => reply.AlreadyActive? || reply.CoolingDown?
    case Verify(_, _, _, _) => reply.NoCode?
  }

  lemma {:induction false} SettledRefuses(w: World, sha: string -> string, r: Request)
    requires Settled(w, r.email)
    ensures Serve(w, sha, r).0 == w && SettledReply(r, Serve(w, sha, r).1)
  {
  }

  /** Verification is final: no later requests, for any emails, touch the account, and none gets a new code. */
  lemma {:induction false} VerificationIsFinal(w: World, sha: string -> string, rs: seq<Request>, email: string)
    requires Settled(w, email)
    ensures Settled(RunFrom(w, sha, rs), email)
    ensures forall k :: 0 <= k < |rs| && rs[k].email == email ==>
      SettledReply(rs[k], Serve(RunFrom(w, sha, rs[..k]), sha, rs[k]).1)
  {
    if rs != [] {
      var n := |rs| - 1;
      var before := RunFrom(w, sha, rs[..n]);
      VerificationIsFinal(w, sha, rs[..n], email);
      if rs[n].email == email {
        SettledRefuses(before, sha, rs[n]);
      } else {
        OthersKeepStored(before, sha, rs[n], email);
      }
      forall k | 0 <= k < |rs| && rs[k].email == email
        ensures SettledReply(rs[k], Serve(RunFrom(w, sha, rs[..k]), sha, rs[k]).1)
      {
        if k < n { assert rs[..n][..k] == rs[..k] && rs[..n][k] == rs[k]; }
      }
    }
  }

  /** From the Verified reply on the account is settled: the same for every run that goes on after it. */
  lemma {:induction false} VerifiedStays(sha: string -> string, rs: seq<Request>, r: Request, more: seq<Request>)
    requires r.Verify? && DoVerify(Run(sha, rs), sha, r).1.Verified?
    ensures Settled(Run(sha, rs + [r] + more), r.email)
    ensures forall k :: 0 <= k < |more| && more[k].email == r.email ==>
      SettledReply(more[k], Serve(Run(sha, rs + [r] + more[..k]), sha, more[k]).1)
  {
    assert (rs + [r])[..|rs|] == rs;
    VerifiedIsSettled(Run(sha, rs), sha, r);
    VerificationIsFinal(Run(sha, rs + [r]), sha, more, r.email);
    RunGoesOn(sha, rs + [r], more);
    forall k | 0 <= k < |more| && more[k].email == r.email
      ensures SettledReply(more[k], Serve(Run(sha, rs + [r] + more[..k]), sha, more[k]).1)
    {
      RunGoesOn(sha, rs + [r], more[..k]);
    }
  }

  // ---------------------------------------------------------------------------------------------
  // Registration
  // ---------------------------------------------------------------------------------------------

  lemma {:induction false} RegisteredAddsItsRows(w: World, sha: string -> string, r: Request)
    requires r.Register? && DoRegister(w, sha, r).1.Registered?
    ensures var w' := DoRegister(w, sha, r).0;
      && r.email !in w.users && w'.users == w.users[r.email := User(r.username, PENDING, PhotoPath(r))]
      && w'.outbox == w.outbox + RegistrationRows(r)
  {
  }

  /** A registration commits its user with all its rows, or leaves neither of them, no mark and no OTP. */
  lemma {:induction false} RegistrationIsAtomic(sha: string -> string, rs: seq<Request>, r: Request)
    requires Serialised(rs) && r.Register?
    ensures var w := Run(sha, rs);
      var (w', reply) := Serve(w, sha, r);
      if reply.Registered? then
        && r.email !in w.users && w'.users == w.users[r.email := User(r.username, PENDING, PhotoPath(r))]
        && w'.outbox == w.outbox + RegistrationRows(r)
      else
        && w'.users == w.users && w'.outbox == w.outbox && w'.history == w.history
        && (r.email !in w.users ==> Otp(r.email) !in w'.redis.texts)
  {
    if Serve(Run(sha, rs), sha, r).1.Registered? {
      RegisteredAddsItsRows(Run(sha, rs), sha, r);
    } else {
      FailedRegistrationStores(Run(sha, rs), sha, r);
      RunIsGood(sha, rs, r.email);
    }
  }

  /** Request `k` of the run registered `email`. */
  predicate RegisteredAt(sha: string -> string, rs: seq<Request>, k: nat, email: string)
    requires k < |rs|
  {
    rs[k].Register? && rs[k].email == email && Serve(Run(sha, rs[..k]), sha, rs[k]).1.Registered?
  }

  /** Request `j` of the run verified `email`. */
  predicate VerifiedAt(sha: string -> string, rs: seq<Request>, j: nat, email: string)
    requires j < |rs|
  {
    rs[j].Verify? && rs[j].email == email && Serve(Run(sha, rs[..j]), sha, rs[j]).1.Verified?
  }

  ghost predicate VerifiedAfter(sha: string -> string, rs: seq<Request>, k: nat, email: string) {
    exists j :: k < j < |rs| && VerifiedAt(sha, rs, j, email)
  }

  /** The photo path a registration asks for, or the avatar path of its user id if it only names an upload. */
  predicate HasPhotoOf(u: User, r: Request)
    requires r.Register?
  {
    && (r.photo.Some? ==> u.profilePhoto == r.photo)
    && (r.photo.None? && r.tempKey.Some? ==> u.profilePhoto == Some("avatars/" + r.userId + "/avatar.webp"))
    && (r.photo.None? && r.tempKey.None? ==> u.profilePhoto == None)
  }

  /** `email` is as request `k` registered it, except that a later verification made it ACTIVE. */
  ghost predicate AsRegistered(sha: string -> string, rs: seq<Request>, k: nat, email: string)
    requires k < |rs| && email in Run(sha, rs).users
  {
    var r := rs[k];
    var w := Run(sha, rs);
    var u := w.users[email];
    && RegisteredAt(sha, rs, k, email)
    && u.username == r.username && HasPhotoOf(u, r)
    && u.status == (if VerifiedAfter(sha, rs, k, email) then ACTIVE else PENDING)
    && VerificationEmail(email, r.code, r.username) in w.outbox
    && (r.tempKey.Some? ==>
         u.profilePhoto.Some? && ProcessPhoto(r.userId, r.tempKey.value, u.profilePhoto.value) in w.outbox)
  }

  /** A request changes of a committed user at most the status, and that exactly by verifying it. */
  lemma {:induction false} StepKeepsUser(w: World, sha: string -> string, r: Request, email: string)
    requires email in w.users
    ensures var (w', reply) := Serve(w, sha, r);
      && email in w'.users
      && w'.users[email] == w.users[email].(status := w'.users[email].status)
      && w'.users[email].status ==
           (if r.Verify? && r.email == email && reply.Verified? then ACTIVE else w.users[email].status)
  {
  }

  lemma {:induction false} VerifiedAfterGrows(sha: string -> string, rs: seq<Request>, k: nat, email: string)
    requires rs != [] && k < |rs| - 1
    ensures var n := |rs| - 1;
      VerifiedAfter(sha, rs, k, email) <==> VerifiedAfter(sha, rs[..n], k, email) || VerifiedAt(sha, rs, n, email)
  {
    var n := |rs| - 1;
    forall j | k < j < n ensures VerifiedAt(sha, rs[..n], j, email) <==> VerifiedAt(sha, rs, j, email) {
      assert rs[..n][..j] == rs[..j] && rs[..n][j] == rs[j];
    }
    if VerifiedAfter(sha, rs[..n], k, email) {
      var j :| k < j < n && VerifiedAt(sha, rs[..n], j, email);
      assert VerifiedAt(sha, rs, j, email);
    }
  }

  lemma {:induction false} RegistrationIsAsRegistered(sha: string -> string, rs: seq<Request>, email: string)
    requires rs != []
    requires email !in Run(sha, rs[..|rs| - 1]).users && email in Run(sha, rs).users
    ensures AsRegistered(sha, rs, |rs| - 1, email)
  {
    var n := |rs| - 1;
    var w := Run(sha, rs[..n]);
    assert Serve(w, sha, rs[n]).1.Registered? && rs[n].email == email;
    RegisteredAddsItsRows(w, sha, rs[n]);
    assert RegistrationRows(rs[n])[0] == VerificationEmail(email, rs[n].code, rs[n].username);
    assert Run(sha, rs).outbox[|w.outbox|] == RegistrationRows(rs[n])[0];
    if rs[n].tempKey.Some? {
      assert Run(sha, rs).outbox[|w.outbox| + 1] == RegistrationRows(rs[n])[1];
    }
  }

  lemma {:induction false} RegisteredAtStays(
      sha: string -> string, rs: seq<Request>, n: nat, k: nat, email: string)
    requires k < n <= |rs|
    ensures RegisteredAt(sha, rs[..n], k, email) <==> RegisteredAt(sha, rs, k, email)
  {
    assert rs[..n][..k] == rs[..k] && rs[..n][k] == rs[k];
  }

  lemma {:induction false} RowsStay(w: World, sha: string -> string, r: Request)
    ensures forall row :: row in w.outbox ==> row in Serve(w, sha, r).0.outbox
  {
    var m, more := ServeAppends(w, sha, r);
  }

  lemma {:induction false} AsRegisteredStays(sha: string -> string, rs: seq<Request>, k: nat, email: string)
    requires rs != [] && k < |rs| - 1 && email in Run(sha, rs[..|rs| - 1]).users
    requires AsRegistered(sha, rs[..|rs| - 1], k, email)
    ensures email in Run(sha, rs).users && AsRegistered(sha, rs, k, email)
  {
    var n := |rs| - 1;
    var w := Run(sha, rs[..n]);
    StepKeepsUser(w, sha, rs[n], email);
    VerifiedAfterGrows(sha, rs, k, email);
    RegisteredAtStays(sha, rs, n, k, email);
    RowsStay(w, sha, rs[n]);
  }

  /**
   Every committed user was registered by one request of the run and is as that request said, whatever followed: its
   name, its photo path, its mail and its photo job; and it is ACTIVE exactly when a later verify was answered
   Verified, and PENDING otherwise.
   */
  lemma {:induction false} UsersAreAsRegistered(sha: string -> string, rs: seq<Request>, email: string)
    requires email in Run(sha, rs).users
    ensures exists k :: 0 <= k < |rs| && AsRegistered(sha, rs, k, email)
    decreases |rs|
  {
    var n := |rs| - 1;
    if email in Run(sha, rs[..n]).users {
      UsersAreAsRegistered(sha, rs[..n], email);
      var k :| 0 <= k < n && AsRegistered(sha, rs[..n], k, email);
      AsRegisteredStays(sha, rs, k, email);
    } else {
      RegistrationIsAsRegistered(sha, rs, email);
    }
  }

  /** No two committed users share a name, and each has its own email. */
  lemma {:induction false} UsernamesAreUnique(sha: string -> string, rs: seq<Request>, e: string, f: string)
    requires e in Run(sha, rs).users && f in Run(sha, rs).users && e != f
    ensures Run(sha, rs).users[e].username != Run(sha, rs).users[f].username
    decreases |rs|
  {
    var n := |rs| - 1;
    var w := Run(sha, rs[..n]);
    if e in w.users { StepKeepsUser(w, sha, rs[n], e); }
    if f in w.users { StepKeepsUser(w, sha, rs[n], f); }
    if e in w.users && f in w.users { UsernamesAreUnique(sha, rs[..n], e, f); }
  }

  /** A request keeps the users there are, and a mail it adds greets one of those it leaves by its name. */
  lemma {:induction false} AddedMailHasUser(w: World, sha: string -> string, r: Request, k: nat)
    requires var w' := Serve(w, sha, r).0; |w.outbox| <= k < |w'.outbox| && w'.outbox[k].VerificationEmail?
    ensures var w' := Serve(w, sha, r).0;
      r.email in w'.users && w'.outbox[k].email == r.email && w'.outbox[k].username == w'.users[r.email].username
  {
  }

  /** Every mail is for a committed user and names it. */
  lemma {:induction false} MailsNameTheirUsers(sha: string -> string, rs: seq<Request>, k: nat)
    requires k < |Run(sha, rs).outbox| && Run(sha, rs).outbox[k].VerificationEmail?
    ensures var w := Run(sha, rs);
      w.outbox[k].email in w.users && w.outbox[k].username == w.users[w.outbox[k].email].username
    decreases |rs|
  {
    var n := |rs| - 1;
    var before := Run(sha, rs[..n]);
    if k < |before.outbox| {
      var m, more := ServeAppends(before, sha, rs[n]);
      assert Run(sha, rs).outbox[k] == before.outbox[k];
      MailsNameTheirUsers(sha, rs[..n], k);
      StepKeepsUser(before, sha, rs[n], before.outbox[k].email);
    } else {
      AddedMailHasUser(before, sha, rs[n], k);
    }
  }

  /** The photo row `row` is the job of registration `k`: its upload, into its user's photo path. */
  ghost predicate JobOfRegistration(sha: string -> string, rs: seq<Request>, k: nat, row: OutboxRow)
    requires k < |rs| && row.ProcessPhoto?
  {
    && RegisteredAt(sha, rs, k, rs[k].email) && rs[k].email in Run(sha, rs).users
    && rs[k].userId == row.userId && rs[k].tempKey == Some(row.tempKey)
    && Run(sha, rs).users[rs[k].email].profilePhoto == Some(row.targetKey)
  }

  lemma {:induction false} AddedPhotoIsJob(sha: string -> string, rs: seq<Request>, i: nat)
    requires rs != [] && |Run(sha, rs[..|rs| - 1]).outbox| <= i < |Run(sha, rs).outbox|
    requires Run(sha, rs).outbox[i].ProcessPhoto?
    ensures JobOfRegistration(sha, rs, |rs| - 1, Run(sha, rs).outbox[i])
  {
  }

  /** Every photo job in the outbox is that of one registration. */
  lemma {:induction false} PhotoJobsAreRegistered(sha: string -> string, rs: seq<Request>, i: nat)
    requires i < |Run(sha, rs).outbox| && Run(sha, rs).outbox[i].ProcessPhoto?
    ensures exists k :: 0 <= k < |rs| && JobOfRegistration(sha, rs, k, Run(sha, rs).outbox[i])
    decreases |rs|
  {
    var n := |rs| - 1;
    var before := Run(sha, rs[..n]);
    if i < |before.outbox| {
      var m, more := ServeAppends(before, sha, rs[n]);
      assert Run(sha, rs).outbox[i] == before.outbox[i];
      PhotoJobsAreRegistered(sha, rs[..n], i);
      var k :| 0 <= k < n && JobOfRegistration(sha, rs[..n], k, before.outbox[i]);
      RegisteredAtStays(sha, rs, n, k, rs[k].email);
      StepKeepsUser(before, sha, rs[n], rs[k].email);
      assert JobOfRegistration(sha, rs, k, before.outbox[i]);
    } else {
      AddedPhotoIsJob(sha, rs, i);
    }
  }

  // ---------------------------------------------------------------------------------------------
  // The live OTP and the mailed code
  // ---------------------------------------------------------------------------------------------

  /**
   In every serialised run, faults included, a live OTP belongs to a PENDING user and is the hash of the
   latest issued code, while the newest mail carries the latest code whose row committed.  So OTP and mail
   agree exactly when these two codes hash alike, as they do whenever the last issue was queued.
   */
  lemma {:induction false} OtpAgreesWithMail(sha: string -> string, rs: seq<Request>, email: string, t: nat)
    requires Serialised(rs) && LastEnd(rs, email) <= t
    requires Get(Run(sha, rs).redis, Otp(email), t).Some?
    ensures var w := Run(sha, rs);
      var otp := Get(w.redis, Otp(email), t).value;
      var issue := LastIssue(w.history, email);
      var mail := NewestCode(w.outbox, email);
      && email in w.users && w.users[email].status.PENDING?
      && issue.Some? && issue.value.Issued? && otp == sha(issue.value.code)
      && mail.Some? && mail == LastQueued(w.history, email)
      && (otp == sha(mail.value) <==> sha(issue.value.code) == sha(LastQueued(w.history, email).value))
      && (issue.value.queued ==> otp == sha(mail.value))
  {
    RunIsGood(sha, rs, email);
    LatestQueuedIsQueued(Run(sha, rs).history, email);
  }

  lemma {:induction false} LatestQueuedIsQueued(h: seq<Mark>, email: string)
    requires LastIssue(h, email).Some?
    ensures LastIssue(h, email).value.Issued?
    ensures LastIssue(h, email).value.queued ==> LastQueued(h, email) == Some(LastIssue(h, email).value.code)
  {
    if !IssueFor(h[|h| - 1], email) {
      LatestQueuedIsQueued(h[..|h| - 1], email);
    }
  }

  /** No earlier issue for `email` had a code that hashes like that of the latest. */
  predicate CodesDiffer(h: seq<Mark>, sha: string -> string, email: string) {
    forall k :: 0 <= k < |h| && IssueFor(h[k], email) && LastIssue(h, email).Some?
                && LastIssue(h, email).value.Issued? && h[k] != LastIssue(h, email).value ==>
      sha(h[k].code) != sha(LastIssue(h, email).value.code)
  }

  lemma {:induction false} QueuedIsAMark(h: seq<Mark>, email: string)
    requires LastQueued(h, email).Some?
    ensures exists k :: 0 <= k < |h| && IssueFor(h[k], email) && h[k].queued
                        && Some(h[k].code) == LastQueued(h, email)
  {
    var n := |h| - 1;
    if IssueFor(h[n], email) && h[n].queued {
    } else {
      QueuedIsAMark(h[..n], email);
      var k :| 0 <= k < n && IssueFor(h[..n][k], email) && h[..n][k].queued
                && Some(h[..n][k].code) == LastQueued(h[..n], email);
      assert h[k] == h[..n][k];
    }
  }

  /** When codes are not repeated, OTP and newest mail agree exactly when the last issue's row committed. */
  lemma {:induction false} OtpAgreesExactlyWhenQueued(sha: string -> string, rs: seq<Request>, email: string, t: nat)
    requires Serialised(rs) && LastEnd(rs, email) <= t
    requires Get(Run(sha, rs).redis, Otp(email), t).Some?
    requires CodesDiffer(Run(sha, rs).history, sha, email)
    ensures var w := Run(sha, rs);
      && LastIssue(w.history, email).Some? && LastIssue(w.history, email).value.Issued?
      && NewestCode(w.outbox, email).Some?
      && (Get(w.redis, Otp(email), t).value == sha(NewestCode(w.outbox, email).value)
          <==> LastIssue(w.history, email).value.queued)
  {
    var h := Run(sha, rs).history;
    OtpAgreesWithMail(sha, rs, email, t);
    QueuedIsAMark(h, email);
    var k :| 0 <= k < |h| && IssueFor(h[k], email) && h[k].queued && Some(h[k].code) == LastQueued(h, email);
  }

  /** After a registration with code `a`, past the cooldown, a resend of `b` whose outbox row fails to commit. */
  function UnqueuedResend(b: string): Request {
    Resend(ADA, b, false, ResendTimes(60000, 60000, 60000, 60000, 60000, 60000, 60000))
  }

  /** The agreement does fail: the resend leaves an OTP in Redis whose code no mail carries. */
  lemma {:induction false} UnqueuedResendDisagrees(sha: string -> string, a: string, b: string)
    requires sha(a) != sha(b)
    ensures var rs := EarlyGuesses(a, b, 0) + [UnqueuedResend(b)];
      var w := Run(sha, rs);
      && Serialised(rs)
      && Get(w.redis, Otp(ADA), 60000) == Some(sha(b))
      && NewestCode(w.outbox, ADA) == Some(a)
      && sha(a) != Get(w.redis, Otp(ADA), 60000).value
  {
    RegistrationStarts(sha, a, b);
    OneMoreRequest(sha, EarlyGuesses(a, b, 0), UnqueuedResend(b));
  }
}
