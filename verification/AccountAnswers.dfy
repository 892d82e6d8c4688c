/**
 What the replies of registration, resend and verification mean: when each is given, what it leaves behind, and what
 the numbers in it promise.
 */
module AccountAnswers {
  import opened Wrappers
  import opened RedisStore
  import opened Accounts
  import opened AccountsSafety
  import opened AccountsTheorems

  // ---------------------------------------------------------------------------------------------
  // Registration
  // ---------------------------------------------------------------------------------------------

  /** The email is registered, or some committed user has the name. */
  predicate Known(w: World, r: Request)
    requires r.Register?
  {
    r.email in w.users || exists e :: e in w.users && w.users[e].username == r.username
  }

  /** The upload the registration names has been used, as users-service reads it. */
  predicate UploadUsed(w: World, r: Request)
    requires r.Register?
  {
    r.tempKey.Some? && Get(w.redis, Upload(r.tempKey.value), r.reg.read) == Some("CONSUMED")
  }

  /** The fault strikes before the token is read. */
  predicate EarlyFault(r: Request)
    requires r.Register?
  {
    r.fault.AtUserSave? || r.fault.AtEmailSave?
  }

  predicate LateFault(r: Request)
    requires r.Register?
  {
    r.fault.AtCommit? || (r.fault.AtPhotoSave? && r.tempKey.Some?)
  }

  /** Each answer of a registration is given exactly for its reason, the reasons in this order. */
  lemma {:induction false} RegistrationAnswers(w: World, sha: string -> string, r: Request)
    requires r.Register?
    ensures var reply := Serve(w, sha, r).1;
      && (reply.DuplicateUser? <==> Known(w, r))
      && (reply.TokenConsumed? <==> !Known(w, r) && !EarlyFault(r) && UploadUsed(w, r))
      && (reply.Registered? <==> !Known(w, r) && !EarlyFault(r) && !UploadUsed(w, r) && !LateFault(r))
      && (reply.InternalError? <==> !Known(w, r) && (EarlyFault(r) || (!UploadUsed(w, r) && LateFault(r))))
  {
    var stored := WithOtp(w.redis, sha, r);
    if r.tempKey.Some? {
      assert Get(stored, Upload(r.tempKey.value), r.reg.read) == Get(w.redis, Upload(r.tempKey.value), r.reg.read);
    }
  }

  // ---------------------------------------------------------------------------------------------
  // Resend
  // ---------------------------------------------------------------------------------------------

  predicate LockedAt(w: World, email: string, t: nat) {
    Count(w.redis, VerifyFailures(email), t) >= 7
  }

  predicate Cooling(w: World, email: string, t: nat) {
    Truthy(Get(w.redis, Cooldown(email), t))
  }

  predicate HasStatus(w: World, email: string, status: UserStatus) {
    email in w.users && w.users[email].status == status
  }

  /** Each answer of a resend is given exactly for its reason, and the delays are the times left. */
  lemma {:induction false} ResendAnswers(w: World, sha: string -> string, r: Request)
    requires r.Resend?
    ensures var (w', reply) := Serve(w, sha, r);
      var free := !LockedAt(w, r.email, r.res.guard) && !Cooling(w, r.email, r.res.cool);
      && (reply.Locked? <==> LockedAt(w, r.email, r.res.guard))
      && (reply.CoolingDown? <==> !LockedAt(w, r.email, r.res.guard) && Cooling(w, r.email, r.res.cool))
      && (reply.NotFound? <==> free && r.email !in w.users)
      && (reply.AlreadyActive? <==> free && HasStatus(w, r.email, ACTIVE))
      && (reply.NotEligible? <==> free && HasStatus(w, r.email, BLOCKED))
      && (reply.CodeSent? <==> free && HasStatus(w, r.email, PENDING) && r.queued)
      && (reply.InternalError? <==> free && HasStatus(w, r.email, PENDING) && !r.queued)
      && (reply.Locked? ==> Announces(w.redis.counts, VerifyFailures(r.email), r.res.probe, 900, reply.retryAfter))
      && (reply.CoolingDown? ==> Announces(w.redis.texts, Cooldown(r.email), r.res.coolProbe, 60, reply.retryAfter))
      && (!reply.CodeSent? && !reply.InternalError? ==> w' == w)
  {
    DelayIsAnnounced(w.redis.counts, VerifyFailures(r.email), r.res.probe, 900);
    DelayIsAnnounced(w.redis.texts, Cooldown(r.email), r.res.coolProbe, 60);
  }

  /**
   In every serialised run a resend answers CodeSent exactly when fewer than seven failures are counted, no cooldown
   is live, the user is PENDING, and the row commits.
   */
  lemma {:induction false} CodeSentExactly(sha: string -> string, rs: seq<Request>, r: Request)
    requires r.Resend? && Serialised(rs + [r])
    ensures var w := Run(sha, rs);
      Serve(w, sha, r).1.CodeSent? <==>
        && Count(w.redis, VerifyFailures(r.email), r.res.guard) < 7
        && !Has(w.redis.texts, Cooldown(r.email), r.res.cool)
        && r.email in w.users && w.users[r.email].status.PENDING?
        && r.queued
  {
    OneMoreRequest(sha, rs, r);
    RunIsGood(sha, rs, r.email);
    ResendAnswers(Run(sha, rs), sha, r);
  }

  // ---------------------------------------------------------------------------------------------
  // A code issued
  // ---------------------------------------------------------------------------------------------

  /** The request issued its code, by registration or resend, and its mail is committed. */
  predicate Issues(w: World, sha: string -> string, r: Request) {
    !r.Verify? && (Serve(w, sha, r).1.Registered? || Serve(w, sha, r).1.CodeSent?)
  }

  /** When the OTP was stored, and when its cooldown. */
  function StoredAt(r: Request): nat
    requires !r.Verify?
  {
    if r.Register? then r.reg.otp else r.res.otp
  }

  function CooledAt(r: Request): nat
    requires !r.Verify?
  {
    if r.Register? then r.reg.mark else r.res.mark
  }

  /** The mail a committed issue adds, and the photo job of a registration with an upload. */
  predicate QueuesItsMail(w: World, w': World, r: Request) {
    && !r.Verify? && r.email in w'.users && |w.outbox| < |w'.outbox| && w'.outbox[..|w.outbox|] == w.outbox
    && w'.outbox[|w.outbox|] == VerificationEmail(r.email, r.code, w'.users[r.email].username)
    && (r.Register? && r.tempKey.Some? ==>
         && |w'.outbox| == |w.outbox| + 2 && w'.users[r.email].profilePhoto.Some?
         && w'.outbox[|w.outbox| + 1]
              == ProcessPhoto(r.userId, r.tempKey.value, w'.users[r.email].profilePhoto.value))
    && (r.Resend? || r.tempKey.None? ==> |w'.outbox| == |w.outbox| + 1)
  }

  /** What an issue leaves, in Redis, of the user, and in the outbox. */
  predicate Issued(w: World, w': World, sha: string -> string, r: Request)
    requires !r.Verify?
  {
    && At(w'.redis.texts, Otp(r.email)) == Some(Entry(sha(r.code), Some(StoredAt(r) + 600000)))
    && At(w'.redis.texts, Cooldown(r.email)) == Some(Entry("1", Some(CooledAt(r) + 60000)))
    && VerifyFailures(r.email) !in w'.redis.counts
    && HasStatus(w', r.email, PENDING)
    && QueuesItsMail(w, w', r)
    && NewestCode(w'.outbox, r.email) == Some(r.code)
    && (r.Register? && r.tempKey.Some? ==>
         At(w'.redis.texts, Upload(r.tempKey.value)) == Some(Entry("CONSUMED", Some(r.reg.consume + 600000))))
  }

  lemma {:induction false} RegistrationLeaves(w: World, sha: string -> string, r: Request)
    requires r.Register? && DoRegister(w, sha, r).1.Registered? && VerifyFailures(r.email) !in w.redis.counts
    ensures Issued(w, DoRegister(w, sha, r).0, sha, r)
  {
    RegisteredStores(w, sha, r);
    NewestIsRegistered(w.outbox, r);
    var rows := RegistrationRows(r);
    assert (w.outbox + rows)[|w.outbox|] == rows[0];
    if r.tempKey.Some? { assert (w.outbox + rows)[|w.outbox| + 1] == rows[1]; }
  }

  lemma {:induction false} ResendLeaves(w: World, sha: string -> string, r: Request)
    requires r.Resend? && DoResend(w, sha, r).1.CodeSent?
    ensures Issued(w, DoResend(w, sha, r).0, sha, r)
  {
    ResentStores(w, sha, r);
    NewestAfterResend(w.outbox, r.email, r.code, w.users[r.email].username, true);
  }

  /**
   An answer Registered or CodeSent is kept: the hash of the code is stored for ten minutes and the cooldown for one,
   no failure is counted any more, the mail is queued under the user's name, and it is the newest.
   */
  lemma {:induction false} IssueLeaves(sha: string -> string, rs: seq<Request>, r: Request)
    requires Serialised(rs + [r]) && Issues(Run(sha, rs), sha, r)
    ensures Issued(Run(sha, rs), Run(sha, rs + [r]), sha, r)
  {
    var w := Run(sha, rs);
    OneMoreRequest(sha, rs, r);
    RunIsGood(sha, rs, r.email);
    if r.Register? {
      RegistrationAnswers(w, sha, r);
      assert ViewOf(w, r.email).user.None?;
      RegistrationLeaves(w, sha, r);
    } else {
      ResendLeaves(w, sha, r);
    }
  }

  lemma {:induction false} IssueStoresCode(sha: string -> string, rs: seq<Request>, r: Request)
    requires Serialised(rs + [r]) && Issues(Run(sha, rs), sha, r)
    ensures ViewOf(Run(sha, rs + [r]), r.email).otp == Some(Entry(sha(r.code), Some(StoredAt(r) + 600000)))
  {
    IssueLeaves(sha, rs, r);
  }

  lemma {:induction false} OthersKeepView(sha: string -> string, rs: seq<Request>, more: seq<Request>, email: string)
    requires Serialised(rs + more) && forall k :: 0 <= k < |more| ==> more[k].email != email
    ensures ViewOf(Run(sha, rs + more), email) == ViewOf(Run(sha, rs), email)
    ensures LastEnd(rs + more, email) == LastEnd(rs, email)
    decreases |more|
  {
    if more == [] {
      assert rs + more == rs;
    } else {
      var n := |more| - 1;
      var before := rs + more[..n];
      assert rs + more == before + [more[n]];
      assert (before + [more[n]])[..|before|] == before;
      OthersKeepView(sha, rs, more[..n], email);
      RunIsPaced(sha, before, email);
      OthersDoNotShow(Run(sha, before), sha, more[n], email);
    }
  }

  /**
   Whoever enters the code of the last issue within ten minutes, whatever requests for other emails come between, is
   verified.
   */
  lemma {:induction false} IssuedCodeVerifies(
      sha: string -> string, rs: seq<Request>, r: Request, others: seq<Request>, v: Request)
    requires Issues(Run(sha, rs), sha, r) && sha(r.code) != ""
    requires forall k :: 0 <= k < |others| ==> others[k].email != r.email
    requires v.Verify? && v.email == r.email && v.input == r.code && v.dbOk
    requires Serialised(rs + [r] + others + [v]) && v.ver.read < StoredAt(r) + 600000
    ensures Serve(Run(sha, rs + [r] + others), sha, v).1.Verified?
  {
    var issued := rs + [r];
    var before := issued + others;
    assert (before + [v])[..|before|] == before;
    SerialisedPrefix(issued, others);
    IssueStoresCode(sha, rs, r);
    OthersKeepView(sha, issued, others, r.email);
    LiveCodeMatches(Run(sha, before), sha, r, v);
    VerifiedExactlyWhenCodeMatches(sha, before, v);
  }

  lemma {:induction false} LiveCodeMatches(w: World, sha: string -> string, r: Request, v: Request)
    requires !r.Verify? && v.Verify? && v.email == r.email && v.input == r.code && sha(r.code) != ""
    requires ViewOf(w, r.email).otp == Some(Entry(sha(r.code), Some(StoredAt(r) + 600000)))
    requires v.ver.read < StoredAt(r) + 600000
    ensures var otp := Get(w.redis, Otp(v.email), v.ver.read); Truthy(otp) && otp.value == sha(v.input)
  {
  }

  lemma {:induction false} SerialisedPrefix(rs: seq<Request>, more: seq<Request>)
    requires Serialised(rs + more)
    ensures Serialised(rs)
    decreases |more|
  {
    if more == [] {
      assert rs + more == rs;
    } else {
      var n := |more| - 1;
      assert (rs + more)[..|rs + more| - 1] == rs + more[..n];
      SerialisedPrefix(rs, more[..n]);
    }
  }

  // ---------------------------------------------------------------------------------------------
  // Verification
  // ---------------------------------------------------------------------------------------------

  predicate HasCode(w: World, r: Request)
    requires r.Verify?
  {
    Truthy(Get(w.redis, Otp(r.email), r.ver.read))
  }

  predicate CodeMatches(w: World, sha: string -> string, r: Request)
    requires r.Verify? && HasCode(w, r)
  {
    sha(r.input) == Get(w.redis, Otp(r.email), r.ver.read).value
  }

  /** Each answer of a verification is given exactly for its reason; only a wrong code and a success change anything. */
  lemma {:induction false} VerificationAnswers(w: World, sha: string -> string, r: Request)
    requires r.Verify?
    ensures var (w', reply) := Serve(w, sha, r);
      var open := !LockedAt(w, r.email, r.ver.guard);
      var wrong := open && HasCode(w, r) && !CodeMatches(w, sha, r);
      var right := open && HasCode(w, r) && CodeMatches(w, sha, r);
      var failures := Count(w.redis, VerifyFailures(r.email), r.ver.count);
      && (reply.NoCode? <==> open && !HasCode(w, r))
      && (reply.WrongCode? <==> wrong && failures + 1 < 7)
      && (reply.Locked? <==> !open || (wrong && failures + 1 >= 7))
      && (reply.InternalError? <==> right && !r.dbOk)
      && (reply.NotFound? <==> right && r.dbOk && r.email !in w.users)
      && (reply.AlreadyActive? <==> right && r.dbOk && HasStatus(w, r.email, ACTIVE))
      && (reply.Verified? <==> right && r.dbOk && r.email in w.users && !HasStatus(w, r.email, ACTIVE))
      && (!open ==> Announces(w.redis.counts, VerifyFailures(r.email), r.ver.probe, 900, reply.retryAfter))
      && (wrong && reply.Locked? ==> reply.retryAfter == 900)
      && (!wrong && !reply.Verified? ==> w' == w)
  {
    DelayIsAnnounced(w.redis.counts, VerifyFailures(r.email), r.ver.probe, 900);
  }

  /** The email has `c` counted failures and an OTP, both for a while after `until`. */
  predicate Guessing(w: World, email: string, c: nat, until: nat) {
    && VerifyFailures(email) in w.redis.counts && w.redis.counts[VerifyFailures(email)].value == c
    && w.redis.counts[VerifyFailures(email)].expiresAt.Some?
    && until <= w.redis.counts[VerifyFailures(email)].expiresAt.value
    && Otp(email) in w.redis.texts && w.redis.texts[Otp(email)].value != ""
    && w.redis.texts[Otp(email)].expiresAt.Some? && until <= w.redis.texts[Otp(email)].expiresAt.value
  }

  /** A wrong code entered before `until`. */
  predicate WrongGuessOf(w: World, sha: string -> string, r: Request, email: string, until: nat) {
    && r.Verify? && r.email == email && InOrder(r) && To(r) < until
    && Otp(email) in w.redis.texts && sha(r.input) != w.redis.texts[Otp(email)].value
  }

  lemma {:induction false} OneMoreGuess(w: World, sha: string -> string, r: Request, email: string, c: nat, until: nat)
    requires Guessing(w, email, c, until) && 0 < c < 6 && WrongGuessOf(w, sha, r, email, until)
    ensures Guessing(Serve(w, sha, r).0, email, c + 1, until)
    ensures Serve(w, sha, r).0.redis.texts == w.redis.texts
    ensures Serve(w, sha, r).1 == WrongCode(7 - (c + 1))
  {
  }

  lemma {:induction false} GuessesCount(
      w: World, sha: string -> string, rs: seq<Request>, email: string, c: nat, until: nat)
    requires Guessing(w, email, c, until) && 0 < c && c + |rs| < 7
    requires forall j :: 0 <= j < |rs| ==> WrongGuessOf(w, sha, rs[j], email, until)
    ensures Guessing(RunFrom(w, sha, rs), email, c + |rs|, until)
    ensures RunFrom(w, sha, rs).redis.texts == w.redis.texts
    decreases |rs|
  {
    if rs != [] {
      var n := |rs| - 1;
      GuessesCount(w, sha, rs[..n], email, c, until);
      OneMoreGuess(RunFrom(w, sha, rs[..n]), sha, rs[n], email, c + n, until);
    }
  }

  /**
   "You have k attempts remaining" is exact: of further wrong codes, while counter and OTP last, the j-th is answered
   with k - j remaining as long as j < k, and the k-th with the lock of 900 seconds.
   */
  lemma {:induction false} AttemptsLeftAreExact(
      w: World, sha: string -> string, first: Request, rs: seq<Request>, next: Request, until: nat)
    requires first.Verify? && Serve(w, sha, first).1.WrongCode?
    requires var w' := Serve(w, sha, first).0;
      && Guessing(w', first.email, Count(w.redis, VerifyFailures(first.email), first.ver.count) + 1, until)
      && (forall j :: 0 <= j < |rs| ==> WrongGuessOf(w', sha, rs[j], first.email, until))
      && WrongGuessOf(w', sha, next, first.email, until)
    requires |rs| < Serve(w, sha, first).1.attemptsLeft
    ensures var (w', reply) := Serve(w, sha, first);
      Serve(RunFrom(w', sha, rs), sha, next).1 ==
        if |rs| + 1 < reply.attemptsLeft then WrongCode(reply.attemptsLeft - (|rs| + 1)) else Locked(900)
  {
    var w' := Serve(w, sha, first).0;
    var c := Count(w.redis, VerifyFailures(first.email), first.ver.count) + 1;
    GuessesCount(w', sha, rs, first.email, c, until);
    var at := RunFrom(w', sha, rs);
    if c + |rs| < 6 {
      OneMoreGuess(at, sha, next, first.email, c + |rs|, until);
    }
  }
}
