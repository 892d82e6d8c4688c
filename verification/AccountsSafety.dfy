/**
 What holds in every serialised run of registrations, resends and verifications: the guess bounds, the
 lock, the agreement between the live OTP and the mailed code, and the atomicity of registration.
 */
module AccountsSafety {
  import opened Wrappers
  import opened RedisStore
  import opened Accounts

  // ---------------------------------------------------------------------------------------------
  // Reading the history
  // ---------------------------------------------------------------------------------------------

  predicate IssueFor(m: Mark, email: string) {
    m.Issued? && m.email == email
  }

  predicate GuessFor(m: Mark, email: string) {
    m.WrongGuess? && m.email == email
  }

  function LastIssue(h: seq<Mark>, email: string): Option<Mark> {
    if h == [] then None
    else if IssueFor(h[|h| - 1], email) then Some(h[|h| - 1])
    else LastIssue(h[..|h| - 1], email)
  }

  /** The code of the latest issue whose outbox row was committed. */
  function LastQueued(h: seq<Mark>, email: string): Option<string> {
    if h == [] then None
    else if IssueFor(h[|h| - 1], email) && h[|h| - 1].queued then Some(h[|h| - 1].code)
    else LastQueued(h[..|h| - 1], email)
  }

  /** Wrong codes compared since the latest issue. */
  function Wrongs(h: seq<Mark>, email: string): nat {
    if h == [] then 0
    else if IssueFor(h[|h| - 1], email) then 0
    else Wrongs(h[..|h| - 1], email) + (if GuessFor(h[|h| - 1], email) then 1 else 0)
  }

  /** The code in the newest verification row for `email`. */
  function NewestCode(rows: seq<OutboxRow>, email: string): Option<string> {
    if rows == [] then None
    else
      var r := rows[|rows| - 1];
      if r.VerificationEmail? && r.email == email then Some(r.code)
      else NewestCode(rows[..|rows| - 1], email)
  }

  /** The instant of the latest mark for `email`. */
  function LastAt(h: seq<Mark>, email: string): nat {
    if h == [] then 0
    else if h[|h| - 1].email == email then h[|h| - 1].at
    else LastAt(h[..|h| - 1], email)
  }

  /** Marks of one email follow one another, issues at least the cooldown apart, and guesses stay bounded. */
  predicate Paced(h: seq<Mark>, email: string) {
    h == [] ||
    var n := |h| - 1;
    && Paced(h[..n], email)
    && Wrongs(h, email) <= MAX_FAILURES
    && (h[n].email == email ==> LastAt(h[..n], email) <= h[n].at)
    && (IssueFor(h[n], email) && LastIssue(h[..n], email).Some? ==>
         LastIssue(h[..n], email).value.at + Seconds(COOLDOWN_TTL) <= h[n].at)
    && (GuessFor(h[n], email) ==> LastIssue(h[..n], email).Some?)
  }

  lemma {:induction false} OneMoreMark(h: seq<Mark>, m: Mark, email: string)
    ensures LastIssue(h + [m], email) == if IssueFor(m, email) then Some(m) else LastIssue(h, email)
    ensures LastQueued(h + [m], email) ==
      if IssueFor(m, email) && m.queued then Some(m.code) else LastQueued(h, email)
    ensures Wrongs(h + [m], email) ==
      if IssueFor(m, email) then 0 else Wrongs(h, email) + (if GuessFor(m, email) then 1 else 0)
    ensures LastAt(h + [m], email) == if m.email == email then m.at else LastAt(h, email)
    ensures m.email != email ==> Paced(h + [m], email) == (Paced(h, email) && Wrongs(h, email) <= MAX_FAILURES)
    ensures m.email == email && Paced(h, email) && LastAt(h, email) <= m.at
      && (m.Issued? && LastIssue(h, email).Some? ==>
           LastIssue(h, email).value.at + Seconds(COOLDOWN_TTL) <= m.at)
      && (m.WrongGuess? ==> LastIssue(h, email).Some? && Wrongs(h, email) < MAX_FAILURES)
      ==> Paced(h + [m], email)
  {
    assert (h + [m])[..|h|] == h;
  }

  // ---------------------------------------------------------------------------------------------
  // One email's view of the world
  // ---------------------------------------------------------------------------------------------

  function At<K, V>(m: map<K, V>, k: K): Option<V> {
    if k in m then Some(m[k]) else None
  }

  datatype View = View(
    otp: Option<Entry<string>>,
    cooldown: Option<Entry<string>>,
    fails: Option<Entry<nat>>,
    user: Option<User>,
    issue: Option<Mark>,
    wrongs: nat,
    lastAt: nat,
    queued: Option<string>,
    newest: Option<string>,
    paced: bool)

  function ViewOf(w: World, email: string): View {
    View(At(w.redis.texts, Otp(email)), At(w.redis.texts, Cooldown(email)),
         At(w.redis.counts, VerifyFailures(email)), At(w.users, email),
         LastIssue(w.history, email), Wrongs(w.history, email), LastAt(w.history, email),
         LastQueued(w.history, email), NewestCode(w.outbox, email), Paced(w.history, email))
  }

  /** What of the view is read from Redis and from the users table. */
  predicate SameStored(w: World, w': World, email: string) {
    && At(w.redis.texts, Otp(email)) == At(w'.redis.texts, Otp(email))
    && At(w.redis.texts, Cooldown(email)) == At(w'.redis.texts, Cooldown(email))
    && At(w.redis.counts, VerifyFailures(email)) == At(w'.redis.counts, VerifyFailures(email))
    && At(w.users, email) == At(w'.users, email)
  }

  /** At most one mark and only rows of its own email are added by a request. */
  lemma {:induction false} ServeAppends(
      w: World, sha: string -> string, r: Request) returns (m: Option<Mark>, more: seq<OutboxRow>)
    ensures m.Some? ==> m.value.email == r.email
    ensures Serve(w, sha, r).0.history == w.history + (if m.Some? then [m.value] else [])
    ensures Serve(w, sha, r).0.outbox == w.outbox + more
    ensures forall k :: 0 <= k < |more| && more[k].VerificationEmail? ==> more[k].email == r.email
  {
    var w' := Serve(w, sha, r).0;
    m := if w'.history == w.history then None else Some(w'.history[|w.history|]);
    more := w'.outbox[|w.outbox|..];
  }

  lemma {:induction false} OthersKeepStored(w: World, sha: string -> string, r: Request, email: string)
    requires r.email != email
    ensures SameStored(w, Serve(w, sha, r).0, email)
  {
    match r
    case Register(_, _, _, _, _, _, _, _) => RegisterKeepsOthers(w, sha, r, email);
    case Resend(_, _, _, _) => ResendKeepsOthers(w, sha, r, email);
    case Verify(_, _, _, _) => VerifyKeepsOthers(w, sha, r, email);
  }

  lemma {:induction false} RegisterKeepsOthers(w: World, sha: string -> string, r: Request, email: string)
    requires r.Register? && r.email != email
    ensures SameStored(w, DoRegister(w, sha, r).0, email)
  {
  }

  lemma {:induction false} ResendKeepsOthers(w: World, sha: string -> string, r: Request, email: string)
    requires r.Resend? && r.email != email
    ensures SameStored(w, DoResend(w, sha, r).0, email)
  {
  }

  lemma {:induction false} VerifyKeepsOthers(w: World, sha: string -> string, r: Request, email: string)
    requires r.Verify? && r.email != email
    ensures SameStored(w, DoVerify(w, sha, r).0, email)
  {
  }

  lemma {:induction false} PacedIsBounded(h: seq<Mark>, email: string)
    requires Paced(h, email)
    ensures Wrongs(h, email) <= MAX_FAILURES
  {
  }

  /** A request for another email leaves this email's view alone. */
  lemma {:induction false} OthersDoNotShow(w: World, sha: string -> string, r: Request, email: string)
    requires r.email != email && Paced(w.history, email)
    ensures ViewOf(Serve(w, sha, r).0, email) == ViewOf(w, email)
  {
    OthersKeepStored(w, sha, r, email);
    var m, more := ServeAppends(w, sha, r);
    NewestSkipsOthers(w.outbox, more, email);
    PacedIsBounded(w.history, email);
    if m.Some? { OneMoreMark(w.history, m.value, email); }
    assert w.history + [] == w.history;
  }

  lemma {:induction false} NewestSkipsOthers(rows: seq<OutboxRow>, more: seq<OutboxRow>, email: string)
    requires forall k :: 0 <= k < |more| ==> !(more[k].VerificationEmail? && more[k].email == email)
    ensures NewestCode(rows + more, email) == NewestCode(rows, email)
  {
    if more == [] {
      assert rows + more == rows;
    } else {
      var n := |more| - 1;
      NewestSkipsOthers(rows, more[..n], email);
      assert (rows + more)[..|rows + more| - 1] == rows + more[..n];
    }
  }

  // ---------------------------------------------------------------------------------------------
  // The invariant of one email, at the end `t` of its last request
  // ---------------------------------------------------------------------------------------------

  /** Before registration there is no trace of the email except, perhaps, a cooldown. */
  predicate Unknown(v: View) {
    v.otp.None? && v.fails.None? && v.issue.None? && v.wrongs == 0 && v.queued.None? && v.newest.None?
  }

  /** An OTP still usable at `t` has a counter that has counted every guess against it and outlives it. */
  predicate Guarded(v: View, t: nat)
    requires v.issue.Some? && v.issue.value.Issued?
  {
    v.otp.Some? && t < v.issue.value.at + Seconds(OTP_TTL) ==>
      && v.wrongs < MAX_FAILURES
      && (v.wrongs == 0 ==> v.fails.None? || !Live(v.fails.value, t))
      && (v.wrongs > 0 ==>
           && v.fails.Some? && v.fails.value.value == v.wrongs && v.fails.value.expiresAt.Some?
           && v.issue.value.at + Seconds(LOCK_TTL) <= v.fails.value.expiresAt.value)
  }

  predicate Good(v: View, sha: string -> string, t: nat) {
    && v.paced && v.wrongs <= MAX_FAILURES && v.lastAt <= t
    && v.newest == v.queued
    && (v.user.None? ==> Unknown(v))
    && (v.user.Some? ==>
         && !v.user.value.status.BLOCKED?
         && v.issue.Some? && v.issue.value.Issued? && v.issue.value.at <= t
         && v.queued.Some?
         && v.cooldown.Some? && v.cooldown.value.value == "1" && v.cooldown.value.expiresAt.Some?
         && v.issue.value.at + Seconds(COOLDOWN_TTL) <= v.cooldown.value.expiresAt.value
         && Guarded(v, t)
         && (v.otp.Some? ==>
              && v.user.value.status.PENDING?
              && v.otp.value == Entry(sha(v.issue.value.code), Some(v.issue.value.at + Seconds(OTP_TTL)))))
    && (v.fails.Some? ==> v.fails.value.expiresAt.Some?)
  }

  lemma {:induction false} LaterIsGood(v: View, sha: string -> string, t: nat, later: nat)
    requires Good(v, sha, t) && t <= later
    ensures Good(v, sha, later)
  {
  }

  /** The view right after an OTP and its cooldown are stored and its row, if any, committed. */
  lemma {:induction false} IssuedIsGood(v: View, v': View, sha: string -> string, m: Mark, coolUntil: nat, t: nat)
    requires v.paced && v.wrongs <= MAX_FAILURES
    requires m.Issued? && v.lastAt <= m.at <= t && m.at + Seconds(COOLDOWN_TTL) <= coolUntil
    requires v'.otp == Some(Entry(sha(m.code), Some(m.at + Seconds(OTP_TTL))))
    requires v'.cooldown == Some(Entry("1", Some(coolUntil)))
    requires v'.fails.None?
    requires v'.user.Some? && v'.user.value.status.PENDING?
    requires v'.issue == Some(m) && v'.wrongs == 0 && v'.lastAt == m.at && v'.paced
    requires v'.newest == v'.queued && v'.queued.Some?
    ensures Good(v', sha, t)
  {
  }

  lemma {:induction false} RegisterKeepsGood(w: World, sha: string -> string, r: Request, t: nat)
    requires r.Register? && InOrder(r) && t <= From(r) && Good(ViewOf(w, r.email), sha, t)
    ensures Good(ViewOf(DoRegister(w, sha, r).0, r.email), sha, To(r))
  {
    if DoRegister(w, sha, r).1.Registered? {
      RegisteredIsGood(w, sha, r, t);
    } else {
      FailedRegistrationIsGood(w, sha, r, t);
    }
  }

  /** A failed registration changes at most the cooldown and the token; it leaves no OTP it did not find. */
  lemma {:induction false} FailedRegistrationStores(w: World, sha: string -> string, r: Request)
    requires r.Register? && !DoRegister(w, sha, r).1.Registered?
    ensures var w' := DoRegister(w, sha, r).0;
      && w' == w.(redis := w'.redis) && w'.redis.counts == w.redis.counts
      && (w' == w || (r.email !in w.users && Otp(r.email) !in w'.redis.texts))
  {
  }

  lemma {:induction false} FailedRegistrationIsGood(w: World, sha: string -> string, r: Request, t: nat)
    requires r.Register? && InOrder(r) && t <= From(r) && Good(ViewOf(w, r.email), sha, t)
    requires !DoRegister(w, sha, r).1.Registered?
    ensures Good(ViewOf(DoRegister(w, sha, r).0, r.email), sha, To(r))
  {
    var w' := DoRegister(w, sha, r).0;
    FailedRegistrationStores(w, sha, r);
    LaterIsGood(ViewOf(w, r.email), sha, t, To(r));
    if w' != w {
      assert ViewOf(w', r.email) == ViewOf(w, r.email).(cooldown := ViewOf(w', r.email).cooldown);
    }
  }

  lemma {:induction false} RegisteredStores(w: World, sha: string -> string, r: Request)
    requires r.Register? && DoRegister(w, sha, r).1.Registered?
    ensures r.email !in w.users
    ensures var w' := DoRegister(w, sha, r).0;
      && At(w'.redis.texts, Otp(r.email)) == Some(Entry(sha(r.code), Some(r.reg.otp + Seconds(OTP_TTL))))
      && At(w'.redis.texts, Cooldown(r.email)) == Some(Entry("1", Some(r.reg.mark + Seconds(COOLDOWN_TTL))))
      && w'.redis.counts == w.redis.counts
      && At(w'.users, r.email) == Some(User(r.username, PENDING, PhotoPath(r)))
      && w'.outbox == w.outbox + RegistrationRows(r)
      && w'.history == w.history + [Issued(r.email, r.reg.otp, r.code, true)]
  {
  }

  lemma {:induction false} RegisteredIsGood(w: World, sha: string -> string, r: Request, t: nat)
    requires r.Register? && InOrder(r) && t <= From(r) && Good(ViewOf(w, r.email), sha, t)
    requires DoRegister(w, sha, r).1.Registered?
    ensures Good(ViewOf(DoRegister(w, sha, r).0, r.email), sha, To(r))
  {
    var w' := DoRegister(w, sha, r).0;
    var m := Issued(r.email, r.reg.otp, r.code, true);
    RegisteredStores(w, sha, r);
    OneMoreMark(w.history, m, r.email);
    NewestIsRegistered(w.outbox, r);
    IssuedIsGood(ViewOf(w, r.email), ViewOf(w', r.email), sha, m, r.reg.mark + Seconds(COOLDOWN_TTL), To(r));
  }

  lemma {:induction false} NewestIsRegistered(rows: seq<OutboxRow>, r: Request)
    requires r.Register?
    ensures NewestCode(rows + RegistrationRows(r), r.email) == Some(r.code)
  {
    var first := VerificationEmail(r.email, r.code, r.username);
    var after := RegistrationRows(r)[1..];
    assert rows + RegistrationRows(r) == (rows + [first]) + after;
    NewestSkipsOthers(rows + [first], after, r.email);
  }

  /** What a resend that gets as far as its OTP stores, whether or not its row commits. */
  lemma {:induction false} ResentStores(w: World, sha: string -> string, r: Request)
    requires r.Resend? && DoResend(w, sha, r).0.history != w.history
    ensures r.email in w.users && w.users[r.email].status.PENDING?
    ensures !Truthy(Get(w.redis, Cooldown(r.email), r.res.cool))
    ensures var w' := DoResend(w, sha, r).0;
      && At(w'.redis.texts, Otp(r.email)) == Some(Entry(sha(r.code), Some(r.res.otp + Seconds(OTP_TTL))))
      && At(w'.redis.texts, Cooldown(r.email)) == Some(Entry("1", Some(r.res.mark + Seconds(COOLDOWN_TTL))))
      && VerifyFailures(r.email) !in w'.redis.counts
      && w'.users == w.users
      && w'.outbox == w.outbox
           + (if r.queued then [VerificationEmail(r.email, r.code, w.users[r.email].username)] else [])
      && w'.history == w.history + [Issued(r.email, r.res.otp, r.code, r.queued)]
  {
  }

  lemma {:induction false} NewestAfterResend(
      rows: seq<OutboxRow>, email: string, code: string, username: string, queued: bool)
    ensures NewestCode(rows + (if queued then [VerificationEmail(email, code, username)] else []), email)
      == if queued then Some(code) else NewestCode(rows, email)
  {
    if queued {
      assert (rows + [VerificationEmail(email, code, username)])[..|rows|] == rows;
    } else {
      assert rows + [] == rows;
    }
  }

  lemma {:induction false} ResentIsGood(w: World, sha: string -> string, r: Request, t: nat)
    requires r.Resend? && InOrder(r) && t <= From(r) && Good(ViewOf(w, r.email), sha, t)
    requires DoResend(w, sha, r).0.history != w.history
    ensures Good(ViewOf(DoResend(w, sha, r).0, r.email), sha, To(r))
  {
    var v := ViewOf(w, r.email);
    var m := Issued(r.email, r.res.otp, r.code, r.queued);
    ResentStores(w, sha, r);
    assert v.cooldown.value.expiresAt.value <= r.res.cool;
    OneMoreMark(w.history, m, r.email);
    NewestAfterResend(w.outbox, r.email, r.code, w.users[r.email].username, r.queued);
    IssuedIsGood(v, ViewOf(DoResend(w, sha, r).0, r.email), sha, m, r.res.mark + Seconds(COOLDOWN_TTL), To(r));
  }

  lemma {:induction false} ResendKeepsGood(w: World, sha: string -> string, r: Request, t: nat)
    requires r.Resend? && InOrder(r) && t <= From(r) && Good(ViewOf(w, r.email), sha, t)
    ensures Good(ViewOf(DoResend(w, sha, r).0, r.email), sha, To(r))
  {
    if DoResend(w, sha, r).0.history != w.history {
      ResentIsGood(w, sha, r, t);
    } else {
      LaterIsGood(ViewOf(w, r.email), sha, t, To(r));
      assert DoResend(w, sha, r).0 == w;
    }
  }

  /** The counter after a wrong code: it has an expiry, and keeps the one it had until the seventh failure. */
  lemma {:induction false} FailCounts(w: World, sha: string -> string, r: Request)
    requires r.Verify? && InOrder(r)
    requires var f := At(w.redis.counts, VerifyFailures(r.email)); f.Some? ==> f.value.expiresAt.Some?
    ensures var n := Count(w.redis, VerifyFailures(r.email), r.ver.count) + 1;
      var f := At(Fail(w, r).0.redis.counts, VerifyFailures(r.email));
      && f.Some? && f.value.value == n && f.value.expiresAt.Some?
      && (!Has(w.redis.counts, VerifyFailures(r.email), r.ver.count) ==>
           f.value.expiresAt.value == r.ver.extend + Seconds(LOCK_TTL))
      && (1 < n < MAX_FAILURES ==> f.value.expiresAt == w.redis.counts[VerifyFailures(r.email)].expiresAt)
  {
  }

  /** The rest of the view: the seventh failure removes the OTP, and the guess is noted. */
  lemma {:induction false} FailLeaves(w: World, sha: string -> string, r: Request)
    requires r.Verify?
    ensures var n := Count(w.redis, VerifyFailures(r.email), r.ver.count) + 1;
      var v := ViewOf(w, r.email);
      var v' := ViewOf(Fail(w, r).0, r.email);
      v' == v.(otp := if n >= MAX_FAILURES then None else v.otp, fails := v'.fails,
               wrongs := v.wrongs + 1, lastAt := r.ver.read, paced := v'.paced)
    ensures Fail(w, r).0.history == w.history + [WrongGuess(r.email, r.ver.read)]
  {
    OneMoreMark(w.history, WrongGuess(r.email, r.ver.read), r.email);
  }

  /** A guess that is compared finds the OTP alive, so the counter has counted every earlier one. */
  lemma {:induction false} FailKeepsGood(w: World, sha: string -> string, r: Request, t: nat)
    requires r.Verify? && InOrder(r) && t <= From(r) && Good(ViewOf(w, r.email), sha, t)
    requires Get(w.redis, Otp(r.email), r.ver.read).Some?
    ensures Good(ViewOf(Fail(w, r).0, r.email), sha, To(r))
  {
    var v := ViewOf(w, r.email);
    var v' := ViewOf(Fail(w, r).0, r.email);
    LaterIsGood(v, sha, t, r.ver.read);
    FailCounts(w, sha, r);
    FailLeaves(w, sha, r);
    OneMoreMark(w.history, WrongGuess(r.email, r.ver.read), r.email);
    CountedIsGood(v, v', sha, r, Count(w.redis, VerifyFailures(r.email), r.ver.count) + 1);
  }

  lemma {:induction false} CountedIsGood(v: View, v': View, sha: string -> string, r: Request, n: nat)
    requires r.Verify? && InOrder(r) && Good(v, sha, r.ver.read)
    requires v.otp.Some? && Live(v.otp.value, r.ver.read)
    requires n == 1 + (if v.fails.Some? && Live(v.fails.value, r.ver.count) then v.fails.value.value else 0)
    requires v' == v.(otp := if n >= MAX_FAILURES then None else v.otp, fails := v'.fails,
                      wrongs := v.wrongs + 1, lastAt := r.ver.read, paced := v'.paced)
    requires v.paced && v.lastAt <= r.ver.read && v.issue.Some? && v.wrongs < MAX_FAILURES ==> v'.paced
    requires v'.fails.Some? && v'.fails.value.value == n && v'.fails.value.expiresAt.Some?
    requires v.fails.None? || !Live(v.fails.value, r.ver.count) ==>
      v'.fails.value.expiresAt.value == r.ver.extend + Seconds(LOCK_TTL)
    requires 1 < n < MAX_FAILURES ==> v.fails.Some? && v'.fails.value.expiresAt == v.fails.value.expiresAt
    ensures Good(v', sha, To(r))
  {
    assert Guarded(v, r.ver.read);
  }

  lemma {:induction false} VerifyKeepsGood(w: World, sha: string -> string, r: Request, t: nat)
    requires r.Verify? && InOrder(r) && t <= From(r) && Good(ViewOf(w, r.email), sha, t)
    ensures Good(ViewOf(DoVerify(w, sha, r).0, r.email), sha, To(r))
  {
    var otp := Get(w.redis, Otp(r.email), r.ver.read);
    LaterIsGood(ViewOf(w, r.email), sha, t, To(r));
    if Truthy(otp) && sha(r.input) != otp.value {
      FailKeepsGood(w, sha, r, t);
    }
  }

  lemma {:induction false} RunIsGood(sha: string -> string, rs: seq<Request>, email: string)
    requires Serialised(rs)
    ensures Good(ViewOf(Run(sha, rs), email), sha, LastEnd(rs, email))
    decreases |rs|
  {
    if rs != [] {
      var n := |rs| - 1;
      var w := Run(sha, rs[..n]);
      var r := rs[n];
      RunIsGood(sha, rs[..n], email);
      if r.email != email {
        OthersDoNotShow(w, sha, r, email);
      } else {
        var t := LastEnd(rs[..n], email);
        match r
        case Register(_, _, _, _, _, _, _, _) => RegisterKeepsGood(w, sha, r, t);
        case Resend(_, _, _, _) => ResendKeepsGood(w, sha, r, t);
        case Verify(_, _, _, _) => VerifyKeepsGood(w, sha, r, t);
      }
    }
  }
}
