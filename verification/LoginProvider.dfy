/**
 The login handler of users-service: guard, lookup, comparison, counting, and session issue, with the proof
 that one call is a run of the interleaved counter of LoginGuard by a single login.
 */
module LoginProvider {
  import opened Wrappers
  import opened RedisStore
  import opened Accounts
  import Failures = FailureGuard
  import Guard = LoginGuard
  import Runs = CounterRun
  import Sessions

  /** One call: what the lookup and the comparison will say, and when its Redis commands run. */
  datatype Attempt = Attempt(
    identifier: string,
    account: Option<UserStatus>,
    passwordOk: bool,
    session: Sessions.Login,
    guard: nat, probe: nat, count: nat, extend: nat)

  datatype Answer =
    | Frozen(retryAfter: nat)
    | UnknownAccount
    | NotVerified
    | Suspended
    | WrongPassword(attemptsLeft: nat)
    | LoggedIn

  predicate InOrder(a: Attempt) {
    a.guard <= a.probe <= a.count <= a.extend
  }

  function Key(a: Attempt): CounterKey {
    LoginFailures(a.identifier)
  }

  /** A wrong password is counted; from the fifth on the answer is the freeze. */
  function CountWrong(s: Store, a: Attempt): (Store, Answer) {
    var n := Count(s, Key(a), a.count) + 1;
    (CountFailure(s, Key(a), Guard.MAX_FAILURES, Failures.LOCK_TTL, a.count, a.extend),
     if n >= Guard.MAX_FAILURES then Frozen(900) else WrongPassword(Guard.MAX_FAILURES - n))
  }

  function DoLogin(s: Store, a: Attempt): (Store, Answer) {
    if Count(s, Key(a), a.guard) >= Guard.MAX_FAILURES then
      (s, Frozen(RetryAfter(TimeLeft(s.counts, Key(a), a.probe), 900)))
    else match a.account
      case None => (s, UnknownAccount)
      case Some(PENDING) => (s, NotVerified)
      case Some(BLOCKED) => (s, Suspended)
      case Some(ACTIVE) =>
        if !a.passwordOk then CountWrong(s, a) else (DelCount(s, Key(a)), LoggedIn)
  }

  // ---------------------------------------------------------------------------------------------
  // One call is a run of the interleaved counter
  // ---------------------------------------------------------------------------------------------

  const ALONE: Failures.Policy := Guard.Logins(1)

  function Ending(s: Store, a: Attempt): seq<Failures.Event> {
    if Count(s, Key(a), a.guard) >= Guard.MAX_FAILURES then []
    else if a.account != Some(ACTIVE) then [Failures.Leave(0)]
    else if a.passwordOk then [Failures.CompareRight(0)] + Runs.Clearing(a.count)
    else [Failures.CompareWrong(0)] + Runs.Counting(ALONE, Count(s, Key(a), a.count) + 1, a.count, a.extend)
  }

  lemma {:induction false} EndingRun(s: Store, a: Attempt, g: Failures.State) returns (end: Failures.State)
    requires InOrder(a) && g.now == a.guard && g.counter == Runs.CounterAt(s, Key(a), a.guard)
    requires g.flight == map[0 := Failures.Guarded] && Count(s, Key(a), a.guard) < Guard.MAX_FAILURES
    ensures Failures.Leads(g, ALONE, Ending(s, a), end)
    ensures Runs.Agrees(end, DoLogin(s, a).0, Key(a))
  {
    if a.account != Some(ACTIVE) {
      Failures.LeadsOne(g, ALONE, Failures.Leave(0));
      end := Failures.Apply(g, ALONE, Failures.Leave(0));
    } else if a.passwordOk {
      var matched := Failures.Apply(g, ALONE, Failures.CompareRight(0));
      Failures.LeadsOne(g, ALONE, Failures.CompareRight(0));
      end := Runs.ClearingRun(ALONE, s, Key(a), a.count, matched);
      Failures.LeadsOn(g, ALONE, [Failures.CompareRight(0)], matched, Runs.Clearing(a.count), end);
    } else {
      var failed := Failures.Apply(g, ALONE, Failures.CompareWrong(0));
      Failures.LeadsOne(g, ALONE, Failures.CompareWrong(0));
      end := Runs.CountingRun(ALONE, s, Key(a), a.count, a.extend, failed);
      var counting := Runs.Counting(ALONE, Count(s, Key(a), a.count) + 1, a.count, a.extend);
      Failures.LeadsOn(g, ALONE, [Failures.CompareWrong(0)], failed, counting, end);
    }
  }

  /**
   A call of the handler, its commands in order, moves the counter exactly as a run of the interleaved
   machine by one login does, so the bound on wrong passwords covers any mix of such calls.
   */
  lemma {:induction false} LoginIsARun(s: Store, a: Attempt, m: Failures.State)
    requires InOrder(a) && Runs.Agrees(m, s, Key(a)) && m.now <= a.guard
    ensures var es := Runs.Opening(a.guard) + Ending(s, a);
      && Failures.Possible(m, ALONE, es)
      && Runs.Agrees(Failures.Exec(m, ALONE, es), DoLogin(s, a).0, Key(a))
  {
    var g := Runs.OpeningRun(ALONE, s, Key(a), a.guard, m);
    if Count(s, Key(a), a.guard) >= Guard.MAX_FAILURES {
      assert Runs.Opening(a.guard) + [] == Runs.Opening(a.guard);
    } else {
      var end := EndingRun(s, a, g);
      Failures.LeadsOn(m, ALONE, Runs.Opening(a.guard), g, Ending(s, a), end);
    }
  }

  // ---------------------------------------------------------------------------------------------
  // The code
  // ---------------------------------------------------------------------------------------------

  class Provider {
    const redis: Redis
    const sessions: Sessions.RedisSessions

    constructor (redis: Redis, sessions: Sessions.RedisSessions)
      ensures this.redis == redis && this.sessions == sessions
    {
      this.redis, this.sessions := redis, sessions;
    }

    method Login(a: Attempt) returns (answer: Answer)
      modifies redis, sessions
      ensures (redis.store, answer) == DoLogin(old(redis.store), a)
      ensures sessions.State() ==
        if Count(old(redis.store), LoginFailures(a.identifier), a.guard) < 5
          && a.account == Some(ACTIVE) && a.passwordOk
        then Sessions.Save(old(sessions.State()), Sessions.DEFAULTS, a.session)
        else old(sessions.State())
    {
      var currentAttempts := redis.GetCount(Key(a), a.guard);
      if currentAttempts >= 5 {
        var ttl := redis.CountTtl(Key(a), a.probe);
        return Frozen(if ttl > 0 then ttl else 900);
      }
      if a.account == None {
        return UnknownAccount;
      }
      if a.account == Some(PENDING) {
        return NotVerified;
      }
      if a.account == Some(BLOCKED) {
        return Suspended;
      }
      if !a.passwordOk {
        var attempts := redis.Increment(Key(a), a.count);
        if attempts == 1 || attempts >= 5 {
          redis.ExpireCount(Key(a), 900, a.extend);
        }
        if attempts >= 5 {
          return Frozen(900);
        }
        return WrongPassword(5 - attempts);
      }
      redis.DeleteCount(Key(a));
      sessions.SaveSessionWithEviction(a.session, Sessions.DEFAULTS);
      answer := LoggedIn;
    }
  }
}
