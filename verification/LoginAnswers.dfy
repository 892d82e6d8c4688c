/** What the answers of a login mean: when each is given, and what the number in a wrong password promises. */
module LoginAnswers {
  import opened Wrappers
  import opened RedisStore
  import opened Accounts
  import opened LoginProvider

  predicate FrozenAt(s: Store, a: Attempt) {
    Count(s, LoginFailures(a.identifier), a.guard) >= 5
  }

  /** A login succeeds exactly when the identifier is not frozen, the account is ACTIVE, and the password is right. */
  lemma {:induction false} LoggedInExactly(s: Store, a: Attempt)
    ensures DoLogin(s, a).1.LoggedIn? <==>
      Count(s, LoginFailures(a.identifier), a.guard) < 5 && a.account == Some(ACTIVE) && a.passwordOk
  {
  }

  /** Each other answer is given exactly for its reason; only a wrong password and a success touch the counter. */
  lemma {:induction false} OtherAnswers(s: Store, a: Attempt)
    ensures var (s', answer) := DoLogin(s, a);
      var open := !FrozenAt(s, a);
      var wrong := open && a.account == Some(ACTIVE) && !a.passwordOk;
      var failures := Count(s, LoginFailures(a.identifier), a.count);
      && (answer.UnknownAccount? <==> open && a.account == None)
      && (answer.NotVerified? <==> open && a.account == Some(PENDING))
      && (answer.Suspended? <==> open && a.account == Some(BLOCKED))
      && (answer.WrongPassword? <==> wrong && failures + 1 < 5)
      && (answer.Frozen? <==> !open || (wrong && failures + 1 >= 5))
      && (!open ==> Announces(s.counts, LoginFailures(a.identifier), a.probe, 900, answer.retryAfter))
      && (wrong && answer.Frozen? ==> answer.retryAfter == 900)
      && (!wrong && !answer.LoggedIn? ==> s' == s)
  {
    DelayIsAnnounced(s.counts, LoginFailures(a.identifier), a.probe, 900);
  }

  // ---------------------------------------------------------------------------------------------
  // The attempts remaining
  // ---------------------------------------------------------------------------------------------

  /** The identifier has `c` counted failures until `until` at least. */
  predicate Counted(s: Store, identifier: string, c: nat, until: nat) {
    && LoginFailures(identifier) in s.counts && s.counts[LoginFailures(identifier)].value == c
    && s.counts[LoginFailures(identifier)].expiresAt.Some?
    && until <= s.counts[LoginFailures(identifier)].expiresAt.value
  }

  predicate WrongBefore(a: Attempt, identifier: string, until: nat) {
    && a.identifier == identifier && a.account == Some(ACTIVE) && !a.passwordOk
    && LoginProvider.InOrder(a) && a.extend < until
  }

  function ServeLogins(s: Store, attempts: seq<Attempt>): Store {
    if attempts == [] then s
    else DoLogin(ServeLogins(s, attempts[..|attempts| - 1]), attempts[|attempts| - 1]).0
  }

  lemma {:induction false} OneMoreFailure(s: Store, a: Attempt, identifier: string, c: nat, until: nat)
    requires Counted(s, identifier, c, until) && 0 < c < 5 && WrongBefore(a, identifier, until)
    ensures c < 4 ==> Counted(DoLogin(s, a).0, identifier, c + 1, until)
    ensures DoLogin(s, a).1 == if c + 1 < 5 then WrongPassword(5 - (c + 1)) else Frozen(900)
  {
  }

  lemma {:induction false} FailuresCount(s: Store, attempts: seq<Attempt>, identifier: string, c: nat, until: nat)
    requires Counted(s, identifier, c, until) && 0 < c && c + |attempts| < 5
    requires forall j :: 0 <= j < |attempts| ==> WrongBefore(attempts[j], identifier, until)
    ensures Counted(ServeLogins(s, attempts), identifier, c + |attempts|, until)
    decreases |attempts|
  {
    if attempts != [] {
      var n := |attempts| - 1;
      FailuresCount(s, attempts[..n], identifier, c, until);
      OneMoreFailure(ServeLogins(s, attempts[..n]), attempts[n], identifier, c + n, until);
    }
  }

  /**
   "You have k attempts remaining" is exact: of further wrong passwords within the life of the counter the j-th is
   answered with k - j remaining as long as j < k, and the k-th with the freeze of 900 seconds.
   */
  lemma {:induction false} AttemptsLeftAreExact(
      s: Store, first: Attempt, attempts: seq<Attempt>, next: Attempt, until: nat)
    requires DoLogin(s, first).1.WrongPassword? && |attempts| < DoLogin(s, first).1.attemptsLeft
    requires Counted(DoLogin(s, first).0, first.identifier,
                     Count(s, LoginFailures(first.identifier), first.count) + 1, until)
    requires forall j :: 0 <= j < |attempts| ==> WrongBefore(attempts[j], first.identifier, until)
    requires WrongBefore(next, first.identifier, until)
    ensures var (s', answer) := DoLogin(s, first);
      DoLogin(ServeLogins(s', attempts), next).1 ==
        if |attempts| + 1 < answer.attemptsLeft then WrongPassword(answer.attemptsLeft - (|attempts| + 1))
        else Frozen(900)
  {
    var s' := DoLogin(s, first).0;
    var c := Count(s, LoginFailures(first.identifier), first.count) + 1;
    FailuresCount(s', attempts, first.identifier, c, until);
    OneMoreFailure(ServeLogins(s', attempts), next, first.identifier, c + |attempts|, until);
  }
}
