/**
 The rejections of users-service as the texts it prints, and what the gateway makes of them: the client is
 told the very delay the service computed, in clean text, and the delay is positive.
 */
module Messages {
  import opened RedisStore
  import opened RetryTag
  import opened Accounts
  import LoginProvider

  const VERIFY_LOCKED: string := "Too many failed verification attempts. Please try again after 15 minutes."
  const RESEND_LOCKED: string :=
    "Account is temporarily locked due to too many failed attempts. Please try again after 15 minutes."
  const LOGIN_LOCKED: string := "Too many failed login attempts. Please try again after 15 minutes."
  const WAIT: string := "Please wait "
  const BEFORE: string := " seconds before requesting a new verification code."

  function CooldownText(n: nat): string {
    WAIT + Print(n) + BEFORE
  }

  /** The text of a rejected request, before its tag. */
  function TextOf(r: Request, reply: Reply): string
    requires reply.Locked? || reply.CoolingDown?
  {
    if reply.CoolingDown? then CooldownText(reply.retryAfter)
    else if r.Resend? then RESEND_LOCKED
    else VERIFY_LOCKED
  }

  /** A piece of text without a bracket. */
  predicate Clean(s: string) {
    s != [] && '[' !in s
  }

  /** Clean pieces make a clean text that begins and ends as they do. */
  lemma {:induction false} Join(a: string, b: string)
    requires Clean(a) && Clean(b)
    ensures Clean(a + b) && (a + b)[0] == a[0] && (a + b)[|a + b| - 1] == b[|b| - 1]
  {
  }

  /** A clean text that begins with `c`; the proofs read the literals piece by piece. */
  predicate Opens(s: string, c: char) {
    Clean(s) && s[0] == c
  }

  lemma {:induction false} VerifyTextIsClean()
    ensures Clean(VERIFY_LOCKED) && Trimmed(VERIFY_LOCKED)
  {
    assert Opens("Too many ", 'T');
    assert Opens("Too many failed ", 'T');
    assert Opens("Too many failed verification ", 'T');
    assert Opens("Too many failed verification attempts. ", 'T');
    assert Opens("Too many failed verification attempts. Please try ", 'T');
    assert Opens("Too many failed verification attempts. Please try again after ", 'T');
    assert Opens(VERIFY_LOCKED, 'T');
  }

  lemma {:induction false} ResendTextIsClean()
    ensures Clean(RESEND_LOCKED) && Trimmed(RESEND_LOCKED)
  {
    assert Opens("Account is ", 'A');
    assert Opens("Account is temporarily ", 'A');
    assert Opens("Account is temporarily locked due to ", 'A');
    assert Opens("Account is temporarily locked due to too many ", 'A');
    assert Opens("Account is temporarily locked due to too many failed ", 'A');
    assert Opens("Account is temporarily locked due to too many failed attempts. ", 'A');
    assert Opens("Account is temporarily locked due to too many failed attempts. Please try ", 'A');
    assert Opens("Account is temporarily locked due to too many failed attempts. Please try again after ", 'A');
    assert Opens(RESEND_LOCKED, 'A');
  }

  lemma {:induction false} LoginTextIsClean()
    ensures Clean(LOGIN_LOCKED) && Trimmed(LOGIN_LOCKED)
  {
    assert Opens("Too many ", 'T');
    assert Opens("Too many failed login ", 'T');
    assert Opens("Too many failed login attempts. ", 'T');
    assert Opens("Too many failed login attempts. Please try ", 'T');
    assert Opens("Too many failed login attempts. Please try again after ", 'T');
    assert Opens(LOGIN_LOCKED, 'T');
  }

  lemma {:induction false} BeforeIsClean()
    ensures Clean(BEFORE) && BEFORE[|BEFORE| - 1] == '.'
  {
    assert Opens(" seconds ", ' ');
    assert Opens(" seconds before ", ' ');
    assert Opens(" seconds before requesting ", ' ');
    assert Opens(" seconds before requesting a new ", ' ');
    assert Opens(" seconds before requesting a new verification ", ' ');
    assert Opens(BEFORE, ' ');
  }

  lemma {:induction false} CooldownTextIsClean(n: nat)
    ensures Clean(CooldownText(n)) && Trimmed(CooldownText(n))
  {
    BeforeIsClean();
    assert Clean(WAIT) && WAIT[0] == 'P';
    forall i | 0 <= i < |Print(n)| ensures Print(n)[i] != '[' { assert IsDigit(Print(n)[i]); }
    Join(WAIT, Print(n));
    Join(WAIT + Print(n), BEFORE);
  }

  /** The text of every rejection is trimmed and tag-free. */
  lemma {:induction false} TextIsClean(r: Request, reply: Reply)
    requires reply.Locked? || reply.CoolingDown?
    ensures Clean(TextOf(r, reply)) && Trimmed(TextOf(r, reply))
  {
    if reply.CoolingDown? { CooldownTextIsClean(reply.retryAfter); }
    VerifyTextIsClean();
    ResendTextIsClean();
  }

  lemma {:induction false} DelayIsPositive(w: World, sha: string -> string, r: Request)
    requires var reply := Serve(w, sha, r).1; reply.Locked? || reply.CoolingDown?
    ensures Serve(w, sha, r).1.retryAfter > 0
  {
  }

  lemma {:induction false} CleanTextRoundTrip(text: string, n: nat, default: nat)
    requires Clean(text) && Trimmed(text)
    ensures HandleRateLimitError(Tagged(text, n), default) == Response(text, n)
  {
    NoBracketNoTag(text);
    RetryAfterRoundTrip(text, n, default);
  }

  /** The message on the wire: the text, and the number of seconds in its tag. */
  function OnTheWire(text: string, n: nat): string {
    text + " [Retry-After: " + Print(n) + "]"
  }

  lemma {:induction false} WireIsTagged(text: string, n: nat)
    ensures OnTheWire(text, n) == Tagged(text, n)
  {
    assert " " + OPEN + " " == " [Retry-After: ";
    assert Tagged(text, n) == text + (" " + OPEN + " ") + Print(n) + "]";
  }

  /**
   Whenever verification or resend rejects a request for a time, the gateway answers with a positive number
   of seconds, the one the service computed, whatever default its endpoint has, and with the bare text.
   */
  lemma {:induction false} RejectionReachesTheClient(w: World, sha: string -> string, r: Request, default: nat)
    requires var reply := Serve(w, sha, r).1; reply.Locked? || reply.CoolingDown?
    ensures var reply := Serve(w, sha, r).1;
      var text :=
        if reply.CoolingDown? then
          "Please wait " + Print(reply.retryAfter) + " seconds before requesting a new verification code."
        else if r.Resend? then
          "Account is temporarily locked due to too many failed attempts. Please try again after 15 minutes."
        else "Too many failed verification attempts. Please try again after 15 minutes.";
      && reply.retryAfter > 0
      && TextOf(r, reply) == text
      && HandleRateLimitError(OnTheWire(TextOf(r, reply), reply.retryAfter), default)
           == Response(text, reply.retryAfter)
  {
    var reply := Serve(w, sha, r).1;
    DelayIsPositive(w, sha, r);
    TextIsClean(r, reply);
    WireIsTagged(TextOf(r, reply), reply.retryAfter);
    CleanTextRoundTrip(TextOf(r, reply), reply.retryAfter, default);
  }

  lemma {:induction false} FreezeIsPositive(s: Store, a: LoginProvider.Attempt)
    requires LoginProvider.DoLogin(s, a).1.Frozen?
    ensures LoginProvider.DoLogin(s, a).1.retryAfter > 0
  {
  }

  /** The same for a frozen login. */
  lemma {:induction false} FreezeReachesTheClient(s: Store, a: LoginProvider.Attempt, default: nat)
    requires LoginProvider.DoLogin(s, a).1.Frozen?
    ensures var n := LoginProvider.DoLogin(s, a).1.retryAfter;
      && n > 0
      && HandleRateLimitError(OnTheWire(LOGIN_LOCKED, n), default)
           == Response("Too many failed login attempts. Please try again after 15 minutes.", n)
  {
    LoginTextIsClean();
    FreezeIsPositive(s, a);
    WireIsTagged(LOGIN_LOCKED, LoginProvider.DoLogin(s, a).1.retryAfter);
    CleanTextRoundTrip(LOGIN_LOCKED, LoginProvider.DoLogin(s, a).1.retryAfter, default);
  }
}
