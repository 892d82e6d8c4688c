/**
 One register call of the gateway, down to the users-service transaction, is a run of the upload-token
 machine by one registration.  So what holds in every interleaving of the machine holds of the handlers.
 */
module UploadRun {
  import opened Wrappers
  import opened RedisStore
  import opened Accounts
  import opened GatewayRegistration
  import Token = UploadToken

  predicate SameToken(a: Store, b: Store, key: string) {
    && (Upload(key) in a.texts <==> Upload(key) in b.texts)
    && (Upload(key) in a.texts ==> a.texts[Upload(key)] == b.texts[Upload(key)])
  }

  /** The machine holds what Redis holds for the upload of `key`. */
  predicate Agrees(m: Token.State, s: Store, key: string) {
    SameToken(m.store, s, key)
  }

  /** The call names upload `key`, finds the file the machine has, and reaches users-service in ten minutes. */
  predicate Timely(c: Call, sizes: Token.Sizes, key: string) {
    && c.request.Register? && c.request.tempKey == Some(key) && InOrder(c.request)
    && (!c.file.CheckFailed? ==> sizes(key) == SizeOf(c.file))
    && c.check <= c.request.reg.otp && c.request.reg.read < c.check + Seconds(Token.CONSUMED_TTL)
    && c.request.reg.undo <= c.mark
  }

  /** users-service gives up before it looks at the token. */
  predicate FailsEarly(w: World, r: Request)
    requires r.Register?
  {
    Taken(w.users, r.email, r.username) || r.fault.AtUserSave? || r.fault.AtEmailSave?
  }

  function CheckEvents(c: Call, id: nat, key: string): seq<Token.Event> {
    [Token.Pass(c.check), Token.GatewayCheck(id, key)]
  }

  function ReadEvents(c: Call, id: nat): seq<Token.Event>
    requires c.request.Register?
  {
    [Token.Pass(c.request.reg.read), Token.ServiceRead(id)]
  }

  function SetEvents(c: Call, id: nat): seq<Token.Event>
    requires c.request.Register?
  {
    [Token.Pass(c.request.reg.consume), Token.ServiceSet(id)]
  }

  /** How the registration ends once users-service has set the token. */
  function EndEvents(c: Call, id: nat, registered: bool): seq<Token.Event> {
    if registered then [Token.Commit(id)] + [Token.Pass(c.mark), Token.GatewayMark(id)] else [Token.Fail(id)]
  }

  /** The part of the call in users-service, and the mark that follows it. */
  function ServiceEvents(w: World, sha: string -> string, c: Call, id: nat): seq<Token.Event>
    requires c.request.Register?
  {
    var reply := DoRegister(w, sha, c.request).1;
    if FailsEarly(w, c.request) then [Token.Fail(id)]
    else if reply.TokenConsumed? then ReadEvents(c, id)
    else ReadEvents(c, id) + (SetEvents(c, id) + EndEvents(c, id, reply.Registered?))
  }

  function CallEvents(w: World, sha: string -> string, c: Call, id: nat, key: string): seq<Token.Event>
    requires c.request.Register?
  {
    var refusal := Refusal(w.redis, c);
    if refusal.None? then CheckEvents(c, id, key) + ServiceEvents(w, sha, c, id)
    else if refusal == Some(FileSizeRejected) then CheckEvents(c, id, key) + [Token.Purge(id)]
    else []
  }

  // ---------------------------------------------------------------------------------------------
  // Composing runs of the machine
  // ---------------------------------------------------------------------------------------------

  /** The run `es` is possible from `m` and ends in `end`. */
  predicate Leads(m: Token.State, sizes: Token.Sizes, es: seq<Token.Event>, end: Token.State) {
    Token.Possible(m, sizes, es) && Token.Exec(m, sizes, es) == end
  }

  lemma {:induction false} LeadsOne(m: Token.State, sizes: Token.Sizes, e: Token.Event)
    requires Token.Enabled(m, e)
    ensures Leads(m, sizes, [e], Token.Apply(m, sizes, e))
  {
    assert [e][1..] == [];
    assert Leads(Token.Apply(m, sizes, e), sizes, [e][1..], Token.Apply(m, sizes, e));
  }

  lemma {:induction false} LeadsOn(
      m: Token.State, sizes: Token.Sizes, a: seq<Token.Event>, mid: Token.State, b: seq<Token.Event>, end: Token.State)
    requires Leads(m, sizes, a, mid) && Leads(mid, sizes, b, end)
    ensures Leads(m, sizes, a + b, end)
    decreases |a|
  {
    if a == [] {
      assert a + b == b;
    } else {
      LeadsOn(Token.Apply(m, sizes, a[0]), sizes, a[1..], mid, b, end);
      assert (a + b)[1..] == a[1..] + b;
    }
  }

  lemma {:induction false} LeadsTwo(m: Token.State, sizes: Token.Sizes, e: Token.Event, f: Token.Event)
    requires Token.Enabled(m, e) && Token.Enabled(Token.Apply(m, sizes, e), f)
    ensures Leads(m, sizes, [e, f], Token.Apply(Token.Apply(m, sizes, e), sizes, f))
  {
    var mid := Token.Apply(m, sizes, e);
    LeadsOne(m, sizes, e);
    LeadsOne(mid, sizes, f);
    LeadsOn(m, sizes, [e], mid, [f], Token.Apply(mid, sizes, f));
    assert [e] + [f] == [e, f];
  }

  // ---------------------------------------------------------------------------------------------
  // The pieces of a call
  // ---------------------------------------------------------------------------------------------

  /** Registration `id` stands at `phase`, at time `t`, and the store is as it was. */
  predicate Stands(m: Token.State, id: nat, key: string, phase: Token.Phase, t: nat) {
    m.now == t && id in m.regs && m.regs[id] == Token.Registration(key, phase)
  }

  lemma {:induction false} CheckRun(
      m: Token.State, sizes: Token.Sizes, s: Store, c: Call, id: nat, key: string) returns (end: Token.State)
    requires Timely(c, sizes, key) && Agrees(m, s, key) && m.now <= c.check && id !in m.regs
    requires Refusal(s, c).None? || Refusal(s, c) == Some(FileSizeRejected)
    ensures Leads(m, sizes, CheckEvents(c, id, key), end) && end.store == m.store
    ensures Stands(end, id, key, if Refusal(s, c).None? then Token.Checked(c.check) else Token.Oversized, c.check)
  {
    LeadsTwo(m, sizes, Token.Pass(c.check), Token.GatewayCheck(id, key));
    end := Token.Apply(Token.Apply(m, sizes, Token.Pass(c.check)), sizes, Token.GatewayCheck(id, key));
  }

  lemma {:induction false} ReadRun(
      m: Token.State, sizes: Token.Sizes, c: Call, id: nat, key: string) returns (end: Token.State)
    requires Timely(c, sizes, key) && Stands(m, id, key, Token.Checked(c.check), c.check)
    ensures Leads(m, sizes, ReadEvents(c, id), end) && end.store == m.store
    ensures var consumed := Get(m.store, Upload(key), c.request.reg.read) == Some("CONSUMED");
      if consumed then id !in end.regs
      else exists step :: Stands(end, id, key, Token.Cleared(c.check, step), c.request.reg.read)
  {
    var mid := Token.Apply(m, sizes, Token.Pass(c.request.reg.read));
    LeadsTwo(m, sizes, Token.Pass(c.request.reg.read), Token.ServiceRead(id));
    end := Token.Apply(mid, sizes, Token.ServiceRead(id));
    if Token.Token(mid, key) != Some("CONSUMED") {
      assert Stands(end, id, key, Token.Cleared(c.check, mid.steps), c.request.reg.read);
    }
  }

  lemma {:induction false} SetRun(
      m: Token.State, sizes: Token.Sizes, c: Call, id: nat, key: string, step: nat) returns (end: Token.State)
    requires Timely(c, sizes, key) && Stands(m, id, key, Token.Cleared(c.check, step), c.request.reg.read)
    ensures Leads(m, sizes, SetEvents(c, id), end)
    ensures end.store == SetWithTtl(m.store, Upload(key), "CONSUMED", Token.CONSUMED_TTL, c.request.reg.consume)
    ensures Stands(end, id, key, Token.Claimed(step, m.steps + 1), c.request.reg.consume)
  {
    LeadsTwo(m, sizes, Token.Pass(c.request.reg.consume), Token.ServiceSet(id));
    end := Token.Apply(Token.Apply(m, sizes, Token.Pass(c.request.reg.consume)), sizes, Token.ServiceSet(id));
  }

  lemma {:induction false} EndRun(
      m: Token.State, sizes: Token.Sizes, c: Call, id: nat, key: string, a: nat, b: nat, registered: bool)
    returns (end: Token.State)
    requires Timely(c, sizes, key) && Stands(m, id, key, Token.Claimed(a, b), c.request.reg.consume)
    ensures Leads(m, sizes, EndEvents(c, id, registered), end)
    ensures end.store ==
      if registered then SetWithTtl(m.store, Upload(key), "CONSUMED", Token.CONSUMED_TTL, c.mark) else m.store
    ensures registered <==> Token.Used(end, id, key)
  {
    if registered {
      var committed := Token.Apply(m, sizes, Token.Commit(id));
      LeadsOne(m, sizes, Token.Commit(id));
      LeadsTwo(committed, sizes, Token.Pass(c.mark), Token.GatewayMark(id));
      end := Token.Apply(Token.Apply(committed, sizes, Token.Pass(c.mark)), sizes, Token.GatewayMark(id));
      LeadsOn(m, sizes, [Token.Commit(id)], committed, [Token.Pass(c.mark), Token.GatewayMark(id)], end);
    } else {
      LeadsOne(m, sizes, Token.Fail(id));
      end := Token.Apply(m, sizes, Token.Fail(id));
    }
  }

  /** What users-service does to the token of `key`, by outcome. */
  lemma {:induction false} RegisterMovesToken(w: World, sha: string -> string, r: Request, key: string)
    requires r.Register? && r.tempKey == Some(key)
    ensures var (w', reply) := DoRegister(w, sha, r);
      var consumed := Get(w.redis, Upload(key), r.reg.read) == Some("CONSUMED");
      && (FailsEarly(w, r) ==> !reply.Registered? && !reply.TokenConsumed?)
      && (!FailsEarly(w, r) ==> (reply.TokenConsumed? <==> consumed))
      && (if FailsEarly(w, r) || consumed then SameToken(w'.redis, w.redis, key)
          else
            var claimed := SetWithTtl(w.redis, Upload(key), "CONSUMED", Token.CONSUMED_TTL, r.reg.consume);
            SameToken(w'.redis, claimed, key))
  {
  }

  /** From the gateway's check to the end of the call. */
  lemma {:induction false} ServiceRun(
      m: Token.State, sizes: Token.Sizes, w: World, sha: string -> string, c: Call, id: nat, key: string)
    returns (end: Token.State)
    requires Timely(c, sizes, key) && Agrees(m, w.redis, key)
    requires Stands(m, id, key, Token.Checked(c.check), c.check) && Refusal(w.redis, c).None?
    ensures Leads(m, sizes, ServiceEvents(w, sha, c, id), end)
    ensures Agrees(end, DoCall(w, sha, c).0.redis, key)
    ensures Token.Used(end, id, key) <==> DoCall(w, sha, c).1.Created?
  {
    RegisterMovesToken(w, sha, c.request, key);
    var registered := DoRegister(w, sha, c.request).1.Registered?;
    if FailsEarly(w, c.request) {
      LeadsOne(m, sizes, Token.Fail(id));
      end := Token.Apply(m, sizes, Token.Fail(id));
    } else {
      var read := ReadRun(m, sizes, c, id, key);
      if Get(w.redis, Upload(key), c.request.reg.read) == Some("CONSUMED") {
        end := read;
      } else {
        var step :| Stands(read, id, key, Token.Cleared(c.check, step), c.request.reg.read);
        var claimed := SetRun(read, sizes, c, id, key, step);
        end := EndRun(claimed, sizes, c, id, key, step, read.steps + 1, registered);
        LeadsOn(read, sizes, SetEvents(c, id), claimed, EndEvents(c, id, registered), end);
        LeadsOn(m, sizes, ReadEvents(c, id), read, SetEvents(c, id) + EndEvents(c, id, registered), end);
      }
    }
  }

  /**
   A call of the handlers moves the token exactly as a run of the machine does, and creates an account
   exactly when the machine's registration commits.
   */
  lemma {:induction false} CallIsARun(
      m: Token.State, sizes: Token.Sizes, w: World, sha: string -> string, c: Call, id: nat, key: string)
    requires Timely(c, sizes, key) && Agrees(m, w.redis, key) && m.now <= c.check && id !in m.regs
    ensures var es := CallEvents(w, sha, c, id, key);
      && Token.Possible(m, sizes, es)
      && Agrees(Token.Exec(m, sizes, es), DoCall(w, sha, c).0.redis, key)
      && (Token.Used(Token.Exec(m, sizes, es), id, key) <==> DoCall(w, sha, c).1.Created?)
  {
    var refusal := Refusal(w.redis, c);
    if refusal.None? {
      var checked := CheckRun(m, sizes, w.redis, c, id, key);
      var end := ServiceRun(checked, sizes, w, sha, c, id, key);
      LeadsOn(m, sizes, CheckEvents(c, id, key), checked, ServiceEvents(w, sha, c, id), end);
    } else if refusal == Some(FileSizeRejected) {
      var checked := CheckRun(m, sizes, w.redis, c, id, key);
      var end := Token.Apply(checked, sizes, Token.Purge(id));
      LeadsOne(checked, sizes, Token.Purge(id));
      LeadsOn(m, sizes, CheckEvents(c, id, key), checked, [Token.Purge(id)], end);
    }
  }

  /**
   Once any interleaving of registrations has consumed an upload, every call that starts later and names it
   is refused and changes nothing, however much later: the token never serves a second time.
   */
  lemma {:induction false} UsedUploadIsRefused(
      sizes: Token.Sizes, es: seq<Token.Event>, j: nat, key: string, w: World, sha: string -> string, c: Call)
    requires Token.Possible(Token.START, sizes, es) && Token.Used(Token.Exec(Token.START, sizes, es), j, key)
    requires Agrees(Token.Exec(Token.START, sizes, es), w.redis, key)
    requires c.request.Register? && c.request.tempKey == Some(key)
    ensures DoCall(w, sha, c).0 == w
    ensures DoCall(w, sha, c).1 ==
      if Get(w.redis, Upload(key), c.check) == Some("CONSUMED") then UploadConsumed else UploadExpired
  {
    Token.RunKeepsInv(Token.START, sizes, es);
    var s := Token.Exec(Token.START, sizes, es);
    assert Token.RegOk(s, sizes, j) && Token.KeyOk(s, key);
  }
}
