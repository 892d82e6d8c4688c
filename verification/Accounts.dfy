/**
 Registration, resend and verification as the requests they are: what each branch replies and what it
 leaves in Redis, in the users table and in the outbox.  Within a request every Redis command has its own
 instant, so time passes between commands; requests for one email do not overlap, requests for different
 emails may.
 */
module Accounts {
  import opened Wrappers
  import opened RedisStore
  import UploadToken

  datatype UserStatus = PENDING | ACTIVE | BLOCKED

  datatype User = User(username: string, status: UserStatus, profilePhoto: Option<string>)

  datatype OutboxRow =
    | VerificationEmail(email: string, code: string, username: string)
    | ProcessPhoto(userId: string, tempKey: string, targetKey: string)

  /** What an observer of the whole run notes: an OTP put into Redis, a wrong code compared against one. */
  datatype Mark =
    | Issued(email: string, at: nat, code: string, queued: bool)
    | WrongGuess(email: string, at: nat)

  datatype World = World(redis: Store, users: map<string, User>, outbox: seq<OutboxRow>, history: seq<Mark>)

  const START: World := World(RedisStore.EMPTY, map[], [], [])

  const MAX_FAILURES: nat := 7
  const OTP_TTL: nat := 600
  const COOLDOWN_TTL: nat := 60
  const LOCK_TTL: nat := 900

  /** Which database write of a registration fails, if one does. */
  datatype Fault = NoFault | AtUserSave | AtEmailSave | AtPhotoSave | AtCommit

  datatype Request =
    | Register(email: string, username: string, userId: string, tempKey: Option<string>,
               photo: Option<string>, code: string, fault: Fault, reg: RegisterTimes)
    | Resend(email: string, code: string, queued: bool, res: ResendTimes)
    | Verify(email: string, input: string, dbOk: bool, ver: VerifyTimes)

  datatype RegisterTimes = RegisterTimes(otp: nat, mark: nat, read: nat, consume: nat, undo: nat)
  datatype ResendTimes = ResendTimes(
    guard: nat, probe: nat, cool: nat, coolProbe: nat, otp: nat, mark: nat, clear: nat)
  datatype VerifyTimes = VerifyTimes(guard: nat, probe: nat, read: nat, count: nat, extend: nat, clear: nat)

  datatype Reply =
    | Registered | DuplicateUser | TokenConsumed
    | CodeSent | NotFound | AlreadyActive | NotEligible
    | Verified | NoCode | WrongCode(attemptsLeft: nat)
    | Locked(retryAfter: nat) | CoolingDown(retryAfter: nat)
    | InternalError

  // ---------------------------------------------------------------------------------------------
  // Registration
  // ---------------------------------------------------------------------------------------------

  predicate Taken(users: map<string, User>, email: string, username: string) {
    email in users || exists e :: e in users && users[e].username == username
  }

  /** The stored photo path: the requested one, or the avatar path when a temporary photo is given. */
  function PhotoPath(r: Request): Option<string>
    requires r.Register?
  {
    if r.photo.Some? then r.photo
    else if r.tempKey.Some? then Some("avatars/" + r.userId + "/avatar.webp")
    else None
  }

  /** The rows a registration commits together with its user. */
  function RegistrationRows(r: Request): seq<OutboxRow>
    requires r.Register?
  {
    [VerificationEmail(r.email, r.code, r.username)]
    + (if r.tempKey.Some? then [ProcessPhoto(r.userId, r.tempKey.value, PhotoPath(r).value)] else [])
  }

  function WithOtp(s: Store, sha: string -> string, r: Request): Store
    requires r.Register?
  {
    SetWithTtl(SetWithTtl(s, Otp(r.email), sha(r.code), OTP_TTL, r.reg.otp),
               Cooldown(r.email), "1", COOLDOWN_TTL, r.reg.mark)
  }

  function DoRegister(w: World, sha: string -> string, r: Request): (World, Reply)
    requires r.Register?
  {
    if Taken(w.users, r.email, r.username) then (w, DuplicateUser)
    else if r.fault.AtUserSave? then (w, InternalError)
    else
      var stored := WithOtp(w.redis, sha, r);
      if r.fault.AtEmailSave? then (w.(redis := Del(stored, Otp(r.email))), InternalError)
      else if r.tempKey.Some? && Get(stored, Upload(r.tempKey.value), r.reg.read) == Some("CONSUMED") then
        (w.(redis := Del(stored, Otp(r.email))), TokenConsumed)
      else
        var consumed :=
          if r.tempKey.Some? then
            SetWithTtl(stored, Upload(r.tempKey.value), "CONSUMED", UploadToken.CONSUMED_TTL, r.reg.consume)
          else stored;
        if r.fault.AtCommit? || (r.fault.AtPhotoSave? && r.tempKey.Some?) then
          (w.(redis := Del(consumed, Otp(r.email))), InternalError)
        else
          (World(consumed,
                 w.users[r.email := User(r.username, PENDING, PhotoPath(r))],
                 w.outbox + RegistrationRows(r),
                 w.history + [Issued(r.email, r.reg.otp, r.code, true)]),
           Registered)
  }

  // ---------------------------------------------------------------------------------------------
  // Resend
  // ---------------------------------------------------------------------------------------------

  function DoResend(w: World, sha: string -> string, r: Request): (World, Reply)
    requires r.Resend?
  {
    var fails := VerifyFailures(r.email);
    var cooldown := Cooldown(r.email);
    if Count(w.redis, fails, r.res.guard) >= MAX_FAILURES then
      (w, Locked(RetryAfter(TimeLeft(w.redis.counts, fails, r.res.probe), 15 * 60)))
    else if Truthy(Get(w.redis, cooldown, r.res.cool)) then
      (w, CoolingDown(RetryAfter(TimeLeft(w.redis.texts, cooldown, r.res.coolProbe), 60)))
    else if r.email !in w.users then (w, NotFound)
    else if w.users[r.email].status.ACTIVE? then (w, AlreadyActive)
    else if !w.users[r.email].status.PENDING? then (w, NotEligible)
    else
      var stored := SetWithTtl(w.redis, Otp(r.email), sha(r.code), OTP_TTL, r.res.otp);
      var cooling := SetWithTtl(stored, cooldown, "1", COOLDOWN_TTL, r.res.mark);
      var issued := w.(redis := DelCount(cooling, fails),
                       history := w.history + [Issued(r.email, r.res.otp, r.code, r.queued)]);
      if r.queued then
        (issued.(outbox := w.outbox + [VerificationEmail(r.email, r.code, w.users[r.email].username)]), CodeSent)
      else
        (issued, InternalError)
  }

  // ---------------------------------------------------------------------------------------------
  // Verification
  // ---------------------------------------------------------------------------------------------

  /** A wrong code: count it, set the expiry on the first and from the seventh on, drop the OTP at seven. */
  function Fail(w: World, r: Request): (World, Reply)
    requires r.Verify?
  {
    var fails := VerifyFailures(r.email);
    var n := Count(w.redis, fails, r.ver.count) + 1;
    var timed := CountFailure(w.redis, fails, MAX_FAILURES, LOCK_TTL, r.ver.count, r.ver.extend);
    var noted := w.history + [WrongGuess(r.email, r.ver.read)];
    if n >= MAX_FAILURES then
      (w.(redis := Del(timed, Otp(r.email)), history := noted), Locked(15 * 60))
    else
      (w.(redis := timed, history := noted), WrongCode(MAX_FAILURES - n))
  }

  function DoVerify(w: World, sha: string -> string, r: Request): (World, Reply)
    requires r.Verify?
  {
    var fails := VerifyFailures(r.email);
    var otp := Get(w.redis, Otp(r.email), r.ver.read);
    if Count(w.redis, fails, r.ver.guard) >= MAX_FAILURES then
      (w, Locked(RetryAfter(TimeLeft(w.redis.counts, fails, r.ver.probe), 15 * 60)))
    else if !Truthy(otp) then (w, NoCode)
    else if sha(r.input) != otp.value then Fail(w, r)
    else if !r.dbOk then (w, InternalError)
    else if r.email !in w.users then (w, NotFound)
    else if w.users[r.email].status.ACTIVE? then (w, AlreadyActive)
    else
      (w.(users := w.users[r.email := w.users[r.email].(status := ACTIVE)],
          redis := Del(DelCount(w.redis, fails), Otp(r.email))),
       Verified)
  }

  // ---------------------------------------------------------------------------------------------
  // Serialised runs
  // ---------------------------------------------------------------------------------------------

  function Serve(w: World, sha: string -> string, r: Request): (World, Reply) {
    match r
    case Register(_, _, _, _, _, _, _, _) => DoRegister(w, sha, r)
    case Resend(_, _, _, _) => DoResend(w, sha, r)
    case Verify(_, _, _, _) => DoVerify(w, sha, r)
  }

  function From(r: Request): nat {
    match r
    case Register(_, _, _, _, _, _, _, t) => t.otp
    case Resend(_, _, _, t) => t.guard
    case Verify(_, _, _, t) => t.guard
  }

  function To(r: Request): nat {
    match r
    case Register(_, _, _, _, _, _, _, t) => t.undo
    case Resend(_, _, _, t) => t.clear
    case Verify(_, _, _, t) => t.clear
  }

  /** The commands of one request happen in program order. */
  predicate InOrder(r: Request) {
    match r
    case Register(_, _, _, _, _, _, _, t) => t.otp <= t.mark <= t.read <= t.consume <= t.undo
    case Resend(_, _, _, t) => t.guard <= t.probe <= t.cool <= t.coolProbe <= t.otp <= t.mark <= t.clear
    case Verify(_, _, _, t) => t.guard <= t.probe <= t.read <= t.count <= t.extend <= t.clear
  }

  /** When the last request for `email` ended. */
  function LastEnd(rs: seq<Request>, email: string): nat {
    if rs == [] then 0
    else if rs[|rs| - 1].email == email then To(rs[|rs| - 1])
    else LastEnd(rs[..|rs| - 1], email)
  }

  /** Requests for the same email follow one another; requests for different emails need not. */
  predicate Serialised(rs: seq<Request>) {
    rs == [] ||
    var n := |rs| - 1;
    Serialised(rs[..n]) && InOrder(rs[n]) && LastEnd(rs[..n], rs[n].email) <= From(rs[n])
  }

  function Run(sha: string -> string, rs: seq<Request>): World {
    if rs == [] then START else Serve(Run(sha, rs[..|rs| - 1]), sha, rs[|rs| - 1]).0
  }
}
