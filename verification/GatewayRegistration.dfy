/**
 The gateway's register handler: token state, size check and purge, the users-service call, and the
 CONSUMED mark.
 */
module GatewayRegistration {
  import opened Wrappers
  import opened RedisStore
  import opened Accounts
  import UploadToken
  import AccountProviders

  /** What the storage check says about the uploaded file. */
  datatype FileCheck = CheckFailed | Missing | Found(size: nat)

  /** One call: the users-service request it builds, the file check, and when its own commands run. */
  datatype Call = Call(request: Request, file: FileCheck, check: nat, mark: nat)

  datatype Answer =
    | UploadExpired | UploadConsumed | UploadInvalid
    | FileUnverified | FileMissing | FileSizeRejected
    | Created | Conflict | Failed

  /** The request the gateway builds: the avatar path is fixed by the user id exactly when there is a key. */
  predicate FromGateway(r: Request) {
    && r.Register?
    && r.photo == if r.tempKey.Some? then Some("avatars/" + r.userId + "/avatar.webp") else None
  }

  function AnswerTo(reply: Reply): Answer {
    if reply.Registered? then Created
    else if reply.DuplicateUser? || reply.TokenConsumed? then Conflict
    else Failed
  }

  function SizeOf(file: FileCheck): Option<nat> {
    if file.Found? then Some(file.size) else None
  }

  /** Why the upload keeps the call from users-service, if it does. */
  function Refusal(s: Store, c: Call): Option<Answer>
    requires c.request.Register?
  {
    if c.request.tempKey.None? then None
    else
      var token := Get(s, Upload(c.request.tempKey.value), c.check);
      if !Truthy(token) then Some(UploadExpired)
      else if token.value == "CONSUMED" then Some(UploadConsumed)
      else if token.value != "PENDING" then Some(UploadInvalid)
      else if c.file.CheckFailed? then Some(FileUnverified)
      else if c.file.Missing? then Some(FileMissing)
      else if !UploadToken.GoodSize(SizeOf(c.file)) then Some(FileSizeRejected)
      else None
  }

  function DoCall(w: World, sha: string -> string, c: Call): (World, Answer)
    requires c.request.Register?
  {
    var refusal := Refusal(w.redis, c);
    if refusal == Some(FileSizeRejected) then
      (w.(redis := Del(w.redis, Upload(c.request.tempKey.value))), FileSizeRejected)
    else if refusal.Some? then (w, refusal.value)
    else
      var (w', reply) := DoRegister(w, sha, c.request);
      if reply.Registered? && c.request.tempKey.Some? then
        (w'.(redis := SetWithTtl(w'.redis, Upload(c.request.tempKey.value), "CONSUMED", 600, c.mark)), Created)
      else (w', AnswerTo(reply))
  }

  class Provider {
    const redis: Redis
    const users: AccountProviders.Providers

    constructor (redis: Redis, users: AccountProviders.Providers)
      requires users.redis == redis
      ensures this.redis == redis && this.users == users
    {
      this.redis, this.users := redis, users;
    }

    /** The checks before the call; a file of the wrong size costs its token at once. */
    method CheckUpload(c: Call) returns (refusal: Option<Answer>)
      requires c.request.Register? && users.redis == redis
      modifies redis
      ensures refusal == Refusal(old(redis.store), c)
      ensures redis.store ==
        if refusal == Some(FileSizeRejected) then Del(old(redis.store), Upload(c.request.tempKey.value))
        else old(redis.store)
    {
      if c.request.tempKey.None? {
        return None;
      }
      var key := Upload(c.request.tempKey.value);
      var uploadStatus := redis.GetText(key, c.check);
      if !Truthy(uploadStatus) {
        return Some(UploadExpired);
      }
      if uploadStatus.value == "CONSUMED" {
        return Some(UploadConsumed);
      }
      if uploadStatus.value != "PENDING" {
        return Some(UploadInvalid);
      }
      match c.file {
        case CheckFailed => return Some(FileUnverified);
        case Missing => return Some(FileMissing);
        case Found(size) =>
          if size < 1024 || size > 5 * 1024 * 1024 {
            redis.DeleteText(key);
            return Some(FileSizeRejected);
          }
      }
      refusal := None;
    }

    method Register(c: Call) returns (answer: Answer)
      requires c.request.Register? && users.redis == redis
      modifies redis, users, users.db
      ensures (users.State(), answer) == DoCall(old(users.State()), users.sha, c)
    {
      var refusal := CheckUpload(c);
      if refusal.Some? {
        return refusal.value;
      }
      var reply := users.CreateUser(c.request);
      if reply.Registered? && c.request.tempKey.Some? {
        redis.SetText(Upload(c.request.tempKey.value), "CONSUMED", 600, c.mark);
      }
      answer := AnswerTo(reply);
    }
  }
}
