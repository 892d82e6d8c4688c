/**
 The users-service providers as code over one Redis client and one database.  Each handler is proved to
 do what the request functions say, so the theorems about serialised runs are theorems about the handlers.
 */
module AccountProviders {
  import opened Wrappers
  import opened RedisStore
  import opened Accounts
  import Sessions

  /** The committed tables; an open transaction keeps its writes to itself until it commits. */
  class Database {
    var users: map<string, User>
    var outbox: seq<OutboxRow>
  }

  class Providers {
    const redis: Redis
    const db: Database
    const sessions: Sessions.RedisSessions
    const sha: string -> string
    ghost var history: seq<Mark>

    constructor (redis: Redis, db: Database, sessions: Sessions.RedisSessions, sha: string -> string)
      ensures this.redis == redis && this.db == db && this.sessions == sessions && this.sha == sha
      ensures history == []
    {
      this.redis, this.db, this.sessions, this.sha, history := redis, db, sessions, sha, [];
    }

    ghost function State(): World
      reads this, redis, db
    {
      World(redis.store, db.users, db.outbox, history)
    }

    /** The try block: everything up to the commit.  `otpStored` is the flag the catch block reads. */
    method CreateInTransaction(r: Request) returns (reply: Reply, otpStored: bool)
      requires r.Register?
      modifies redis, db, this
      ensures reply == DoRegister(old(State()), sha, r).1
      ensures reply.Registered? ==> State() == DoRegister(old(State()), sha, r).0
      ensures !reply.Registered? ==>
        && State().(redis := old(redis.store)) == old(State())
        && (if otpStored then Del(redis.store, Otp(r.email)) else redis.store)
             == DoRegister(old(State()), sha, r).0.redis
    {
      otpStored := false;
      if Taken(db.users, r.email, r.username) {
        return DuplicateUser, otpStored;
      }
      var photo := PhotoPath(r);
      if r.fault.AtUserSave? {
        return InternalError, otpStored;
      }
      redis.SetText(Otp(r.email), sha(r.code), 600, r.reg.otp);
      redis.SetText(Cooldown(r.email), "1", 60, r.reg.mark);
      otpStored := true;
      var rows := [VerificationEmail(r.email, r.code, r.username)];
      if r.fault.AtEmailSave? {
        return InternalError, otpStored;
      }
      if r.tempKey.Some? {
        var token := redis.GetText(Upload(r.tempKey.value), r.reg.read);
        if token == Some("CONSUMED") {
          return TokenConsumed, otpStored;
        }
        redis.SetText(Upload(r.tempKey.value), "CONSUMED", 600, r.reg.consume);
        if r.fault.AtPhotoSave? {
          return InternalError, otpStored;
        }
        rows := rows + [ProcessPhoto(r.userId, r.tempKey.value, photo.value)];
      }
      if r.fault.AtCommit? {
        return InternalError, otpStored;
      }
      db.users := db.users[r.email := User(r.username, PENDING, photo)];
      db.outbox := db.outbox + rows;
      history := history + [Issued(r.email, r.reg.otp, r.code, true)];
      reply := Registered;
    }

    /** createUser: the transaction, and on failure the rollback and the deletion of a stored OTP. */
    method CreateUser(r: Request) returns (reply: Reply)
      requires r.Register?
      modifies redis, db, this
      ensures (State(), reply) == DoRegister(old(State()), sha, r)
    {
      var otpStored;
      reply, otpStored := CreateInTransaction(r);
      if !reply.Registered? && otpStored {
        redis.DeleteText(Otp(r.email));
      }
    }

    method SendVerificationCode(r: Request) returns (reply: Reply)
      requires r.Resend?
      modifies redis, db, this
      ensures (State(), reply) == DoResend(old(State()), sha, r)
    {
      var attempts := redis.GetCount(VerifyFailures(r.email), r.res.guard);
      if attempts >= 7 {
        var remaining := redis.CountTtl(VerifyFailures(r.email), r.res.probe);
        return Locked(if remaining > 0 then remaining else 15 * 60);
      }
      var cooling := redis.GetText(Cooldown(r.email), r.res.cool);
      if Truthy(cooling) {
        var remaining := redis.TextTtl(Cooldown(r.email), r.res.coolProbe);
        return CoolingDown(if remaining > 0 then remaining else 60);
      }
      if r.email !in db.users {
        return NotFound;
      }
      var user := db.users[r.email];
      if user.status == ACTIVE {
        return AlreadyActive;
      }
      if user.status != PENDING {
        return NotEligible;
      }
      redis.SetText(Otp(r.email), sha(r.code), 600, r.res.otp);
      redis.SetText(Cooldown(r.email), "1", 60, r.res.mark);
      redis.DeleteCount(VerifyFailures(r.email));
      history := history + [Issued(r.email, r.res.otp, r.code, r.queued)];
      if !r.queued {
        return InternalError;
      }
      db.outbox := db.outbox + [VerificationEmail(r.email, r.code, user.username)];
      reply := CodeSent;
    }

    /** The branch of verifyAccount for a code that does not match. */
    method CountFailure(r: Request) returns (reply: Reply)
      requires r.Verify?
      modifies redis, this
      ensures (State(), reply) == Fail(old(State()), r)
    {
      history := history + [WrongGuess(r.email, r.ver.read)];
      var attempts := redis.Increment(VerifyFailures(r.email), r.ver.count);
      if attempts == 1 {
        redis.ExpireCount(VerifyFailures(r.email), 15 * 60, r.ver.extend);
      } else if attempts >= 7 {
        redis.ExpireCount(VerifyFailures(r.email), 15 * 60, r.ver.extend);
      }
      if attempts >= 7 {
        redis.DeleteText(Otp(r.email));
        return Locked(15 * 60);
      }
      reply := WrongCode(7 - attempts);
    }

    /** verifyAccount; a verified account gets a session at once. */
    method VerifyAccount(r: Request, session: Sessions.Login) returns (reply: Reply)
      requires r.Verify?
      modifies redis, db, sessions, this
      ensures (State(), reply) == DoVerify(old(State()), sha, r)
      ensures sessions.State() ==
        if reply.Verified? then Sessions.Save(old(sessions.State()), Sessions.DEFAULTS, session)
        else old(sessions.State())
    {
      var attempts := redis.GetCount(VerifyFailures(r.email), r.ver.guard);
      if attempts >= 7 {
        var remaining := redis.CountTtl(VerifyFailures(r.email), r.ver.probe);
        return Locked(if remaining > 0 then remaining else 15 * 60);
      }
      var stored := redis.GetText(Otp(r.email), r.ver.read);
      if !Truthy(stored) {
        return NoCode;
      }
      if sha(r.input) != stored.value {
        reply := CountFailure(r);
        return;
      }
      if !r.dbOk {
        return InternalError;
      }
      if r.email !in db.users {
        return NotFound;
      }
      var user := db.users[r.email];
      if user.status == ACTIVE {
        return AlreadyActive;
      }
      db.users := db.users[r.email := user.(status := ACTIVE)];
      redis.DeleteCount(VerifyFailures(r.email));
      redis.DeleteText(Otp(r.email));
      sessions.SaveSessionWithEviction(session, Sessions.DEFAULTS);
      reply := Verified;
    }
  }
}
