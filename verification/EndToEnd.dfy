/**
 The protocols composed: a committed registration or resend, the outbox run that carries its rows to the
 broker, and the consumer at the other end.
 */
module EndToEnd {
  import opened Wrappers
  import Redis = RedisStore
  import opened Outbox
  import opened OutboxSafety
  import Accounts
  import AccountsSafety
  import AccountsTheorems
  import Avatars = AvatarConsumer
  import Deliveries = AvatarDeliveries
  import GatewayRegistration

  // ---------------------------------------------------------------------------------------------
  // From the account providers' rows to the outbox table
  // ---------------------------------------------------------------------------------------------

  function TextField(p: Json, name: string): string {
    if p.Object? && name in p.fields && p.fields[name].Text? then p.fields[name].s else ""
  }

  function JsonField(p: Json, name: string): Json {
    if p.Object? && name in p.fields then p.fields[name] else Null
  }

  /** The payload a provider saves; the transformations of a photo are whatever the client asked for. */
  function PayloadOf(row: Accounts.OutboxRow, transformations: Json): Json {
    match row
    case VerificationEmail(email, code, username) =>
      Object(map["email" := Text(email), "code" := Text(code), "username" := Text(username)])
    case ProcessPhoto(userId, tempKey, targetKey) =>
      Object(map["userId" := Text(userId), "tempKey" := Text(tempKey), "targetKey" := Text(targetKey),
                 "transformations" := transformations])
  }

  function EventTypeOf(row: Accounts.OutboxRow): string {
    if row.VerificationEmail? then "SEND_VERIFICATION_EMAIL" else "PROCESS_PROFILE_PHOTO"
  }

  /** The outbox run inserted exactly these rows, in this order. */
  ghost predicate Carries(es: seq<Event>, rows: seq<Accounts.OutboxRow>, extras: seq<Json>) {
    && |Inserted(es)| == |rows| == |extras|
    && forall i :: 0 <= i < |rows| ==>
         Inserted(es)[i].eventType == EventTypeOf(rows[i]) && Inserted(es)[i].payload == PayloadOf(rows[i], extras[i])
  }

  // ---------------------------------------------------------------------------------------------
  // The mailed code verifies
  // ---------------------------------------------------------------------------------------------

  /** The position of the newest verification row for `email`. */
  function NewestIndex(rows: seq<Accounts.OutboxRow>, email: string): Option<nat> {
    if rows == [] then None
    else
      var r := rows[|rows| - 1];
      if r.VerificationEmail? && r.email == email then Some(|rows| - 1)
      else NewestIndex(rows[..|rows| - 1], email)
  }

  lemma {:induction false} NewestIndexHoldsCode(rows: seq<Accounts.OutboxRow>, email: string)
    requires AccountsSafety.NewestCode(rows, email).Some?
    ensures NewestIndex(rows, email).Some?
    ensures var i := NewestIndex(rows, email).value;
      i < |rows| && rows[i].VerificationEmail? && rows[i].email == email
      && Some(rows[i].code) == AccountsSafety.NewestCode(rows, email)
  {
    var r := rows[|rows| - 1];
    if !(r.VerificationEmail? && r.email == email) {
      NewestIndexHoldsCode(rows[..|rows| - 1], email);
    }
  }

  /** The code a verification message carries. */
  function CodeIn(d: Delivery): string {
    TextField(d.payload, "code")
  }

  /** The verify request of a reader of the mail. */
  function EnteringCode(email: string, d: Delivery, ver: Accounts.VerifyTimes): Accounts.Request {
    Accounts.Verify(email, CodeIn(d), true, ver)
  }

  /**
   From issue to verification through all services: while an OTP is live whose issue was queued, whoever
   enters the code of any copy of the newest verification message in the broker, however often it was retried,
   aborted or redelivered, is verified; and there is such a copy once the row is PUBLISHED, although the table
   then holds only the redacted one.
   */
  lemma {:induction false} MailedCodeVerifies(
      sha: string -> string, rs: seq<Accounts.Request>, email: string, ver: Accounts.VerifyTimes,
      es: seq<Event>, extras: seq<Json>)
    requires Accounts.Serialised(rs)
    requires Accounts.InOrder(Accounts.Verify(email, "", true, ver)) && Accounts.LastEnd(rs, email) <= ver.guard
    requires Redis.Truthy(Redis.Get(Accounts.Run(sha, rs).redis, Redis.Otp(email), ver.read))
    requires var issue := AccountsSafety.LastIssue(Accounts.Run(sha, rs).history, email);
      issue.Some? && issue.value.Issued? && issue.value.queued
    requires Possible(EMPTY, es) && Carries(es, Accounts.Run(sha, rs).outbox, extras)
    ensures var w := Accounts.Run(sha, rs);
      var s := Exec(EMPTY, es);
      var i := NewestIndex(w.outbox, email);
      && i.Some? && i.value < |s.table|
      && (forall k :: 0 <= k < |s.log| && s.log[k].id == i.value ==>
           && s.log[k].routingKey == "notification.email.verify"
           && email in w.users && TextField(s.log[k].payload, "email") == email
           && TextField(s.log[k].payload, "username") == w.users[email].username
           && Accounts.Serve(w, sha, EnteringCode(email, s.log[k], ver)).1.Verified?)
      && (s.table[i.value].row.status.PUBLISHED? ==>
           && Copies(s.log, i.value) >= 1
           && TextField(s.table[i.value].row.payload, "code") == "[REDACTED]")
  {
    var w := Accounts.Run(sha, rs);
    AccountsTheorems.OtpAgreesWithMail(sha, rs, email, ver.read);
    NewestIndexHoldsCode(w.outbox, email);
    var i := NewestIndex(w.outbox, email).value;
    NoLostMessage(es, i);
    DeliveredAsInserted(es);
    AccountsTheorems.MailsNameTheirUsers(sha, rs, i);
    PayloadSays(w.outbox[i], extras[i]);
    var s := Exec(EMPTY, es);
    forall k | 0 <= k < |s.log| && s.log[k].id == i
      ensures s.log[k].routingKey == "notification.email.verify"
      ensures s.log[k].payload == PayloadOf(w.outbox[i], extras[i])
      ensures Accounts.Serve(w, sha, EnteringCode(email, s.log[k], ver)).1.Verified?
    {
      RoutedByType(es, k);
      MailVerifies(sha, rs, email, ver, s.log[k]);
    }
  }

  lemma {:induction false} MailVerifies(
      sha: string -> string, rs: seq<Accounts.Request>, email: string, ver: Accounts.VerifyTimes, d: Delivery)
    requires Accounts.Serialised(rs)
    requires Accounts.InOrder(Accounts.Verify(email, "", true, ver)) && Accounts.LastEnd(rs, email) <= ver.guard
    requires var otp := Redis.Get(Accounts.Run(sha, rs).redis, Redis.Otp(email), ver.read);
      Redis.Truthy(otp) && otp.value == sha(CodeIn(d))
    ensures Accounts.Serve(Accounts.Run(sha, rs), sha, EnteringCode(email, d, ver)).1.Verified?
  {
    var r := EnteringCode(email, d, ver);
    AccountsTheorems.OneMoreRequest(sha, rs, r);
    AccountsTheorems.VerifiedExactlyWhenCodeMatches(sha, rs, r);
  }

  // ---------------------------------------------------------------------------------------------
  // The uploaded avatar is made
  // ---------------------------------------------------------------------------------------------

  /** The job a consumer reads from a payload. */
  function JobOf(p: Json): Avatars.Job<Json> {
    Avatars.Job(TextField(p, "userId"), TextField(p, "tempKey"), TextField(p, "targetKey"),
                JsonField(p, "transformations"))
  }

  predicate IsPhoto(row: NewRow) {
    row.eventType == "PROCESS_PROFILE_PHOTO"
  }

  /** The consumer is handed photo messages of the broker log, in any order and any number of times. */
  ghost predicate FromLog(log: seq<Delivery>, cs: seq<Deliveries.Event<Json>>) {
    forall c :: 0 <= c < |cs| && cs[c].Get? ==> exists k: nat :: HandsOver(log, k, cs[c].job)
  }

  ghost predicate HandsOver(log: seq<Delivery>, k: nat, job: Avatars.Job<Json>) {
    k < |log| && log[k].routingKey == "media.photo.process" && job == JobOf(log[k].payload)
  }

  /**
   Outbox and consumer together: take any outbox run, its duplicates included, and any run of the consumer over
   its photo messages, overlapping, failing and dying as they may.  If no other photo message shares the objects
   of message `i`, its target holds the image of its upload if and only if one put of it reached the store.
   */
  lemma {:induction false} PublishedAvatarIsMade(
      es: seq<Event>, i: nat, objects: Avatars.Storage, cs: seq<Deliveries.Event<Json>>,
      raw: Avatars.Buffer, image: (Avatars.Buffer, Json) -> Avatars.Buffer)
    requires Possible(EMPTY, es) && i < |Inserted(es)|
    requires Deliveries.Possible(Deliveries.State(objects, map[]), image, cs)
    requires FromLog(Exec(EMPTY, es).log, cs)
    requires var j := JobOf(Inserted(es)[i].payload);
      && j.tempKey != "" && j.tempKey != Avatars.Target(j)
      && j.tempKey in objects && objects[j.tempKey] == raw && Avatars.GoodSize(raw)
      && !Avatars.Done(objects, j, raw, image)
      && forall other :: 0 <= other < |Inserted(es)| && other != i && IsPhoto(Inserted(es)[other]) ==>
           Avatars.Apart(JobOf(Inserted(es)[other].payload), j)
    ensures var j := JobOf(Inserted(es)[i].payload);
      var start := Deliveries.State(objects, map[]);
      Avatars.Done(Deliveries.Exec(start, image, cs).objects, j, raw, image)
      <==> Deliveries.StoredIn(start, image, cs, j)
  {
    var j := JobOf(Inserted(es)[i].payload);
    forall c | 0 <= c < |cs| && cs[c].Get? ensures cs[c].job == j || Avatars.Apart(cs[c].job, j) {
      var k: nat :| HandsOver(Exec(EMPTY, es).log, k, cs[c].job);
      HandedOverIsInserted(es, k, cs[c].job);
    }
    Deliveries.AvatarIsDelivered(objects, cs, j, raw, image);
  }

  /** Each job handed over is that of an inserted photo row. */
  lemma {:induction false} HandedOverIsInserted(es: seq<Event>, k: nat, job: Avatars.Job<Json>)
    requires Possible(EMPTY, es) && HandsOver(Exec(EMPTY, es).log, k, job)
    ensures var id := Exec(EMPTY, es).log[k].id;
      && id < |Inserted(es)| && IsPhoto(Inserted(es)[id])
      && job == JobOf(Inserted(es)[id].payload)
  {
    DeliveredAsInserted(es);
    RoutedByType(es, k);
    assert Exec(EMPTY, es).log[k].routingKey[0] == 'm';
  }

  /** A payload carries what its row says, under the names the consumers read. */
  lemma {:induction false} PayloadSays(row: Accounts.OutboxRow, x: Json)
    ensures row.VerificationEmail? ==>
      var p := PayloadOf(row, x);
      && TextField(p, "email") == row.email && TextField(p, "code") == row.code
      && TextField(p, "username") == row.username
    ensures row.ProcessPhoto? ==>
      JobOf(PayloadOf(row, x)) == Avatars.Job(row.userId, row.tempKey, row.targetKey, x)
  {
  }

  /** The job of a registration with an upload: from that upload, to the photo path of its user. */
  ghost predicate RegisteredJob(
      sha: string -> string, rs: seq<Accounts.Request>, k: nat, job: Avatars.Job<Json>, x: Json)
    requires k < |rs|
  {
    var w := Accounts.Run(sha, rs);
    && rs[k].Register? && rs[k].email in w.users && rs[k].tempKey.Some? && w.users[rs[k].email].profilePhoto.Some?
    && job == Avatars.Job(rs[k].userId, rs[k].tempKey.value, w.users[rs[k].email].profilePhoto.value, x)
  }

  /**
   From registration to consumer: every broker copy of a photo row can be handed over, and its job is to make the
   photo of the user some registration of the run committed from the upload that registration named.
   */
  lemma {:induction false} PhotoCopiesAreHandedOver(
      sha: string -> string, rs: seq<Accounts.Request>, es: seq<Event>, extras: seq<Json>, k: nat)
    requires Possible(EMPTY, es) && Carries(es, Accounts.Run(sha, rs).outbox, extras)
    requires k < |Exec(EMPTY, es).log|
    requires var id := Exec(EMPTY, es).log[k].id;
      id < |Accounts.Run(sha, rs).outbox| && Accounts.Run(sha, rs).outbox[id].ProcessPhoto?
    ensures var log := Exec(EMPTY, es).log;
      var row := Accounts.Run(sha, rs).outbox[log[k].id];
      var job := Avatars.Job(row.userId, row.tempKey, row.targetKey, extras[log[k].id]);
      && HandsOver(log, k, job)
      && exists n :: 0 <= n < |rs| && RegisteredJob(sha, rs, n, job, extras[log[k].id])
  {
    var id := Exec(EMPTY, es).log[k].id;
    var row := Accounts.Run(sha, rs).outbox[id];
    DeliveredAsInserted(es);
    RoutedByType(es, k);
    PayloadSays(row, extras[id]);
    AccountsTheorems.PhotoJobsAreRegistered(sha, rs, id);
    var n :| 0 <= n < |rs| && AccountsTheorems.JobOfRegistration(sha, rs, n, row);
    assert RegisteredJob(sha, rs, n, Avatars.Job(row.userId, row.tempKey, row.targetKey, extras[id]), extras[id]);
  }

  /** The photo row of a gateway registration, when it has an upload. */
  function PhotoRow(r: Accounts.Request): Accounts.OutboxRow
    requires r.Register? && r.tempKey.Some?
  {
    Accounts.RegistrationRows(r)[1]
  }

  /** Two registrations of the gateway with their own upload keys and user ids never share an object. */
  lemma {:induction false} AvatarJobsAreApart(a: Accounts.Request, b: Accounts.Request, x: Json, y: Json)
    requires GatewayRegistration.FromGateway(a) && GatewayRegistration.FromGateway(b)
    requires a.tempKey.Some? && b.tempKey.Some? && a.tempKey != b.tempKey
    requires "temp_uploads/" <= a.tempKey.value && "temp_uploads/" <= b.tempKey.value
    requires a.userId != b.userId
    ensures Avatars.Apart(JobOf(PayloadOf(PhotoRow(a), x)), JobOf(PayloadOf(PhotoRow(b), y)))
  {
    var p := PhotoRow(a);
    var q := PhotoRow(b);
    Avatars.FoldersAreApart(p.tempKey, q.targetKey);
    Avatars.FoldersAreApart(q.tempKey, p.targetKey);
    assert a.userId == p.targetKey[8..|p.targetKey| - 12];
    assert b.userId == q.targetKey[8..|q.targetKey| - 12];
  }
}
