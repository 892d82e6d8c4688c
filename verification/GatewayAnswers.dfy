/** What the answers of a register call mean, for calls with an upload and without. */
module GatewayAnswers {
  import opened Wrappers
  import opened RedisStore
  import opened Accounts
  import opened AccountAnswers
  import opened GatewayRegistration

  /** The token as the gateway reads it; None without an upload. */
  function TokenOf(w: World, c: Call): Option<string>
    requires c.request.Register?
  {
    if c.request.tempKey.Some? then Get(w.redis, Upload(c.request.tempKey.value), c.check) else None
  }

  predicate FileFits(c: Call) {
    c.file.Found? && 1024 <= c.file.size <= 5242880
  }

  /** The call gets as far as users-service: it has no upload, or a PENDING one of 1 KB to 5 MB. */
  predicate GetsThrough(w: World, c: Call)
    requires c.request.Register?
  {
    c.request.tempKey.None? || (TokenOf(w, c) == Some("PENDING") && FileFits(c))
  }

  /** Why an upload keeps the call back. */
  lemma {:induction false} RefusalAnswers(w: World, sha: string -> string, c: Call)
    requires c.request.Register?
    ensures var (w', answer) := DoCall(w, sha, c);
      var uploads := c.request.tempKey.Some?;
      var token := TokenOf(w, c);
      var pending := token == Some("PENDING");
      && (answer.UploadExpired? <==> uploads && !Truthy(token))
      && (answer.UploadConsumed? <==> token == Some("CONSUMED"))
      && (answer.UploadInvalid? <==> Truthy(token) && token != Some("CONSUMED") && !pending)
      && (answer.FileUnverified? <==> pending && c.file.CheckFailed?)
      && (answer.FileMissing? <==> pending && c.file.Missing?)
      && (answer.FileSizeRejected? <==> pending && c.file.Found? && !FileFits(c))
      && (!GetsThrough(w, c) && !answer.FileSizeRejected? ==> w' == w)
      && (answer.FileSizeRejected? ==>
           w' == w.(redis := w.redis.(texts := w.redis.texts - {Upload(c.request.tempKey.value)})))
  {
  }

  /**
   A call that gets through is answered Created exactly when it has added an account for its email, Conflict exactly
   when the email or the name is known or the upload used, and Failed otherwise; no other answer leaves a user or a
   row, and a used upload stays CONSUMED for ten minutes.
   */
  lemma {:induction false} AccountAnswersOfCall(w: World, sha: string -> string, c: Call)
    requires c.request.Register?
    ensures var (w', answer) := DoCall(w, sha, c);
      var r := c.request;
      && (answer.Created? <==> r.email !in w.users && r.email in w'.users)
      && (answer.Conflict? <==> GetsThrough(w, c) && (Known(w, r) || (!EarlyFault(r) && UploadUsed(w, r))))
      && (answer.Failed? <==> GetsThrough(w, c) && !answer.Created? && !answer.Conflict?)
      && (!answer.Created? ==> w'.users == w.users && w'.outbox == w.outbox)
      && (answer.Created? ==> GetsThrough(w, c))
      && (answer.Created? && r.tempKey.Some? ==>
           Upload(r.tempKey.value) in w'.redis.texts
           && w'.redis.texts[Upload(r.tempKey.value)] == Entry("CONSUMED", Some(c.mark + 600000)))
  {
    RegistrationAnswers(w, sha, c.request);
  }

  /** What users-service replies, possibly after other calls used the upload, reaches the client as what it is. */
  lemma {:induction false} RepliesAreTranslated(w: World, sha: string -> string, r: Request)
    requires r.Register?
    ensures var answer := AnswerTo(Serve(w, sha, r).1);
      && (answer.Created? <==> r.email !in w.users && r.email in Serve(w, sha, r).0.users)
      && (answer.Conflict? <==> Known(w, r) || (!EarlyFault(r) && UploadUsed(w, r)))
      && (answer.Created? || answer.Conflict? || answer.Failed?)
  {
    RegistrationAnswers(w, sha, r);
  }
}
