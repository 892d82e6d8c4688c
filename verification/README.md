# Verification of the SkillUp account, outbox and media protocols

A Dafny model of the protocols that run between the API gateway, users-service and media-service over a
shared Redis store, a SQL outbox table and a message broker, with proofs about all their runs.
`dafny verify dfyconfig.toml` checks everything.

## What is modelled

**Outbox** (`Outbox`, `OutboxSafety`, `OutboxAnswers`, `OutboxProgress`, `OutboxWorker`). Registrations and
resends commit rows; any number of workers lock batches with SKIP LOCKED, publish, redact, retry and commit
or abort; a pruner deletes old rows. The machine's steps interleave in every order. A publish is confirmed, refused, or
lost, that is, it throws although the broker has the message. The worker is also written as the sequential
code it is, and each of its calls is proved to be a run of the machine.

**Sessions** (`TopK`, `Sessions`). The Lua script that keeps a session hash, a sorted set per user and two
expiries in step, as code, refined to "the last five logins younger than seven days".

**Accounts** (`RedisStore`, `Accounts`, `AccountsSafety`, `AccountsTheorems`, `AccountAnswers`,
`AccountProviders`). Registration, resend and verification as handlers over one Redis client and one database,
each proved equal to a request function, with what each answer means; the theorems are about all runs of
requests, with database faults at every write.

**Login and overlapping verification** (`FailureGuard`, `CounterRun`, `LoginGuard`, `LoginProvider`,
`LoginAnswers`, `VerifyGuard`). The failure counter with GET, comparison, INCR and EXPIRE as separate steps
of concurrent attempts, the bounds and the freeze it gives; both handlers are proved to be runs of that machine.

**Rate limit** (`RateLimit`, `RateLimitAhead`, `RateLimitGuard`). The atomic window counters, what a counter
says about the traffic to come, the two-layer decision over requests whose scripts interleave in any order,
and the headers.

**Uploads and avatars** (`UploadToken`, `GatewayRegistration`, `GatewayAnswers`, `UploadRun`,
`MediaService`, `AvatarConsumer`, `AvatarDeliveries`, `TempCleanup`). The token from PENDING to CONSUMED
across three services in every interleaving; the consumer with overlapping deliveries, crashes and
redelivery; sweeps that list and delete while uploads go on. The handlers are code, each proved to be a run of
its machine.

**Messages** (`RetryTag`, `Messages`). The Retry-After tag printed by one service and parsed and stripped by
another. The number printed is positive, so it is a valid delay-seconds value of section 10.2.3 of RFC 9110.

**End to end** (`EndToEnd`). The mailed code verifies, and the uploaded avatar is made, through all services.

`Wrappers`, `Sets` and `Letters` hold an option type, one fact about finite sets, and case mapping.

## How the model reads the code

- Instants are milliseconds. A Redis key lives until its expiry instant and is gone from it on; TTL rounds
  the remaining time to the nearest second, as Redis does. Each command of a request has its own instant, so
  time passes between the commands of one request.
- Redis commands do not fail. Opening a database connection and a transaction does not fail. A save that
  throws aborts its PostgreSQL transaction, so the save in the catch block throws as well.
- Commands the source issues together are run in the order it lists them.
- Account requests are serialised per email, and requests for different emails may overlap. The login guard,
  verifications between issue and success of an OTP, the outbox and the upload token are modelled with every
  interleaving instead. A code is compared the moment the OTP is read.
- No process dies between a registration's Redis writes and its commit, or between a verification's commit and
  its Redis cleanup; either would leave an OTP without a PENDING user until it expires. Every other outcome of
  these handlers, and every crash of an outbox worker or an avatar consumer, is covered.
- A login in flight that has compared a wrong password goes on to its INCR, and one in flight at a time is
  what N = 1 means in the bound. The counter belongs to one identifier as typed; an email address and a
  username of one account have a counter each.
- A row id is its position among all rows ever committed; session ids, user ids and UUIDs are fresh. SHA-256
  is an arbitrary function, a parameter of every theorem that uses it. Session ids compare as numbers, which
  is their order as UUID text.
- Each rate-limit prefix has one limit and ttl. Different key patterns never name the same Redis key.
- The gateway reaches users-service less than ten minutes after its token check, and an uploaded object does
  not change after that check.
- The clock of the object store, that of the sweep and that of Redis agree in `TempCleanup`. A sweep begins at
  boot and at each half-hourly tick that finds none under way, its listing and deletions succeed, and it lists
  every object that is there from its beginning to its end. The service does not go down.

## Where the code and its documentation differ

The model follows the code.

- README.md:155 promises at-least-once delivery. A message refused five times is FAILED and never sent again
  (`OutboxSafety.FiveRefusalsLoseTheMessage`). A settled message is undelivered exactly when every attempt on
  it was refused (`OutboxAnswers.UndeliveredExactlyWhenRefused`).
- README.md:212 calls the upload token single-use. The check and the SET are two commands, and two
  registrations that overlap there both commit (`UploadToken.RaceUsesTheKeyTwice`); overlap is necessary
  (`UploadToken.DoubleUseNeedsOverlap`).
- README.md:257-262 states limits per 15 minutes. The windows are fixed, so almost twice the limit can pass
  within 15 minutes (`RateLimitAhead.SlidingWindowBoundIsReached`), never more (`RateLimit.SlidingWindowBound`).
  From a given instant on the stated limit holds exactly under a condition Redis shows
  (`RateLimitAhead.LimitHoldsExactlyWhenTight`).
- The header comment of the login handler states five attempts. Concurrent logins get up to 5 + N - 1
  (`LoginGuard.WrongPasswordBoundIsReached`), never more (`LoginGuard.WrongPasswordBound`). The same goes for
  the seven of verification (`VerifyGuard.OverlappingGuessBound`).
- README.md:318 states a freeze of 15 minutes after five failed logins. A login that passed the guard before can
  still lift it (`LoginGuard.FreezeCanBeLifted`); it is certain exactly when there is none
  (`LoginGuard.FreezeIsCertainExactly`).
- A resend whose transaction fails leaves in Redis an OTP that no mail carries
  (`AccountsTheorems.UnqueuedResendDisagrees`); with unrepeated codes this is the only way OTP and newest
  mail disagree (`AccountsTheorems.OtpAgreesExactlyWhenQueued`).
- README.md:287 states a lock of 900 seconds after the seventh failure. It holds if and only if the counter
  has not expired between the INCR and the EXPIRE (`AccountsTheorems.SeventhFailureLocks`), which is sure when
  the EXPIRE comes within 300 s of reading the OTP (`AccountsTheorems.TimelyFailureLocks`) and not beyond
  (`AccountsTheorems.LateFailureDoesNotLock`).

## Model

| member | source | states |
|---|---|---|
| Outbox.InsertKeepsInv | apps/users-service/src/providers/register.provider.ts:104-145 | committing any rows, new and PENDING with no retries, keeps the outbox invariant: statuses match retry counts, payloads and copies in the broker |
| Outbox.BeginKeepsInv | apps/users-service/src/outbox/outbox.worker.ts:96-109 | locking any batch the SKIP LOCKED select may return keeps the invariant, so concurrent batches never share a row |
| Outbox.SaveKeepsInv | apps/users-service/src/outbox/outbox.worker.ts:120-165 | publish, settle and save of one message, confirmed, refused or lost, keeps the invariant while other workers hold their own batches |
| Outbox.FailedSaveKeepsInv | apps/users-service/src/outbox/outbox.worker.ts:143-170 | a save that throws after a publish that may have reached the broker aborts the transaction and keeps the invariant, the extra copy charged to the abort |
| Outbox.CommitKeepsInv | apps/users-service/src/outbox/outbox.worker.ts:167 | a commit writes exactly the worker's own rows and keeps the invariant |
| Outbox.AbortKeepsInv | apps/users-service/src/outbox/outbox.worker.ts:168-173 | a rollback or crash restores the rows, frees the locks and keeps the invariant |
| Outbox.PruneKeepsInv | apps/users-service/src/outbox/outbox.worker.ts:31-57 | the hourly pruner, at any moment between workers' steps, keeps the invariant |
| Outbox.RunKeepsInv | apps/users-service/src/outbox/outbox.worker.ts:31-178 | the invariant holds after every run: any number of workers, inserts, lost confirmations, crashes and prunes in any order |
| Outbox.HeldIsLocked | apps/users-service/src/outbox/outbox.worker.ts:102-109 | a row in an open batch is locked by that batch's worker and no other |
| OutboxSafety.RunHistory | apps/users-service/src/outbox/outbox.worker.ts:91-178 | over any run a row keeps its event type, creation time and inserted payload, and its abort count is the number of aborted transactions of the run that held it |
| OutboxSafety.TableIsInserted | apps/users-service/src/outbox/outbox.worker.ts:91-178 | the table after a run is the inserted rows in order: no step invents, drops or reorders one |
| OutboxSafety.DuplicateBound | apps/users-service/src/outbox/outbox.worker.ts:120-177 | in every interleaving a message is published at most 1 + retryCount + (aborted transactions that held it) times; one less when it is free and not PUBLISHED |
| OutboxSafety.BatchesAreDisjoint | apps/users-service/src/outbox/outbox.worker.ts:102-109 | two workers' open transactions never hold the same row |
| OutboxSafety.NoLostMessage | apps/users-service/src/outbox/outbox.worker.ts:120-167 | every row ever committed is PENDING below five retries, FAILED at exactly five, or PUBLISHED; a PUBLISHED or pruned one is in the broker log |
| OutboxSafety.PruneRemovesOnlyOldPublished | apps/users-service/src/outbox/outbox.worker.ts:31-57 | pruning removes a row exactly when it is PUBLISHED and was processed before the cutoff, and changes nothing else |
| OutboxSafety.DeliveredAsInserted | apps/users-service/src/outbox/outbox.worker.ts:122-145 | everything in the broker is an inserted payload under its routing key, also after rollback and redelivery; a committed row is unredacted until PUBLISHED and redacted from then on |
| OutboxSafety.RoutedByType | apps/users-service/src/outbox/outbox.worker.ts:180-189 | over any run every broker copy of a PROCESS_PROFILE_PHOTO row carries media.photo.process, of a SEND_VERIFICATION_EMAIL row notification.email.verify, and of any other its lower-case name under skillhub.event. |
| OutboxSafety.RedactionHidesTheCode | apps/users-service/src/outbox/outbox.worker.ts:131-141 | redaction replaces the code by [REDACTED] and nothing else; two payloads redact to the same value exactly when they agree on everything but the code; a payload without one stays as it is |
| OutboxSafety.ExactlyOnceWithoutFaults | apps/users-service/src/outbox/outbox.worker.ts:120-167 | without aborts and lost confirmations a free row has exactly one copy in the broker when PUBLISHED and none otherwise |
| OutboxAnswers.CopiesAreReached | apps/users-service/src/outbox/outbox.worker.ts:120-130 | over any run, from any state, the broker gains one copy of a message for each publish attempt on it that was not refused |
| OutboxAnswers.UndeliveredExactlyWhenRefused | apps/users-service/src/outbox/outbox.worker.ts:120-163 | at-least-once delivery, exactly: the broker has no copy of a message if and only if every attempt ever made on it was refused, and a settled row without a copy is FAILED after at least five refusals |
| OutboxAnswers.AnswersDecideStatus | apps/users-service/src/outbox/outbox.worker.ts:143-167 | a free row is FAILED exactly when its committed transactions got five answers and no confirmation, PUBLISHED exactly when one was a confirmation, PENDING otherwise; retryCount counts the others, and processedAt is the instant of the confirmation |
| OutboxSafety.FiveRefusalsLoseTheMessage | apps/users-service/src/outbox/outbox.worker.ts:156-163 | the losing run exists for every message: five refused publishes make it FAILED with no copy in the broker |
| OutboxProgress.CommitLowersWork | apps/users-service/src/outbox/outbox.worker.ts:120-167 | a commit lowers the sum of 5 - retryCount over any set of rows by at least the number of its rows in the set |
| OutboxProgress.CommitsArePaidFor | apps/users-service/src/outbox/outbox.worker.ts:91-178 | with any number of workers, commits plus attempts left never exceed the attempts at the start plus five per inserted row |
| OutboxProgress.CommitsNeverExceedAttempts | apps/users-service/src/outbox/outbox.worker.ts:91-178 | no run, however long, commits more than five batches per row ever inserted |
| OutboxProgress.CommitSweeps | apps/users-service/src/outbox/outbox.worker.ts:102-167 | each commit of the only worker lowers the sum of 5 - retryCount over the PENDING rows by at least min(50, number PENDING) |
| OutboxProgress.SelectFindsExactlyEligible | apps/users-service/src/outbox/outbox.worker.ts:102-114 | with any number of workers the select of an idle worker finds a batch if and only if some row is PENDING and unlocked |
| OutboxProgress.SweepingRunDrains | apps/users-service/src/outbox/outbox.worker.ts:102-167 | one worker, no inserts: whatever aborts, no more commits follow than the bound leaves, and each uses one of them up |
| OutboxProgress.OutboxDrains | apps/users-service/src/outbox/outbox.worker.ts:102-167 | one worker, no inserts, W the sum of 5 - retryCount: at most W/50 + 5 runs commit; within a call the worker can always go on, and between calls it finds a batch unless every row is PUBLISHED or FAILED, as they are once the bound is used up |
| OutboxProgress.BoundedWait | apps/users-service/src/outbox/outbox.worker.ts:102-163 | one worker, only younger inserts: as long as a PENDING row with k PENDING rows no younger is in no committed batch, at most k/10 runs have committed, and the worker can go on with its call or finds a batch for the next; so one of the next k/10 + 1 commits has the row |
| OutboxWorker.RunEnds | apps/users-service/src/outbox/outbox.worker.ts:91-178 | the events of one worker call form a possible run and end in the state its saves, its commit and its rollback determine |
| OutboxWorker.BatchRowAfter | apps/users-service/src/outbox/outbox.worker.ts:120-173 | after a call each row of its batch is settled if everything was saved and the commit succeeded, and is as before otherwise; its lock is free either way |
| OutboxWorker.OtherRowAfter | apps/users-service/src/outbox/outbox.worker.ts:102-173 | a call leaves every row outside its batch as it was |
| OutboxWorker.NothingElseAfter | apps/users-service/src/outbox/outbox.worker.ts:120-177 | a call leaves no transaction open and the broker keeps what was published before the first failed save |
| OutboxWorker.Processor.PublishMessage | apps/users-service/src/outbox/outbox.worker.ts:120-163 | one message: it is sent under its routing key, and the entity handed to save is redacted and PUBLISHED, retried, or FAILED at the fifth refusal |
| OutboxWorker.Processor.PublishBatch | apps/users-service/src/outbox/outbox.worker.ts:120-165 | the loop saves exactly the messages before the first failed save and publishes those and the failing one |
| OutboxWorker.Processor.RunTransaction | apps/users-service/src/outbox/outbox.worker.ts:96-173 | select, loop, and commit or rollback end in exactly the state of the specification |
| OutboxWorker.Processor.ProcessOutboxMessages | apps/users-service/src/outbox/outbox.worker.ts:91-178 | one call does nothing while another is in progress and otherwise performs exactly one run of the concurrent machine; isProcessing is always released |
| OutboxWorker.Processor.PrunePublishedMessages | apps/users-service/src/outbox/outbox.worker.ts:31-57 | exactly the PUBLISHED rows processed over retentionHours before now are gone after the call, and no other row, lock, transaction or message changes: the machine's prune step |
| TopK.TopAfterInsert | libs/shared/redis/src/redis.service.ts:83-99 | evicting down to k before an insert never changes the top k afterwards: the trimmed set refines the full history |
| TopK.LowestAreTheRest | libs/shared/redis/src/redis.service.ts:91-98 | removing the lowest size - k ranks leaves exactly the k greatest by score and then member |
| TopK.TopSize | libs/shared/redis/src/redis.service.ts:88-98 | the kept set has exactly min(size, k) members |
| Sessions.SetIsTopOfInserted | libs/shared/redis/src/redis.service.ts:83-99 | for any scores, ties and clock skew included, the live sorted set is the maxDevices greatest of everything inserted since the key last expired |
| Sessions.HashIsLiveMember | libs/shared/redis/src/redis.service.ts:73-99 | a login's hash is live exactly when it is younger than the TTL and its user's live set holds it, and it holds what that login stored |
| Sessions.NeverMoreThanMaxDevices | libs/shared/redis/src/redis.service.ts:87-99 | no user ever has more than maxDevices live sessions, under any clocks, and every live hash stems from a login |
| Sessions.LastLoginsRefinement | libs/shared/redis/src/redis.service.ts:60-102 | with growing scores a session is live at time t if and only if it is younger than the TTL and among its user's maxDevices latest logins |
| Sessions.LastFiveWithinSevenDays | libs/shared/redis/src/redis.service.ts:46-54 | with the limits login and verification pass: the last five logins of a user younger than seven days, and no others |
| Sessions.RedisSessions.ZRangeLowest | libs/shared/redis/src/redis.service.ts:94 | ZRANGE 0 n-1 returns the n lowest members in rank order |
| Sessions.RedisSessions.DeleteHashes | libs/shared/redis/src/redis.service.ts:95-97 | the loop deletes exactly the hashes of the stale members |
| Sessions.RedisSessions.Evict | libs/shared/redis/src/redis.service.ts:87-99 | the eviction leaves the top maxDevices members and no hash of any evicted one |
| Sessions.RedisSessions.SaveSessionWithEviction | libs/shared/redis/src/redis.service.ts:60-102 | the script, command by command, performs exactly one step of the session history |
| RedisStore.DelayIsAnnounced | apps/users-service/src/providers/verify-account.provider.ts:56-61 | an announced delay is the time left on the key to the nearest second, or the default when Redis gives none |
| AccountsSafety.RegisterKeepsGood | apps/users-service/src/providers/register.provider.ts:50-175 | every outcome of a registration keeps the invariant of its email: counter, OTP, cooldown, user and outbox agree |
| AccountsSafety.ResendKeepsGood | apps/users-service/src/providers/verification-code.provider.ts:43-138 | every outcome of a resend keeps it, a failed commit after the Redis writes included |
| AccountsSafety.FailKeepsGood | apps/users-service/src/providers/verify-account.provider.ts:85-123 | a wrong code keeps it: the counter has counted every guess against the live OTP and outlives it |
| AccountsSafety.VerifyKeepsGood | apps/users-service/src/providers/verify-account.provider.ts:48-177 | every outcome of a verification keeps it |
| AccountsSafety.OthersDoNotShow | apps/users-service/src/providers/verify-account.provider.ts:40-46 | a request for another email changes nothing in this email's view of Redis, users, outbox and history |
| AccountsSafety.RunIsGood | apps/users-service/src/providers/verify-account.provider.ts:48-177 | the invariant of every email holds after every run serialised per email, database faults included |
| AccountsTheorems.OtpGuessBound | apps/users-service/src/providers/verify-account.provider.ts:48-123 | over any serialised run at most seven wrong codes are ever compared against any one issued OTP |
| VerifyGuard.OverlappingGuessBound | apps/users-service/src/providers/verify-account.provider.ts:48-123 | with at most N verifications of an email under way, in any interleaving and whatever was under way at the issue, and no resend, at most 7 + N - 1 wrong codes are compared against one OTP before a success |
| VerifyGuard.OverlappingGuessBoundIsReached | apps/users-service/src/providers/verify-account.provider.ts:48-123 | that bound is exact: for every N some run compares 7 + N - 1 wrong codes while the OTP lives |
| VerifyGuard.VerifyIsARun | apps/users-service/src/providers/verify-account.provider.ts:48-177 | a call of the handler moves counter and OTP as a run of the overlapping machine and adds a guess exactly when it compares a wrong code |
| AccountsTheorems.GuessRateBound | apps/users-service/src/providers/verification-code.provider.ts:58-108 | in any interval of length T at most 7 * (T / 60 s + 2) wrong codes are compared for an email |
| AccountsTheorems.SeventhFailureLocks | apps/users-service/src/providers/verify-account.provider.ts:85-116 | the seventh failure always removes the OTP, and locks the email for 900 s from its EXPIRE if and only if the counter is still alive at that EXPIRE |
| AccountsTheorems.TimelyFailureLocks | apps/users-service/src/providers/verify-account.provider.ts:85-116 | the lock follows from the TTLs: an EXPIRE within 900 - 600 = 300 s of reading the OTP always finds the counter alive and locks for 900 s |
| AccountsTheorems.LockHolds | apps/users-service/src/providers/verify-account.provider.ts:48-116 | after a timely seventh failure every verify and resend of the run that starts within 900 s of its EXPIRE is refused with a positive delay, and no OTP exists, whatever else is requested |
| AccountsTheorems.LateFailureDoesNotLock | apps/users-service/src/providers/verify-account.provider.ts:86-116 | the 300 s are exact: with one millisecond more a run exists whose seventh failure answers 900 s and leaves no lock and a counter that reads 0 |
| AccountsTheorems.VerifiedExactlyWhenCodeMatches | apps/users-service/src/providers/verify-account.provider.ts:48-177 | in every serialised run a verify answers Verified if and only if an OTP is live, the code hashes to it and the database works: a live OTP is never locked out |
| AccountsTheorems.VerificationIsFinal | apps/users-service/src/providers/verify-account.provider.ts:143-177 | a verified account stays ACTIVE with no OTP and no failure counter over any later requests, and each request for it finds no code to guess, resend or register |
| AccountsTheorems.VerifiedStays | apps/users-service/src/providers/verify-account.provider.ts:143-177 | the same from the Verified reply of any run on |
| AccountsTheorems.LockRejects | apps/users-service/src/providers/verification-code.provider.ts:43-56 | while the lock lasts a request changes nothing and verify and resend answer with a positive delay |
| AccountsTheorems.LockPersists | apps/users-service/src/providers/verify-account.provider.ts:48-63 | until the lock expires no sequence of requests, for this and other emails, lifts it, issues an OTP for the email or gets a verify or resend through |
| AccountsTheorems.RegistrationIsAtomic | apps/users-service/src/providers/register.provider.ts:50-175 | a registration commits its user with all its rows, or leaves users, outbox and history as they were and no OTP for an unknown email |
| AccountsTheorems.UsersAreAsRegistered | apps/users-service/src/providers/register.provider.ts:71-145 | every committed user was registered by one request of the run and keeps its name, photo path, mail and photo job whatever follows; it is ACTIVE exactly when a later verify was answered Verified, and PENDING otherwise |
| AccountsTheorems.UsernamesAreUnique | apps/users-service/src/providers/register.provider.ts:50-66 | over all runs no two committed users share a username |
| AccountsTheorems.MailsNameTheirUsers | apps/users-service/src/providers/register.provider.ts:104-116 | every queued mail is for a committed user and carries that user's name |
| AccountsTheorems.PhotoJobsAreRegistered | apps/users-service/src/providers/register.provider.ts:118-142 | every photo row is the job of one registration: from the upload it named to the photo path of its user |
| AccountAnswers.RegistrationAnswers | apps/users-service/src/providers/register.provider.ts:50-192 | each answer of a registration is given exactly for its reason: DuplicateUser if and only if the email is registered or some committed user has the name, and so on |
| AccountAnswers.ResendAnswers | apps/users-service/src/providers/verification-code.provider.ts:43-138 | each answer of a resend is given exactly for its reason, its delays are the times left, and only an issued code changes anything |
| AccountAnswers.CodeSentExactly | apps/users-service/src/providers/verification-code.provider.ts:43-138 | in every serialised run a resend answers CodeSent if and only if fewer than seven failures are counted, no cooldown is live, the user is PENDING and the row commits |
| AccountAnswers.IssueLeaves | apps/users-service/src/providers/verification-code.provider.ts:95-128 | after Registered or CodeSent the OTP is the code's hash for 600 s, the cooldown stands for 60 s, no failure is counted, and the newest mail carries the code and the user's name |
| AccountAnswers.IssuedCodeVerifies | apps/users-service/src/providers/verify-account.provider.ts:71-177 | entering that code within 600 s is answered Verified, whatever requests for other emails come between |
| AccountAnswers.VerificationAnswers | apps/users-service/src/providers/verify-account.provider.ts:48-170 | each answer of a verification is given exactly for its reason; only a wrong code and a success change anything |
| AccountAnswers.AttemptsLeftAreExact | apps/users-service/src/providers/verify-account.provider.ts:85-123 | the attempts remaining are exact: of further wrong codes while counter and OTP last, the k-th is the one answered with the lock of 900 s |
| AccountsTheorems.OtpAgreesWithMail | apps/users-service/src/providers/verification-code.provider.ts:95-138 | a live OTP belongs to a PENDING user and is the hash of the latest issued code; the newest mail carries the latest code whose row committed |
| AccountsTheorems.OtpAgreesExactlyWhenQueued | apps/users-service/src/providers/verification-code.provider.ts:103-138 | when codes are not repeated, live OTP and newest mail agree if and only if the last issue's outbox row committed |
| AccountsTheorems.UnqueuedResendDisagrees | apps/users-service/src/providers/verification-code.provider.ts:103-138 | the agreement does fail: a resend whose transaction fails leaves an OTP whose code no mail carries |
| AccountProviders.Providers.CreateInTransaction | apps/users-service/src/providers/register.provider.ts:49-158 | the transaction block stops at the first duplicate, fault or consumed token, and a rollback undoes its rows but not its Redis writes |
| AccountProviders.Providers.CreateUser | apps/users-service/src/providers/register.provider.ts:36-196 | the handler, with its compensation of a stored OTP, leaves the world and the reply the registration specification gives |
| AccountProviders.Providers.SendVerificationCode | apps/users-service/src/providers/verification-code.provider.ts:35-155 | the resend handler leaves the world and the reply of the resend specification |
| AccountProviders.Providers.CountFailure | apps/users-service/src/providers/verify-account.provider.ts:85-123 | the wrong-code branch leaves the world and the reply of the failure specification |
| AccountProviders.Providers.VerifyAccount | apps/users-service/src/providers/verify-account.provider.ts:39-209 | the verification handler leaves the world and the reply of the verification specification and stores a session exactly when it verified |
| FailureGuard.StepKeepsInv | apps/users-service/src/providers/login.provider.ts:51-140 | each single step of any attempt under way keeps the counting invariant between counter, uncounted and committed attempts, for any limit |
| LoginGuard.WrongPasswordBound | apps/users-service/src/providers/login.provider.ts:51-130 | with at most N logins in flight, in any interleaving of GET, compare, INCR and EXPIRE, at most 5 + N - 1 wrong passwords are compared in one lifetime of the counter |
| LoginGuard.WrongPasswordBoundIsReached | apps/users-service/src/providers/login.provider.ts:51-130 | the bound is exact: for every N some run compares 5 + N - 1 wrong passwords |
| LoginGuard.FreezeHoldsUnlessCleared | apps/users-service/src/providers/login.provider.ts:51-140 | until it expires the freeze after five failures holds throughout a run, in every interleaving, if and only if no login of the run reaches the counter's DEL |
| LoginGuard.FreezeIsCertainExactly | apps/users-service/src/providers/login.provider.ts:51-140 | the documented 15-minute freeze is kept by every run if and only if no login is past the guard at the moment it sets in |
| LoginGuard.FreezeCanBeLifted | apps/users-service/src/providers/login.provider.ts:132-135 | with two logins in flight a run exists in which a freeze that has just set in is lifted by a login that had passed the guard before |
| LoginAnswers.LoggedInExactly | apps/users-service/src/providers/login.provider.ts:51-140 | a login succeeds if and only if fewer than five failures are counted, the account is ACTIVE and the password is right |
| LoginAnswers.OtherAnswers | apps/users-service/src/providers/login.provider.ts:51-130 | each other answer is given exactly for its reason: unknown, PENDING or BLOCKED account, wrong password, freeze with the time left; only a wrong password and a success touch the counter |
| LoginAnswers.AttemptsLeftAreExact | apps/users-service/src/providers/login.provider.ts:101-129 | the attempts remaining are exact: of further wrong passwords within the counter's life the k-th is the one answered with the freeze of 900 s |
| LoginProvider.LoginIsARun | apps/users-service/src/providers/login.provider.ts:51-140 | a call of the handler moves the counter exactly as a run of the interleaved machine by one login |
| LoginProvider.Provider.Login | apps/users-service/src/providers/login.provider.ts:51-172 | the handler answers and leaves the counter as specified and stores a session exactly for an ACTIVE account with the right password and fewer than five counted failures |
| RateLimit.TouchKeepsWindow | apps/api-gateway/src/common/guards/ip-rate-limit.guard.ts:69-80 | each execution of the script keeps the window invariant: who passed in the older and in the current window, and when the window began |
| RateLimit.SlidingWindowBound | apps/api-gateway/src/common/guards/ip-rate-limit.guard.ts:69-80 | in any traffic and for any key, at most 2 * limit - 1 executions within any interval of length ttl return a count within the limit |
| RateLimit.WindowBound | apps/api-gateway/src/common/guards/ip-rate-limit.guard.ts:69-80 | in one counter window exactly the first `limit` executions pass |
| RateLimit.EveryWindowEnds | apps/api-gateway/src/common/guards/ip-rate-limit.guard.ts:69-80 | no counter is left without an expiry, and every window ends within ttl of its last touch |
| RateLimitAhead.AheadBound | apps/api-gateway/src/common/guards/ip-rate-limit.guard.ts:69-80 | from any instant on, at most `limit` more executions within ttl pass if the counter Redis holds is absent, at its limit, or lasts the interval, and otherwise at most 2 * limit - count |
| RateLimitAhead.WorstAheadIsReached | apps/api-gateway/src/common/guards/ip-rate-limit.guard.ts:69-80 | otherwise some traffic reaches 2 * limit - count |
| RateLimitAhead.LimitHoldsExactlyWhenTight | apps/api-gateway/src/common/guards/ip-rate-limit.guard.ts:69-80 | the documented limit per ttl holds from an instant on, for all traffic, if and only if the key has no live counter then, or its count has reached the limit, or its window lasts the whole interval |
| RateLimitAhead.LimitAheadOfTraffic | apps/api-gateway/src/common/guards/ip-rate-limit.guard.ts:69-80 | the same after any traffic up to that instant |
| RateLimitAhead.SlidingWindowBoundIsReached | apps/api-gateway/src/common/guards/ip-rate-limit.guard.ts:69-80 | for every limit and ttl some traffic lets exactly 2 * limit - 1 through in one interval of length ttl |
| RateLimitGuard.AdmittedBound | apps/api-gateway/src/common/guards/ip-rate-limit.guard.ts:82-159 | whatever mix of addresses and targets arrives and however the scripts of overlapping requests interleave, at most 2 * limit - 1 admitted requests touch a counter in any interval of length ttl |
| RateLimitGuard.VerdictIsAdmission | apps/api-gateway/src/common/guards/ip-rate-limit.guard.ts:82-161 | the guard's verdict on a request whose scripts run back to back is its admission in the traffic, and its scripts are what it adds to the traffic |
| RateLimitGuard.CountersAreSeparate | apps/api-gateway/src/common/guards/ip-rate-limit.guard.ts:42-65 | requests share a counter exactly when they share the endpoint's prefix and the address, or the target |
| RateLimitGuard.HeadersAreExact | apps/api-gateway/src/common/guards/ip-rate-limit.guard.ts:82-159 | a request is refused exactly when a counter is past the limit, exactly then carries a Retry-After, the time left of the window that refuses it, the address's first; Reset is the later end of its windows |
| RateLimitGuard.ResetOutlastsWindows | apps/api-gateway/src/common/guards/ip-rate-limit.guard.ts:91-122 | by X-RateLimit-Reset every window the request counts in is over, and by Retry-After the window that blocked it, up to the half second TTL is rounded by |
| RateLimitGuard.RemainingIsExact | apps/api-gateway/src/common/guards/ip-rate-limit.guard.ts:115-126 | X-RateLimit-Remaining r is exact: of further requests alone on the keys and within both windows, the n-th is admitted if and only if n <= r |
| RateLimitGuard.Guard.Eval | apps/api-gateway/src/common/guards/ip-rate-limit.guard.ts:69-80 | the script's INCR, TTL and EXPIRE leave the counter the specification gives and return its new count |
| RateLimitGuard.Guard.CanActivate | apps/api-gateway/src/common/guards/ip-rate-limit.guard.ts:27-161 | the guard decides, sets headers and bumps counters as specified, and touches nothing on an undecorated route |
| UploadToken.StepKeepsInv | apps/api-gateway/src/users/providers/registration.provider.ts:54-97 | each step of issue, check, purge, read, set, commit and mark keeps the token invariant in every interleaving |
| UploadToken.DoubleUseNeedsOverlap | apps/users-service/src/providers/register.provider.ts:119-128 | two registrations commit the same upload only if each read the token before the other set it |
| UploadToken.SingleUse | apps/users-service/src/providers/register.provider.ts:119-128 | with the users-service check-and-set in one step, at most one registration commits per file key over the whole run |
| UploadToken.NeverPendingAgain | apps/media-service/src/media.service.ts:112-126 | a key that has left PENDING, by use, purge or expiry, reads PENDING at no later time, whatever happens |
| UploadToken.ConsumedIsPast | apps/api-gateway/src/users/providers/registration.provider.ts:153-157 | a consumed key is one that has left PENDING |
| UploadToken.RaceUsesTheKeyTwice | apps/users-service/src/providers/register.provider.ts:120-128 | as written, with GET and SET apart, a race of two registrations commits one upload twice |
| UploadRun.CallIsARun | apps/api-gateway/src/users/providers/registration.provider.ts:54-157 | a register call, down to the users-service transaction, moves the token as a run of the machine, and creates an account exactly when the machine's registration commits |
| UploadRun.UsedUploadIsRefused | apps/api-gateway/src/users/providers/registration.provider.ts:54-72 | once any interleaving has used an upload, every later call naming it is refused and changes nothing, with no time limit |
| GatewayAnswers.RefusalAnswers | apps/api-gateway/src/users/providers/registration.provider.ts:54-107 | each refusal of an upload is given exactly for its reason and changes nothing, except that a file of the wrong size costs its token |
| GatewayAnswers.AccountAnswersOfCall | apps/api-gateway/src/users/providers/registration.provider.ts:148-183 | with an upload or without, Created is answered exactly when the call added an account, Conflict exactly when email or name is known or the upload used, Failed otherwise; a used upload stays CONSUMED for 600 s |
| GatewayRegistration.Provider.CheckUpload | apps/api-gateway/src/users/providers/registration.provider.ts:54-107 | the checks refuse in the source's order and purge the token exactly for a file of the wrong size |
| GatewayRegistration.Provider.Register | apps/api-gateway/src/users/providers/registration.provider.ts:48-183 | the handler leaves the world and the answer of the specification |
| GatewayAnswers.RepliesAreTranslated | apps/api-gateway/src/users/providers/registration.provider.ts:164-183 | whatever happened to the upload since the gateway's check, a registration's reply reaches the client as Created, Conflict or Failed for what it is |
| MediaService.FreshUuidFreshKey | apps/media-service/src/media.service.ts:46-112 | different UUIDs give different file keys, whatever folders and names the requests ask for |
| MediaService.KeyIsSafe | apps/media-service/src/media.service.ts:46-112 | a key is its category's folder, whatever the case it is written in, the UUID, and a name of letters, digits, dot, dash and underscore that cannot leave the folder |
| MediaService.Service.GetPresignedUploadUrl | apps/media-service/src/media.service.ts:43-161 | a URL is issued if and only if type, size and signing allow it, and exactly then its key becomes PENDING for 120 s |
| AvatarConsumer.Consumer.HandlePhotoProcess | apps/media-service/src/consumers/media-consumer.service.ts:129-186 | the handler changes storage as specified and throws exactly when the delivery is to be rejected |
| AvatarConsumer.Consumer.Consume | apps/media-service/src/consumers/media-consumer.service.ts:74-103 | a delivery is acknowledged unless the handler throws, and rejected without requeue then |
| AvatarConsumer.AckMeansDone | apps/media-service/src/consumers/media-consumer.service.ts:79-186 | a delivery is rejected exactly when its upload is missing or its avatar was not confirmed stored; an acknowledged good upload has become the avatar |
| AvatarDeliveries.StepStaysOnTrack | apps/media-service/src/consumers/media-consumer.service.ts:129-186 | each single step, fetch, put, delete or crash, of any delivery under way keeps a job's upload or its finished avatar, and finishes it exactly when it is a put of that job that reached the store |
| AvatarDeliveries.AvatarIsDelivered | apps/media-service/src/consumers/media-consumer.service.ts:70-186 | however deliveries and redeliveries overlap, fail, die, or throw after the store took the image, the target ends as after a single delivery if and only if one put of the job reached the store |
| AvatarDeliveries.BadUploadIsNeverUsed | apps/media-service/src/consumers/media-consumer.service.ts:151-158 | a file of the wrong size never changes its target under any overlapping deliveries, and is gone exactly when one delivery's deletion worked |
| AvatarDeliveries.OthersUntouched | apps/media-service/src/consumers/media-consumer.service.ts:129-186 | deliveries leave alone every object that is no job's upload or target |
| AvatarDeliveries.DeliveryIsARun | apps/media-service/src/consumers/media-consumer.service.ts:74-186 | the consumer's handling of one delivery is a run of that machine |
| TempCleanup.Service.CleanExpiredTempUploads | apps/media-service/src/storage/temp-cleanup.service.ts:39-95 | one sweep deletes exactly the listed objects aged 2 h or more that can be deleted, skips a cycle in progress, and releases isCleaning |
| TempCleanup.SweepIsExact | apps/media-service/src/storage/temp-cleanup.service.ts:56-82 | after a complete listing without failed deletions, an object under the prefix is left if and only if it is younger than 2 h |
| TempCleanup.SweptExactly | apps/media-service/src/storage/temp-cleanup.service.ts:59-82 | a name is swept exactly when it is listed with a date two hours back or more and can be deleted; an undated object is kept |
| TempCleanup.StepKeepsInv | apps/media-service/src/storage/temp-cleanup.service.ts:54-82 | each step of a sweep that lists and deletes while uploads, removals and time go on keeps what is known of every object's age |
| TempCleanup.NothingOutlivesTheSweep | apps/media-service/src/storage/temp-cleanup.service.ts:19-82 | with sweeps at boot and at the half-hourly ticks lasting at most d, no temporary object outlives 2 h, the gap to the next sweep and d: 2.5 h plus d when d is under 30 min, and d more after the boot sweep |
| TempCleanup.PendingUploadsSurvive | apps/media-service/src/media.service.ts:112-126 | no deletion of any sweep, whenever it comes after the listing, removes an object whose upload token is still PENDING |
| TempCleanup.SweepIsARun | apps/media-service/src/storage/temp-cleanup.service.ts:54-82 | the code's loop over a complete listing is a run of that machine |
| RetryTag.ParsePrinted | apps/api-gateway/src/users/providers/login.provider.ts:132-135 | parseInt of a printed number is that number |
| RetryTag.NumberIsRecovered | apps/api-gateway/src/users/providers/login.provider.ts:132-135 | the leftmost match in a tagged message is the appended tag, and its digits are n |
| RetryTag.TextIsRecovered | apps/api-gateway/src/users/providers/login.provider.ts:136-138 | the strip removes the tag with the space before it and nothing else |
| RetryTag.RetryAfterRoundTrip | apps/api-gateway/src/users/providers/login.provider.ts:128-149 | for every tag-free trimmed text and every n, parse and strip recover both from the message the service printed |
| RetryTag.TagIsTheMatch | apps/api-gateway/src/users/providers/login.provider.ts:132 | the parser's match is the match of the regular expression, which is unique at its position |
| RetryTag.SpacedTagIsTheMatch | apps/api-gateway/src/users/providers/login.provider.ts:137 | the stripping match is the first expression's after spaces |
| RetryTag.MessageIsTrimmed | apps/api-gateway/src/users/providers/login.provider.ts:136-138 | whatever comes in, the message sent out is trimmed |
| RetryTag.NoTagGivesDefault | apps/api-gateway/src/users/providers/verification-code.provider.ts:100-116 | a message without a tag keeps its text and gets the endpoint's default |
| Messages.RejectionReachesTheClient | apps/api-gateway/src/users/providers/account-verification.provider.ts:121-137 | every timed rejection of verify and resend reaches the client as its bare text and the positive delay the service computed |
| Messages.FreezeReachesTheClient | apps/users-service/src/providers/login.provider.ts:54-63 | the same for a frozen login |
| EndToEnd.MailedCodeVerifies | apps/users-service/src/providers/verify-account.provider.ts:71-177 | while an OTP whose issue was queued is live, whoever enters the code of any broker copy of its newest mail, addressed to the user by name, is answered Verified, however often it was redelivered; the PUBLISHED row shows only the redacted code |
| EndToEnd.PhotoCopiesAreHandedOver | apps/media-service/src/consumers/media-consumer.service.ts:74-140 | every broker copy of a photo row reaches the media queue, and its job is to make the photo of a user some registration committed from the upload it named |
| EndToEnd.PayloadSays | apps/users-service/src/providers/register.provider.ts:106-137 | payloads carry what their rows say under the names the consumers read |
| EndToEnd.PublishedAvatarIsMade | apps/media-service/src/consumers/media-consumer.service.ts:70-186 | over the photo messages of any outbox run, duplicates included, and any overlapping run of the consumer, a message's target holds the image of its upload if and only if one put of it reached the store |
| EndToEnd.AvatarJobsAreApart | apps/api-gateway/src/users/providers/registration.provider.ts:109-146 | the photo jobs of two gateway registrations with their own upload keys and user ids share no object |

## Left out

- bcrypt, JWT signing, random codes and the timing defences of login: the comparison's outcome is an input.
- Trimming and lower-casing of emails, usernames and codes: requests carry the normalised values; case
  mapping elsewhere covers the Latin letters, which decides all names the services compare.
- Password, role and birth date of a user; the stored user has its name, status and photo.
- BLOCKED users: nothing in the code blocks one, so no run reaches the status, though every guard on it is kept.
- The legacy key `otp:attempts:{email}`, which the code only deletes.
- Redis failures, and with them the fail-open paths of the guards and the error logging.
- A process that dies between a password comparison and its INCR, which would leave a guess uncounted.
- JSON text: payloads are values, so stringify and parse are the identity, and a message that does not parse is absent.
- The transformations of a photo and what sharp does with them: one arbitrary function of upload and transformations.
- MinIO, RabbitMQ and SMTP themselves: storage is a map, the broker a log; the object a size purge deletes is not tracked in `GatewayRegistration`.
- The options of the event publisher (message id, headers) beyond event type and routing key.
- `extractClientIp` and the hash of the rate-limit target: addresses and target hashes are inputs.
- Texts of errors other than the timed rejections, and the fallback that recognises "already exists" in an error text.
- Numbers beyond 2^53 in parseInt.
- A pruner with a non-numeric OUTBOX_RETENTION_HOURS, and its retry with the other column name.
- Listing errors in the sweep: a listing that breaks off is a shorter listing of `TempCleanup.Service`.
- The crop arithmetic of the image processor, the scaffold services, the user queries, and password management: no state or only linear arithmetic.
- OutboxWorker.Processor.ProcessOutboxMessages: the table is a sequence of values rather than entities updated in place, and the steps of other workers fall before or after the call; interleavings within a call are those of the machine in `Outbox`.
- RateLimitGuard.ResetOutlastsWindows: the commands of the request run back to back, because a script of another request between an EVAL and its TTL can open a new window; admission itself is proved for every interleaving.
- UploadToken.SingleUse: asks for the users-service check-and-set in one step, because without it the statement is false.
- VerifyGuard.OverlappingGuessBound: stops at the first success, whose two deletions let others guess between them, and at a resend.
- OutboxProgress.BoundedWait: one worker and only younger inserts, because a second worker or an older row that commits later can take the place in the batch.
- OutboxProgress.OutboxDrains: one worker and no inserts, because other workers may hold rows, or new rows arrive, without end.
