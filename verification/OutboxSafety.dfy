/**
 What holds in every run of the outbox: no message is lost, duplicates are bounded, and redaction
 stays inside the database.
 */
module OutboxSafety {
  import opened Wrappers
  import opened Outbox

  // ---------------------------------------------------------------------------------------------
  // The history of a run
  // ---------------------------------------------------------------------------------------------

  /** Every row the run commits, in table order. */
  function Inserted(es: seq<Event>): seq<NewRow> {
    if es == [] then []
    else (if es[0].Insert? then es[0].rows else []) + Inserted(es[1..])
  }

  /** The worker whose transaction the event aborts, if it aborts one. */
  function AbortedBy(e: Event): Option<Worker> {
    match e
    case Abort(w) => Some(w)
    case Attempt(w, _, _, false) => Some(w)
    case _ => None
  }

  /** How many aborted transactions of the run held row `id`. */
  ghost function AbortsHolding(s: System, es: seq<Event>, id: nat): nat
    requires Possible(s, es)
    decreases |es|
  {
    if es == [] then 0
    else
      var w := AbortedBy(es[0]);
      (if w.Some? && w.value in s.txns && id in s.txns[w.value].batch then 1 else 0)
      + AbortsHolding(Apply(s, es[0]), es[1..], id)
  }

  /** One step keeps the identity of every row and counts the aborts that held it. */
  lemma {:induction false} StepHistory(s: System, e: Event, i: nat)
    requires Inv(s) && Enabled(s, e) && i < |s.table|
    ensures i < |Apply(s, e).table|
    ensures Apply(s, e).table[i].original == s.table[i].original
    ensures Apply(s, e).table[i].row.eventType == s.table[i].row.eventType
    ensures Apply(s, e).table[i].row.createdAt == s.table[i].row.createdAt
    ensures Apply(s, e).table[i].aborts == s.table[i].aborts
      + (if AbortedBy(e).Some? && i in s.txns[AbortedBy(e).value].batch then 1 else 0)
  {
    assert RecordOk(s, i);
    forall w | w in s.txns && i in s.txns[w].batch ensures s.table[i].lock == Some(w) {
      HeldIsLocked(s, w, i);
    }
    if e.Commit? && s.table[i].lock == Some(e.worker) {
      var j :| 0 <= j < |s.txns[e.worker].batch| && s.txns[e.worker].batch[j] == i;
      assert TxnOk(s, e.worker) && SlotOk(s, e.worker, j);
    }
  }

  lemma {:induction false} RunHistory(s: System, es: seq<Event>, i: nat)
    requires Inv(s) && Possible(s, es) && i < |s.table|
    ensures i < |Exec(s, es).table|
    ensures Exec(s, es).table[i].original == s.table[i].original
    ensures Exec(s, es).table[i].row.eventType == s.table[i].row.eventType
    ensures Exec(s, es).table[i].row.createdAt == s.table[i].row.createdAt
    ensures Exec(s, es).table[i].aborts == s.table[i].aborts + AbortsHolding(s, es, i)
    decreases |es|
  {
    if es != [] {
      StepHistory(s, es[0], i);
      StepKeepsInv(s, es[0]);
      RunHistory(Apply(s, es[0]), es[1..], i);
    }
  }

  /** From position `at` on the table shows the rows `rows` supplied. */
  ghost predicate Shows(s: System, at: nat, rows: seq<NewRow>) {
    at + |rows| <= |s.table| &&
    forall k :: 0 <= k < |rows| ==>
      var r := s.table[at + k];
      NewRow(r.row.eventType, r.original, r.row.createdAt) == rows[k]
  }

  lemma {:induction false} InsertedShow(s: System, rows: seq<NewRow>, es: seq<Event>)
    requires Inv(s) && Possible(InsertRows(s, rows), es)
    ensures Shows(Exec(InsertRows(s, rows), es), |s.table|, rows)
  {
    var s' := InsertRows(s, rows);
    InsertKeepsInv(s, rows);
    forall k | 0 <= k < |rows|
      ensures |s.table| + k < |Exec(s', es).table|
      ensures var r := Exec(s', es).table[|s.table| + k];
        NewRow(r.row.eventType, r.original, r.row.createdAt) == rows[k]
    {
      RunHistory(s', es, |s.table| + k);
      assert s'.table[|s.table| + k] == Fresh(rows[k]);
    }
    TableGrows(s', es);
  }

  lemma {:induction false} TableGrows(s: System, es: seq<Event>)
    requires Possible(s, es)
    ensures |s.table| <= |Exec(s, es).table|
    decreases |es|
  {
    if es != [] { TableGrows(Apply(s, es[0]), es[1..]); }
  }

  lemma {:induction false} ShowsBoth(s: System, at: nat, a: seq<NewRow>, b: seq<NewRow>)
    requires Shows(s, at, a) && Shows(s, at + |a|, b)
    ensures Shows(s, at, a + b)
  {
    forall k | 0 <= k < |a + b|
      ensures var r := s.table[at + k]; NewRow(r.row.eventType, r.original, r.row.createdAt) == (a + b)[k]
    {
      if k >= |a| { assert s.table[at + k] == s.table[at + |a| + (k - |a|)]; }
    }
  }

  /** The table of a run is exactly the rows its inserts supplied, in order. */
  lemma {:induction false} TableIsInserted(s: System, es: seq<Event>)
    requires Inv(s) && Possible(s, es)
    ensures |Exec(s, es).table| == |s.table| + |Inserted(es)|
    ensures Shows(Exec(s, es), |s.table|, Inserted(es))
    decreases |es|
  {
    if es != [] {
      var s' := Apply(s, es[0]);
      StepKeepsInv(s, es[0]);
      TableIsInserted(s', es[1..]);
      if es[0].Insert? {
        InsertedShow(s, es[0].rows, es[1..]);
        ShowsBoth(Exec(s, es), |s.table|, es[0].rows, Inserted(es[1..]));
      } else {
        assert [] + Inserted(es[1..]) == Inserted(es[1..]);
      }
    }
  }

  lemma {:induction false} NoAbortBeforeInsert(s: System, es: seq<Event>, i: nat)
    requires Inv(s) && Possible(s, es) && |s.table| <= i < |Exec(s, es).table|
    ensures Exec(s, es).table[i].aborts == AbortsHolding(s, es, i)
    decreases |es|
  {
    if es != [] {
      var s' := Apply(s, es[0]);
      StepKeepsInv(s, es[0]);
      forall w, j | w in s.txns && 0 <= j < |s.txns[w].batch| ensures s.txns[w].batch[j] != i {
        assert TxnOk(s, w) && SlotOk(s, w, j);
      }
      if i < |s'.table| {
        RunHistory(s', es[1..], i);
      } else {
        NoAbortBeforeInsert(s', es[1..], i);
      }
    }
  }

  // ---------------------------------------------------------------------------------------------
  // Theorems about every run
  // ---------------------------------------------------------------------------------------------

  /**
   In every interleaving of workers, crashes and lost confirmations, message `id` reaches the broker
   at most once more than its committed retries plus the aborted transactions that held it; when no
   transaction holds it, the extra one is the confirmed publication of a PUBLISHED row.
   */
  lemma {:induction false} DuplicateBound(es: seq<Event>, id: nat)
    requires Possible(EMPTY, es) && id < |Exec(EMPTY, es).table|
    ensures var s := Exec(EMPTY, es);
      && Copies(s.log, id) <= 1 + s.table[id].row.retryCount + AbortsHolding(EMPTY, es, id)
      && (s.table[id].lock.None? ==>
           Copies(s.log, id) <= Weight(s.table[id].row) + AbortsHolding(EMPTY, es, id))
  {
    RunKeepsInv(EMPTY, es);
    NoAbortBeforeInsert(EMPTY, es, id);
    var s := Exec(EMPTY, es);
    assert RecordOk(s, id);
    if s.table[id].lock.Some? {
      var w := s.table[id].lock.value;
      var j :| 0 <= j < |s.txns[w].batch| && s.txns[w].batch[j] == id;
      assert TxnOk(s, w) && SlotOk(s, w, j);
    }
  }

  /** Two open transactions never hold the same row. */
  lemma {:induction false} BatchesAreDisjoint(es: seq<Event>, v: Worker, w: Worker)
    requires Possible(EMPTY, es)
    requires v in Exec(EMPTY, es).txns && w in Exec(EMPTY, es).txns && v != w
    ensures forall i :: i in Exec(EMPTY, es).txns[v].batch ==> i !in Exec(EMPTY, es).txns[w].batch
  {
    RunKeepsInv(EMPTY, es);
    var s := Exec(EMPTY, es);
    forall i | i in s.txns[v].batch ensures i < |s.table| && s.table[i].lock == Some(v) {
      HeldIsLocked(s, v, i);
    }
    forall i | i in s.txns[w].batch ensures i < |s.table| && s.table[i].lock == Some(w) {
      HeldIsLocked(s, w, i);
    }
  }

  /**
   Every row ever committed is still accounted for: PENDING with fewer than five retries, FAILED with
   exactly five, or PUBLISHED, and a PUBLISHED row, pruned or not, has reached the broker.
   */
  lemma {:induction false} NoLostMessage(es: seq<Event>, id: nat)
    requires Possible(EMPTY, es)
    ensures |Exec(EMPTY, es).table| == |Inserted(es)|
    ensures id < |Inserted(es)| ==>
      var s := Exec(EMPTY, es);
      var r := s.table[id];
      && (r.row.status.PENDING? || r.row.status.FAILED? || r.row.status.PUBLISHED?)
      && (r.row.status.PENDING? <==> r.row.retryCount < 5 && !r.row.status.PUBLISHED?)
      && (r.row.status.FAILED? ==> r.row.retryCount == 5)
      && (r.pruned ==> r.row.status.PUBLISHED?)
      && (r.row.status.PUBLISHED? ==> Copies(s.log, id) >= 1)
  {
    RunKeepsInv(EMPTY, es);
    TableIsInserted(EMPTY, es);
    if id < |Inserted(es)| {
      assert RecordOk(Exec(EMPTY, es), id);
    }
  }

  /** Pruning marks exactly the PUBLISHED rows processed before the cutoff and leaves all others alone. */
  lemma {:induction false} PruneRemovesOnlyOldPublished(es: seq<Event>, now: int, retentionHours: int, id: nat)
    requires Possible(EMPTY, es) && id < |Exec(EMPTY, es).table|
    ensures var s := Exec(EMPTY, es);
      var s' := Apply(s, Prune(now, retentionHours));
      && s'.log == s.log && s'.txns == s.txns
      && s'.table[id] == s.table[id].(pruned := s'.table[id].pruned)
      && (s'.table[id].pruned && !s.table[id].pruned <==>
           !s.table[id].pruned && s.table[id].row.status.PUBLISHED? && s.table[id].row.processedAt.Some?
           && now - s.table[id].row.processedAt.value > 3600000 * retentionHours)
      && (s'.table[id].pruned ==> Copies(s'.log, id) >= 1 && s'.table[id].lock.None?)
  {
    RunKeepsInv(EMPTY, es);
    StepKeepsInv(Exec(EMPTY, es), Prune(now, retentionHours));
    assert RecordOk(Apply(Exec(EMPTY, es), Prune(now, retentionHours)), id);
  }

  /**
   Redaction never leaks into delivery: whatever the broker holds is the payload as inserted, even after
   a rollback and redelivery, while a committed row is unredacted until PUBLISHED and redacted after.
   */
  lemma {:induction false} DeliveredAsInserted(es: seq<Event>)
    requires Possible(EMPTY, es)
    ensures var s := Exec(EMPTY, es);
      && (forall k :: 0 <= k < |s.log| ==>
           var d := s.log[k];
           && d.id < |Inserted(es)|
           && d.payload == Inserted(es)[d.id].payload
           && d.eventType == Inserted(es)[d.id].eventType
           && d.routingKey == RoutingKey(Inserted(es)[d.id].eventType))
      && |s.table| == |Inserted(es)|
      && (forall i :: 0 <= i < |s.table| ==>
           s.table[i].row.payload ==
             if s.table[i].row.status.PUBLISHED? then Redact(Inserted(es)[i].payload)
             else Inserted(es)[i].payload)
  {
    RunKeepsInv(EMPTY, es);
    TableIsInserted(EMPTY, es);
    var s := Exec(EMPTY, es);
    forall i | 0 <= i < |s.table|
      ensures RecordOk(s, i)
      ensures NewRow(s.table[i].row.eventType, s.table[i].original, s.table[i].row.createdAt) == Inserted(es)[i]
    {
      assert s.table[|EMPTY.table| + i] == s.table[i];
    }
  }

  /**
   Each kind of message goes where its consumer listens: photo jobs to the media queue's key, mails to the
   notification queue's, and any other event under its own lower-case name.
   */
  lemma {:induction false} RoutedByType(es: seq<Event>, k: nat)
    requires Possible(EMPTY, es) && k < |Exec(EMPTY, es).log|
    ensures var d := Exec(EMPTY, es).log[k];
      && d.id < |Inserted(es)|
      && var eventType := Inserted(es)[d.id].eventType;
         && d.eventType == eventType
         && (eventType == "PROCESS_PROFILE_PHOTO" ==> d.routingKey == "media.photo.process")
         && (eventType == "SEND_VERIFICATION_EMAIL" ==> d.routingKey == "notification.email.verify")
         && (eventType != "PROCESS_PROFILE_PHOTO" && eventType != "SEND_VERIFICATION_EMAIL" ==>
              "skillhub.event." <= d.routingKey && NamesInLowerCase(d.routingKey[15..], eventType))
  {
    DeliveredAsInserted(es);
  }

  /** Every Latin letter of `name` in lower case, and every other character as it is. */
  predicate NamesInLowerCase(s: string, name: string) {
    |s| == |name| && forall i :: 0 <= i < |s| ==>
      if 'A' <= name[i] <= 'Z' then s[i] as int == name[i] as int + 32 else s[i] == name[i]
  }

  /**
   Redaction replaces the code, whatever it was, and nothing else: two payloads with a code redact to the same
   value exactly when they agree on everything but the code, and a payload without one stays as it is.
   */
  lemma {:induction false} RedactionHidesTheCode(p: Json, q: Json)
    ensures !(p.Object? && "code" in p.fields) ==> Redact(p) == p
    ensures p.Object? && "code" in p.fields ==>
      && Redact(p).Object? && Redact(p).fields.Keys == p.fields.Keys
      && Redact(p).fields["code"] == Text("[REDACTED]")
      && Redact(p).fields - {"code"} == p.fields - {"code"}
    ensures p.Object? && q.Object? && "code" in p.fields && "code" in q.fields ==>
      (Redact(p) == Redact(q) <==> p.fields - {"code"} == q.fields - {"code"})
    ensures Redact(Redact(p)) == Redact(p)
  {
    var hidden := Text("[REDACTED]");
    if p.Object? && "code" in p.fields {
      assert p.fields["code" := hidden] == (p.fields - {"code"})["code" := hidden];
      assert p.fields["code" := hidden] - {"code"} == p.fields - {"code"};
    }
    if q.Object? && "code" in q.fields {
      assert q.fields["code" := hidden] == (q.fields - {"code"})["code" := hidden];
      assert q.fields["code" := hidden] - {"code"} == q.fields - {"code"};
    }
  }

  // ---------------------------------------------------------------------------------------------
  // Exactly once without faults; not at least once with a refusing broker
  // ---------------------------------------------------------------------------------------------

  /** A step without a lost confirmation and without an abort. */
  predicate Faultless(e: Event) {
    AbortedBy(e).None? && !(e.Attempt? && e.outcome.Lost?)
  }

  /** The publications a row has had when nothing went wrong but refusals. */
  ghost predicate ExactCopies(s: System, i: nat)
    requires i < |s.table|
  {
    var r := s.table[i];
    match r.lock
    case None => Copies(s.log, i) == if r.row.status.PUBLISHED? then 1 else 0
    case Some(w) =>
      w in s.txns &&
      Copies(s.log, i) == if i in s.txns[w].writes && s.txns[w].writes[i].status.PUBLISHED? then 1 else 0
  }

  lemma {:induction false} FaultlessAttempt(s: System, w: Worker, outcome: Outcome, now: nat, i: nat)
    requires Inv(s) && Unfinished(s, w) && !outcome.Lost? && i < |s.table| && ExactCopies(s, i)
    ensures ExactCopies(AttemptNext(s, w, outcome, now, true), i)
  {
    var t := s.txns[w];
    var id := t.batch[t.next];
    assert RecordOk(s, i);
    assert TxnOk(s, w) && SlotOk(s, w, t.next) && RecordOk(s, id);
    CopiesAfterSend(s.log, id, t.loaded[id], outcome, i);
  }

  lemma {:induction false} FaultlessCommit(s: System, w: Worker, i: nat)
    requires Inv(s) && Enabled(s, Commit(w)) && i < |s.table| && ExactCopies(s, i)
    ensures ExactCopies(CommitBatch(s, w), i)
  {
    assert RecordOk(s, i);
    if s.table[i].lock == Some(w) {
      var j :| 0 <= j < |s.txns[w].batch| && s.txns[w].batch[j] == i;
      assert TxnOk(s, w) && SlotOk(s, w, j);
    }
  }

  lemma {:induction false} FaultlessStep(s: System, e: Event, i: nat)
    requires Inv(s) && Enabled(s, e) && Faultless(e) && i < |Apply(s, e).table|
    requires i < |s.table| ==> ExactCopies(s, i)
    ensures ExactCopies(Apply(s, e), i)
  {
    if i >= |s.table| {
      UnknownIdHasNoCopies(s.log, i);
    } else {
      assert RecordOk(s, i);
      match e {
        case Attempt(w, outcome, now, saved) => FaultlessAttempt(s, w, outcome, now, i);
        case Commit(w) => FaultlessCommit(s, w, i);
        case _ =>
      }
    }
  }

  lemma {:induction false} FaultlessRun(s: System, es: seq<Event>)
    requires Inv(s) && Possible(s, es)
    requires forall k :: 0 <= k < |es| ==> Faultless(es[k])
    requires forall i :: 0 <= i < |s.table| ==> ExactCopies(s, i)
    ensures forall i :: 0 <= i < |Exec(s, es).table| ==> ExactCopies(Exec(s, es), i)
    decreases |es|
  {
    if es != [] {
      var s' := Apply(s, es[0]);
      StepKeepsInv(s, es[0]);
      forall i | 0 <= i < |s'.table| ensures ExactCopies(s', i) { FaultlessStep(s, es[0], i); }
      FaultlessRun(s', es[1..]);
    }
  }

  /**
   Without aborts and lost confirmations delivery is exactly once: a row no transaction holds has one copy
   in the broker when PUBLISHED and none otherwise.  So a message is delivered at all exactly when it
   does not run out of retries.
   */
  lemma {:induction false} ExactlyOnceWithoutFaults(es: seq<Event>, id: nat)
    requires Possible(EMPTY, es) && (forall k :: 0 <= k < |es| ==> Faultless(es[k]))
    requires id < |Exec(EMPTY, es).table| && Exec(EMPTY, es).table[id].lock.None?
    ensures Copies(Exec(EMPTY, es).log, id)
         == if Exec(EMPTY, es).table[id].row.status.PUBLISHED? then 1 else 0
  {
    FaultlessRun(EMPTY, es);
    assert ExactCopies(Exec(EMPTY, es), id);
  }

  /** One committed run of worker 0 in which the broker refuses message 0. */
  const REFUSED_RUN: seq<Event> := [Begin(0, [0]), Attempt(0, Rejected, 0, true), Commit(0)]

  function Refusals(n: nat): seq<Event> {
    if n == 0 then [] else REFUSED_RUN + Refusals(n - 1)
  }

  /** The row of insert `m` after `k` refusals, and the table that holds only it. */
  function RefusedRow(m: NewRow, k: nat): Row {
    Row(m.eventType, m.payload, if k < MAX_RETRIES then PENDING else FAILED, k, m.createdAt, None)
  }

  function RefusedState(m: NewRow, k: nat): System {
    System([Record(RefusedRow(m, k), None, false, m.payload, 0)], map[], [])
  }

  /** The same row locked by worker 0, before and after its refused publish. */
  function LockedState(m: NewRow, k: nat, tried: bool): System {
    System(
      [Record(RefusedRow(m, k), Some(0), false, m.payload, 0)],
      map[0 := Txn([0], map[0 := RefusedRow(m, k)],
                   if tried then map[0 := RefusedRow(m, k + 1)] else map[],
                   if tried then 1 else 0)],
      [])
  }

  lemma {:induction false} RefusedSteps(m: NewRow, k: nat)
    requires k < MAX_RETRIES
    ensures Enabled(RefusedState(m, k), REFUSED_RUN[0])
    ensures Apply(RefusedState(m, k), REFUSED_RUN[0]) == LockedState(m, k, false)
    ensures Enabled(LockedState(m, k, false), REFUSED_RUN[1])
    ensures Apply(LockedState(m, k, false), REFUSED_RUN[1]) == LockedState(m, k, true)
    ensures Enabled(LockedState(m, k, true), REFUSED_RUN[2])
    ensures Apply(LockedState(m, k, true), REFUSED_RUN[2]) == RefusedState(m, k + 1)
  {
    assert Eligible(RefusedState(m, k), 0);
    var begun := BeginBatch(RefusedState(m, k), 0, [0]);
    assert begun.txns[0].loaded == LockedState(m, k, false).txns[0].loaded;
    assert begun.table == LockedState(m, k, false).table;
    var ended := CommitBatch(LockedState(m, k, true), 0);
    assert ended.table == RefusedState(m, k + 1).table && ended.txns == map[];
  }

  lemma {:induction false} RefusedOnce(m: NewRow, k: nat, rest: seq<Event>)
    requires k < MAX_RETRIES && Possible(RefusedState(m, k + 1), rest)
    ensures Possible(RefusedState(m, k), REFUSED_RUN + rest)
    ensures Exec(RefusedState(m, k), REFUSED_RUN + rest) == Exec(RefusedState(m, k + 1), rest)
  {
    RefusedSteps(m, k);
    var es := REFUSED_RUN + rest;
    assert es[1..][1..][1..] == rest;
    var end := Exec(RefusedState(m, k + 1), rest);
    assert Possible(LockedState(m, k, true), es[1..][1..]) && Exec(LockedState(m, k, true), es[1..][1..]) == end;
    assert Possible(LockedState(m, k, false), es[1..]) && Exec(LockedState(m, k, false), es[1..]) == end;
  }

  lemma {:induction false} RefusedTo(m: NewRow, k: nat)
    requires k <= MAX_RETRIES
    ensures Possible(RefusedState(m, k), Refusals(MAX_RETRIES - k))
    ensures Exec(RefusedState(m, k), Refusals(MAX_RETRIES - k)) == RefusedState(m, MAX_RETRIES)
    decreases MAX_RETRIES - k
  {
    if k < MAX_RETRIES {
      RefusedTo(m, k + 1);
      RefusedOnce(m, k, Refusals(MAX_RETRIES - k - 1));
    }
  }

  /** Delivery is not at least once: after five refusals any message is FAILED and never delivered. */
  lemma {:induction false} FiveRefusalsLoseTheMessage(m: NewRow)
    ensures var es := [Insert([m])] + Refusals(MAX_RETRIES);
      && Possible(EMPTY, es)
      && Exec(EMPTY, es) == RefusedState(m, MAX_RETRIES)
      && Exec(EMPTY, es).table[0].row.status.FAILED?
      && Copies(Exec(EMPTY, es).log, 0) == 0
  {
    var es := [Insert([m])] + Refusals(MAX_RETRIES);
    RefusedTo(m, 0);
    assert Apply(EMPTY, es[0]).table == RefusedState(m, 0).table;
    assert es[1..] == Refusals(MAX_RETRIES);
  }
}
