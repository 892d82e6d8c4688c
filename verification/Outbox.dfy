/**
 The transactional outbox of users-service as a concurrent state machine.

 Registration and resend commit rows; any number of workers lock a batch, publish its messages,
 and commit or abort; a pruner deletes old rows.  Every interleaving of these steps is a run.
 A row's id is its position in `table`, the sequence of all rows ever committed, so ids are fresh
 by construction and a pruned row keeps its place for the history it leaves behind.
 */
module Outbox {
  import opened Wrappers
  import opened Letters

  /** A jsonb value. */
  datatype Json =
    | Null
    | Bool(b: bool)
    | Number(n: int)
    | Text(s: string)
    | List(items: seq<Json>)
    | Object(fields: map<string, Json>)

  datatype Status = PENDING | PROCESSING | PUBLISHED | FAILED

  datatype Row = Row(
    eventType: string,
    payload: Json,
    status: Status,
    retryCount: nat,
    createdAt: nat,
    processedAt: Option<nat>)

  /** What an insert supplies; the other columns take their initial values. */
  datatype NewRow = NewRow(eventType: string, payload: Json, createdAt: nat)

  type Worker = nat

  /** A committed row, its row lock, and its history: the inserted payload and the aborts that held it. */
  datatype Record = Record(row: Row, lock: Option<Worker>, pruned: bool, original: Json, aborts: nat)

  /** A worker's open transaction: the rows it locked, the entities it loaded, and its unsaved writes. */
  datatype Txn = Txn(batch: seq<nat>, loaded: map<nat, Row>, writes: map<nat, Row>, next: nat)

  datatype Delivery = Delivery(id: nat, routingKey: string, eventType: string, payload: Json)

  /** How a publish ends: confirmed, refused, or thrown although the broker has the message. */
  datatype Outcome = Confirmed | Rejected | Lost

  datatype System = System(table: seq<Record>, txns: map<Worker, Txn>, log: seq<Delivery>)

  datatype Event =
    | Insert(rows: seq<NewRow>)
    | Begin(worker: Worker, batch: seq<nat>)
    | Attempt(worker: Worker, outcome: Outcome, now: nat, saved: bool)
    | Commit(worker: Worker)
    | Abort(worker: Worker)
    | Prune(at: int, retentionHours: int)

  const BATCH_SIZE: nat := 50
  const MAX_RETRIES: nat := 5
  const EMPTY: System := System([], map[], [])

  // ---------------------------------------------------------------------------------------------
  // One message
  // ---------------------------------------------------------------------------------------------

  function RoutingKey(eventType: string): string {
    if eventType == "SEND_VERIFICATION_EMAIL" then "notification.email.verify"
    else if eventType == "PROCESS_PROFILE_PHOTO" then "media.photo.process"
    else "skillhub.event." + LowerCase(eventType)
  }

  function Redact(payload: Json): Json {
    if payload.Object? && "code" in payload.fields
    then Object(payload.fields["code" := Text("[REDACTED]")])
    else payload
  }

  /** The entity after one publish attempt, as it is handed to `save`. */
  function Handle(m: Row, outcome: Outcome, now: nat): Row {
    if outcome.Confirmed? then
      m.(payload := Redact(m.payload), status := PUBLISHED, processedAt := Some(now))
    else if m.retryCount + 1 >= MAX_RETRIES then
      m.(retryCount := m.retryCount + 1, status := FAILED)
    else
      m.(retryCount := m.retryCount + 1)
  }

  function Message(id: nat, m: Row): Delivery {
    Delivery(id, RoutingKey(m.eventType), m.eventType, m.payload)
  }

  /** What the broker gains from one publish attempt. */
  function Sent(id: nat, m: Row, outcome: Outcome): seq<Delivery> {
    if outcome.Rejected? then [] else [Message(id, m)]
  }

  // ---------------------------------------------------------------------------------------------
  // Steps
  // ---------------------------------------------------------------------------------------------

  function Fresh(n: NewRow): Record {
    Record(Row(n.eventType, n.payload, PENDING, 0, n.createdAt, None), None, false, n.payload, 0)
  }

  function InsertRows(s: System, rows: seq<NewRow>): System {
    s.(table := s.table + seq(|rows|, i requires 0 <= i < |rows| => Fresh(rows[i])))
  }

  /** A row `SELECT ... FOR UPDATE SKIP LOCKED` may return. */
  predicate Eligible(s: System, i: nat) {
    i < |s.table| && !s.table[i].pruned && s.table[i].row.status.PENDING? && s.table[i].lock.None?
  }

  predicate Distinct(ids: seq<nat>) {
    forall j, k :: 0 <= j < k < |ids| ==> ids[j] != ids[k]
  }

  /** A result of the select: oldest first, ties in any order, at most 50, nothing older left behind. */
  ghost predicate ValidBatch(s: System, batch: seq<nat>) {
    && |batch| <= BATCH_SIZE
    && Distinct(batch)
    && (forall j :: 0 <= j < |batch| ==> Eligible(s, batch[j]))
    && (forall j, k :: 0 <= j < k < |batch| ==>
      s.table[batch[j]].row.createdAt <= s.table[batch[k]].row.createdAt)
    && (forall i :: Eligible(s, i) && i !in batch ==> Passed(s, batch, i))
  }

  /** An eligible row is passed over only by a full batch of rows no younger than it. */
  ghost predicate Passed(s: System, batch: seq<nat>, i: nat)
    requires i < |s.table|
    requires forall j :: 0 <= j < |batch| ==> batch[j] < |s.table|
  {
    && |batch| == BATCH_SIZE
    && forall j :: 0 <= j < |batch| ==> s.table[batch[j]].row.createdAt <= s.table[i].row.createdAt
  }

  function BeginBatch(s: System, w: Worker, batch: seq<nat>): System
    requires forall j :: 0 <= j < |batch| ==> batch[j] < |s.table|
  {
    System(
      seq(|s.table|, i requires 0 <= i < |s.table| =>
        if i in batch then s.table[i].(lock := Some(w)) else s.table[i]),
      s.txns[w := Txn(batch, map i | i in batch :: s.table[i].row, map[], 0)],
      s.log)
  }

  function AbortBatch(s: System, w: Worker): System {
    System(
      seq(|s.table|, i requires 0 <= i < |s.table| =>
        if s.table[i].lock == Some(w)
        then s.table[i].(lock := None, aborts := s.table[i].aborts + 1)
        else s.table[i]),
      s.txns - {w},
      s.log)
  }

  function CommitBatch(s: System, w: Worker): System
    requires w in s.txns
  {
    var writes := s.txns[w].writes;
    System(
      seq(|s.table|, i requires 0 <= i < |s.table| =>
        var r := s.table[i];
        if r.lock != Some(w) then r
        else if i in writes then r.(lock := None, row := writes[i])
        else r.(lock := None)),
      s.txns - {w},
      s.log)
  }

  predicate Unfinished(s: System, w: Worker) {
    && w in s.txns
    && s.txns[w].next < |s.txns[w].batch|
    && s.txns[w].batch[s.txns[w].next] in s.txns[w].loaded
  }

  /** Publishing the next message of `w`, before its save: only the log grows. */
  function PublishNext(s: System, w: Worker, outcome: Outcome): System
    requires Unfinished(s, w)
  {
    var id := s.txns[w].batch[s.txns[w].next];
    s.(log := s.log + Sent(id, s.txns[w].loaded[id], outcome))
  }

  /** Publish the next message and save the entity; a failed save aborts the whole transaction. */
  function AttemptNext(s: System, w: Worker, outcome: Outcome, now: nat, saved: bool): System
    requires Unfinished(s, w)
  {
    var t := s.txns[w];
    var id := t.batch[t.next];
    var published := PublishNext(s, w, outcome);
    if saved then
      published.(txns := s.txns[w :=
        t.(writes := t.writes[id := Handle(t.loaded[id], outcome, now)], next := t.next + 1)])
    else
      AbortBatch(published, w)
  }

  predicate Expired(r: Row, cutoff: int) {
    r.status.PUBLISHED? && r.processedAt.Some? && r.processedAt.value < cutoff
  }

  function PruneRows(s: System, cutoff: int): System {
    s.(table := seq(|s.table|, i requires 0 <= i < |s.table| =>
      if Expired(s.table[i].row, cutoff) then s.table[i].(pruned := true) else s.table[i]))
  }

  function Cutoff(now: int, retentionHours: int): int {
    now - retentionHours * 60 * 60 * 1000
  }

  // ---------------------------------------------------------------------------------------------
  // Runs
  // ---------------------------------------------------------------------------------------------

  ghost predicate Enabled(s: System, e: Event) {
    match e
    case Insert(_) => true
    case Begin(w, batch) => w !in s.txns && batch != [] && ValidBatch(s, batch)
    case Attempt(w, _, _, _) => Unfinished(s, w)
    case Commit(w) => w in s.txns && s.txns[w].next == |s.txns[w].batch|
    case Abort(w) => w in s.txns
    case Prune(_, _) => true
  }

  ghost function Apply(s: System, e: Event): System
    requires Enabled(s, e)
  {
    match e
    case Insert(rows) => InsertRows(s, rows)
    case Begin(w, batch) => BeginBatch(s, w, batch)
    case Attempt(w, outcome, now, saved) => AttemptNext(s, w, outcome, now, saved)
    case Commit(w) => CommitBatch(s, w)
    case Abort(w) => AbortBatch(s, w)
    case Prune(now, hours) => PruneRows(s, Cutoff(now, hours))
  }

  ghost predicate Possible(s: System, es: seq<Event>)
    decreases |es|
  {
    es == [] || (Enabled(s, es[0]) && Possible(Apply(s, es[0]), es[1..]))
  }

  ghost function Exec(s: System, es: seq<Event>): System
    requires Possible(s, es)
    decreases |es|
  {
    if es == [] then s else Exec(Apply(s, es[0]), es[1..])
  }

  // ---------------------------------------------------------------------------------------------
  // The invariant
  // ---------------------------------------------------------------------------------------------

  /** How often the broker log holds message `id`. */
  function Copies(log: seq<Delivery>, id: nat): nat {
    if log == [] then 0
    else Copies(log[..|log| - 1], id) + (if log[|log| - 1].id == id then 1 else 0)
  }

  /** Publications a row accounts for: one per failed attempt and one for the confirmed attempt. */
  function Weight(r: Row): nat {
    r.retryCount + (if r.status.PUBLISHED? then 1 else 0)
  }

  /** What each status says about the row's other columns and its history. */
  predicate StatusOk(r: Record, copies: nat) {
    match r.row.status
    case PENDING => r.row.retryCount < MAX_RETRIES && r.row.payload == r.original && !r.pruned
    case PROCESSING => false
    case PUBLISHED => r.row.retryCount < MAX_RETRIES && r.row.payload == Redact(r.original) && copies >= 1
    case FAILED => r.row.retryCount == MAX_RETRIES && r.row.payload == r.original && !r.pruned
  }

  ghost predicate RecordOk(s: System, i: nat)
    requires i < |s.table|
  {
    var r := s.table[i];
    && StatusOk(r, Copies(s.log, i))
    && match r.lock
       case None => Copies(s.log, i) <= r.aborts + Weight(r.row)
       case Some(w) => w in s.txns && i in s.txns[w].batch && r.row.status.PENDING?
  }

  /** The write prepared for a locked row, and the publications made for it so far. */
  ghost predicate WriteOk(r: Record, write: Row, copies: nat) {
    && (write.status.PUBLISHED? || write.retryCount == r.row.retryCount + 1)
    && StatusOk(r.(row := write), copies)
    && write.createdAt == r.row.createdAt && write.eventType == r.row.eventType
    && Weight(write) == Weight(r.row) + 1
    && copies <= r.aborts + Weight(write)
  }

  ghost predicate SlotOk(s: System, w: Worker, j: nat)
    requires w in s.txns && j < |s.txns[w].batch|
  {
    var t := s.txns[w];
    var i := t.batch[j];
    && i < |s.table|
    && s.table[i].lock == Some(w)
    && i in t.loaded && t.loaded[i] == s.table[i].row
    && (i in t.writes <==> j < t.next)
    && (if j < t.next then i in t.writes && WriteOk(s.table[i], t.writes[i], Copies(s.log, i))
        else Copies(s.log, i) <= s.table[i].aborts + Weight(s.table[i].row))
  }

  ghost predicate TxnOk(s: System, w: Worker)
    requires w in s.txns
  {
    var t := s.txns[w];
    && t.next <= |t.batch| && 0 < |t.batch| <= BATCH_SIZE
    && Distinct(t.batch)
    && forall j :: 0 <= j < |t.batch| ==> SlotOk(s, w, j)
  }

  /** The message as it was inserted. */
  function Original(id: nat, r: Record): Delivery {
    Delivery(id, RoutingKey(r.row.eventType), r.row.eventType, r.original)
  }

  ghost predicate LogOk(s: System) {
    forall k :: 0 <= k < |s.log| ==>
      var d := s.log[k];
      d.id < |s.table| && d == Original(d.id, s.table[d.id])
  }

  ghost predicate Inv(s: System) {
    && (forall i :: 0 <= i < |s.table| ==> RecordOk(s, i))
    && (forall w :: w in s.txns ==> TxnOk(s, w))
    && LogOk(s)
  }

  // ---------------------------------------------------------------------------------------------
  // Every step keeps the invariant
  // ---------------------------------------------------------------------------------------------

  lemma {:induction false} CopiesAfterSend(log: seq<Delivery>, id: nat, m: Row, outcome: Outcome, i: nat)
    ensures Copies(log + Sent(id, m, outcome), i)
         == Copies(log, i) + (if !outcome.Rejected? && id == i then 1 else 0)
  {
    if outcome.Rejected? {
      assert log + Sent(id, m, outcome) == log;
    } else {
      var longer := log + [Message(id, m)];
      assert longer[..|longer| - 1] == log;
    }
  }

  lemma {:induction false} UnknownIdHasNoCopies(log: seq<Delivery>, id: nat)
    requires forall k :: 0 <= k < |log| ==> log[k].id < id
    ensures Copies(log, id) == 0
  {
    if log != [] {
      UnknownIdHasNoCopies(log[..|log| - 1], id);
    }
  }

  lemma {:induction false} InsertKeepsInv(s: System, rows: seq<NewRow>)
    requires Inv(s)
    ensures Inv(InsertRows(s, rows))
  {
    var s' := InsertRows(s, rows);
    forall i | 0 <= i < |s'.table| ensures RecordOk(s', i) {
      if i < |s.table| {
        assert RecordOk(s, i);
      } else {
        UnknownIdHasNoCopies(s.log, i);
      }
    }
    forall w | w in s'.txns ensures TxnOk(s', w) {
      assert TxnOk(s, w);
      forall j | 0 <= j < |s.txns[w].batch| ensures SlotOk(s', w, j) { assert SlotOk(s, w, j); }
    }
  }

  lemma {:induction false} BeginKeepsInv(s: System, w: Worker, batch: seq<nat>)
    requires Inv(s) && Enabled(s, Begin(w, batch))
    ensures Inv(BeginBatch(s, w, batch))
  {
    var s' := BeginBatch(s, w, batch);
    forall i | 0 <= i < |s'.table| ensures RecordOk(s', i) {
      assert RecordOk(s, i);
      if i in batch { assert Eligible(s, i); }
    }
    forall v | v in s'.txns ensures TxnOk(s', v) {
      forall j | 0 <= j < |s'.txns[v].batch| ensures SlotOk(s', v, j) {
        if v == w {
          assert Eligible(s, batch[j]) && RecordOk(s, batch[j]);
        } else {
          assert TxnOk(s, v) && SlotOk(s, v, j);
          assert !Eligible(s, s.txns[v].batch[j]);
        }
      }
    }
  }

  lemma {:induction false} AbortKeepsInv(s: System, w: Worker)
    requires Inv(s) && w in s.txns
    ensures Inv(AbortBatch(s, w))
  {
    var s' := AbortBatch(s, w);
    forall i | 0 <= i < |s'.table| ensures RecordOk(s', i) {
      assert RecordOk(s, i);
      if s.table[i].lock == Some(w) {
        var j :| 0 <= j < |s.txns[w].batch| && s.txns[w].batch[j] == i;
        assert TxnOk(s, w) && SlotOk(s, w, j);
      }
    }
    OthersStayOk(s, s', w);
  }

  /** A step that touches only rows locked by `w` leaves the other transactions as they were. */
  lemma {:induction false} OthersStayOk(s: System, s': System, w: Worker)
    requires Inv(s)
    requires s'.txns == s.txns - {w} && s'.log == s.log && |s'.table| == |s.table|
    requires forall i :: 0 <= i < |s.table| && s.table[i].lock != Some(w) ==> s'.table[i] == s.table[i]
    ensures forall v :: v in s'.txns ==> TxnOk(s', v)
  {
    forall v | v in s'.txns ensures TxnOk(s', v) {
      assert TxnOk(s, v);
      forall j | 0 <= j < |s.txns[v].batch| ensures SlotOk(s', v, j) { assert SlotOk(s, v, j); }
    }
  }

  /** The log stays faithful when ids, event types and original payloads stay what they are. */
  lemma {:induction false} LogStaysOk(s: System, s': System)
    requires LogOk(s) && s'.log == s.log && |s'.table| == |s.table|
    requires forall i :: 0 <= i < |s.table| ==> Original(i, s'.table[i]) == Original(i, s.table[i])
    ensures LogOk(s')
  {
  }

  lemma {:induction false} HeldIsLocked(s: System, w: Worker, i: nat)
    requires Inv(s) && w in s.txns && i in s.txns[w].batch
    ensures i < |s.table| && s.table[i].lock == Some(w)
  {
    var j :| 0 <= j < |s.txns[w].batch| && s.txns[w].batch[j] == i;
    assert TxnOk(s, w) && SlotOk(s, w, j);
  }

  lemma {:induction false} CommitKeepsRecord(s: System, w: Worker, i: nat)
    requires Inv(s) && Enabled(s, Commit(w)) && i < |s.table|
    ensures RecordOk(CommitBatch(s, w), i)
    ensures Original(i, CommitBatch(s, w).table[i]) == Original(i, s.table[i])
  {
    assert RecordOk(s, i);
    if s.table[i].lock == Some(w) {
      var j :| 0 <= j < |s.txns[w].batch| && s.txns[w].batch[j] == i;
      assert TxnOk(s, w) && SlotOk(s, w, j);
    }
  }

  lemma {:induction false} CommitKeepsInv(s: System, w: Worker)
    requires Inv(s) && Enabled(s, Commit(w))
    ensures Inv(CommitBatch(s, w))
  {
    var s' := CommitBatch(s, w);
    forall i | 0 <= i < |s'.table|
      ensures RecordOk(s', i) && Original(i, s'.table[i]) == Original(i, s.table[i])
    {
      CommitKeepsRecord(s, w, i);
    }
    LogStaysOk(s, s');
    OthersStayOk(s, s', w);
  }

  lemma {:induction false} PublishKeepsLog(s: System, w: Worker, outcome: Outcome)
    requires Inv(s) && Unfinished(s, w)
    ensures LogOk(PublishNext(s, w, outcome))
  {
    var j := s.txns[w].next;
    assert TxnOk(s, w) && SlotOk(s, w, j) && RecordOk(s, s.txns[w].batch[j]);
  }

  lemma {:induction false} SaveKeepsSlot(s: System, w: Worker, outcome: Outcome, now: nat, v: Worker, j: nat)
    requires Inv(s) && Unfinished(s, w) && v in s.txns && j < |s.txns[v].batch|
    ensures SlotOk(AttemptNext(s, w, outcome, now, true), v, j)
  {
    var t := s.txns[w];
    var id := t.batch[t.next];
    assert TxnOk(s, w) && SlotOk(s, w, t.next) && RecordOk(s, id);
    assert TxnOk(s, v) && SlotOk(s, v, j);
    CopiesAfterSend(s.log, id, t.loaded[id], outcome, s.txns[v].batch[j]);
  }

  lemma {:induction false} SaveKeepsInv(s: System, w: Worker, outcome: Outcome, now: nat)
    requires Inv(s) && Unfinished(s, w)
    ensures Inv(AttemptNext(s, w, outcome, now, true))
  {
    var t := s.txns[w];
    var id := t.batch[t.next];
    assert TxnOk(s, w) && SlotOk(s, w, t.next);
    var s' := AttemptNext(s, w, outcome, now, true);
    forall i | 0 <= i < |s'.table| ensures RecordOk(s', i) {
      assert RecordOk(s, i);
      CopiesAfterSend(s.log, id, t.loaded[id], outcome, i);
    }
    forall v | v in s'.txns ensures TxnOk(s', v) {
      assert TxnOk(s, v);
      forall j | 0 <= j < |s'.txns[v].batch| ensures SlotOk(s', v, j) {
        SaveKeepsSlot(s, w, outcome, now, v, j);
      }
    }
    PublishKeepsLog(s, w, outcome);
  }

  lemma {:induction false} FailedSaveKeepsInv(s: System, w: Worker, outcome: Outcome, now: nat)
    requires Inv(s) && Unfinished(s, w)
    ensures Inv(AttemptNext(s, w, outcome, now, false))
  {
    var t := s.txns[w];
    var id := t.batch[t.next];
    assert TxnOk(s, w) && SlotOk(s, w, t.next);
    var s' := AttemptNext(s, w, outcome, now, false);
    forall i | 0 <= i < |s'.table| ensures RecordOk(s', i) {
      assert RecordOk(s, i);
      CopiesAfterSend(s.log, id, t.loaded[id], outcome, i);
      if s.table[i].lock == Some(w) {
        var j :| 0 <= j < |t.batch| && t.batch[j] == i;
        assert SlotOk(s, w, j);
      }
    }
    forall v | v in s'.txns ensures TxnOk(s', v) {
      assert TxnOk(s, v);
      forall j | 0 <= j < |s'.txns[v].batch| ensures SlotOk(s', v, j) {
        assert SlotOk(s, v, j);
        CopiesAfterSend(s.log, id, t.loaded[id], outcome, s.txns[v].batch[j]);
      }
    }
    PublishKeepsLog(s, w, outcome);
    LogStaysOk(PublishNext(s, w, outcome), s');
  }

  lemma {:induction false} PruneKeepsInv(s: System, cutoff: int)
    requires Inv(s)
    ensures Inv(PruneRows(s, cutoff))
  {
    var s' := PruneRows(s, cutoff);
    forall i | 0 <= i < |s'.table| ensures RecordOk(s', i) { assert RecordOk(s, i); }
    forall w | w in s'.txns ensures TxnOk(s', w) {
      assert TxnOk(s, w);
      forall j | 0 <= j < |s.txns[w].batch| ensures SlotOk(s', w, j) {
        assert SlotOk(s, w, j) && RecordOk(s, s.txns[w].batch[j]);
      }
    }
  }

  lemma {:induction false} StepKeepsInv(s: System, e: Event)
    requires Inv(s) && Enabled(s, e)
    ensures Inv(Apply(s, e))
  {
    match e
    case Insert(rows) => InsertKeepsInv(s, rows);
    case Begin(w, batch) => BeginKeepsInv(s, w, batch);
    case Attempt(w, outcome, now, saved) =>
      if saved { SaveKeepsInv(s, w, outcome, now); } else { FailedSaveKeepsInv(s, w, outcome, now); }
    case Commit(w) => CommitKeepsInv(s, w);
    case Abort(w) => AbortKeepsInv(s, w);
    case Prune(now, hours) => PruneKeepsInv(s, Cutoff(now, hours));
  }

  lemma {:induction false} RunKeepsInv(s: System, es: seq<Event>)
    requires Inv(s) && Possible(s, es)
    ensures Inv(Exec(s, es))
    decreases |es|
  {
    if es != [] {
      StepKeepsInv(s, es[0]);
      RunKeepsInv(Apply(s, es[0]), es[1..]);
    }
  }
}
