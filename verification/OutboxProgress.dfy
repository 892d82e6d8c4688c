/**
 Progress of the outbox, measured in publish attempts left: how fast committed runs use them up,
 when the table is drained, and how long one row can wait for its turn.
 */
module OutboxProgress {
  import opened Sets
  import opened Outbox
  import opened OutboxSafety

  /** Attempts a row has left before it is FAILED; none once it is settled. */
  function Left(r: Record): (n: nat)
    ensures n <= MAX_RETRIES
  {
    if r.row.status.PENDING? && r.row.retryCount < MAX_RETRIES then MAX_RETRIES - r.row.retryCount else 0
  }

  /** The sum of 5 - retryCount over the PENDING rows of `among`. */
  function Work(table: seq<Record>, among: set<nat>): nat {
    if table == [] then 0
    else
      var n := |table| - 1;
      Work(table[..n], among) + (if n in among then Left(table[n]) else 0)
  }

  function Ids(s: System): set<nat> {
    set i {:trigger s.table[i]} | 0 <= i < |s.table|
  }

  function Pending(s: System): set<nat> {
    set i | 0 <= i < |s.table| && s.table[i].row.status.PENDING?
  }

  function Members(ids: seq<nat>): set<nat> {
    set i | i in ids
  }

  function Commits(es: seq<Event>): nat {
    if es == [] then 0 else (if es[0].Commit? then 1 else 0) + Commits(es[1..])
  }

  // ---------------------------------------------------------------------------------------------
  // Sums
  // ---------------------------------------------------------------------------------------------

  /** Where every term of `hit` falls and no term grows, the sum falls by at least |hit|. */
  lemma {:induction false} WorkDrops(before: seq<Record>, after: seq<Record>, among: set<nat>, hit: set<nat>)
    requires |before| == |after|
    requires forall i :: 0 <= i < |before| ==> Left(after[i]) <= Left(before[i])
    requires forall i :: i in hit ==> i < |before| && i in among && Left(after[i]) < Left(before[i])
    ensures Work(after, among) + |hit| <= Work(before, among)
  {
    if before == [] {
      assert hit == {};
    } else {
      var n := |before| - 1;
      var rest := hit - {n};
      WorkDrops(before[..n], after[..n], among, rest);
      if n in hit { assert hit == rest + {n}; } else { assert hit == rest; }
    }
  }

  lemma {:induction false} WorkOfAppend(table: seq<Record>, more: seq<Record>, among: set<nat>)
    ensures Work(table + more, among) <= Work(table, among) + MAX_RETRIES * |more|
    ensures (forall i :: i in among ==> i < |table|) ==> Work(table + more, among) == Work(table, among)
  {
    if more == [] {
      assert table + more == table;
    } else {
      var n := |more| - 1;
      WorkOfAppend(table, more[..n], among);
      assert (table + more)[..|table + more| - 1] == table + more[..n];
    }
  }

  lemma {:induction false} WorkAtMost(table: seq<Record>, among: set<nat>)
    ensures Work(table, among) <= MAX_RETRIES * |among|
  {
    if table != [] {
      var n := |table| - 1;
      WorkAtMost(table[..n], among - {n});
      WorkIgnoresAbsent(table[..n], among, n);
    }
  }

  lemma {:induction false} WorkIgnoresAbsent(table: seq<Record>, among: set<nat>, i: nat)
    requires i >= |table|
    ensures Work(table, among) == Work(table, among - {i})
  {
    if table != [] {
      WorkIgnoresAbsent(table[..|table| - 1], among, i);
    }
  }

  lemma {:induction false} DistinctMembers(ids: seq<nat>)
    requires Distinct(ids)
    ensures |Members(ids)| == |ids|
  {
    if ids != [] {
      DistinctMembers(ids[1..]);
      assert Members(ids) == Members(ids[1..]) + {ids[0]};
    } else {
      assert Members(ids) == {};
    }
  }

  // ---------------------------------------------------------------------------------------------
  // What one step does to the work left
  // ---------------------------------------------------------------------------------------------

  lemma {:induction false} CommitHits(s: System, w: Worker, i: nat)
    requires Inv(s) && Enabled(s, Commit(w)) && i < |s.table|
    ensures i in s.txns[w].batch ==>
      s.table[i].row.status.PENDING? && Left(CommitBatch(s, w).table[i]) < Left(s.table[i])
    ensures i !in s.txns[w].batch ==> CommitBatch(s, w).table[i] == s.table[i]
  {
    assert RecordOk(s, i);
    if i in s.txns[w].batch {
      var j :| 0 <= j < |s.txns[w].batch| && s.txns[w].batch[j] == i;
      assert TxnOk(s, w) && SlotOk(s, w, j);
    }
  }

  /** A committed run uses up at least one attempt of every row of its batch. */
  lemma {:induction false} CommitLowersWork(s: System, w: Worker, among: set<nat>)
    requires Inv(s) && Enabled(s, Commit(w))
    ensures Work(CommitBatch(s, w).table, among) + |Members(s.txns[w].batch) * among| <= Work(s.table, among)
  {
    var s' := CommitBatch(s, w);
    var hit := Members(s.txns[w].batch) * among;
    forall i | i in hit ensures i < |s.table| { HeldIsLocked(s, w, i); }
    forall i | 0 <= i < |s.table|
      ensures Left(s'.table[i]) <= Left(s.table[i]) && (i in hit ==> Left(s'.table[i]) < Left(s.table[i]))
    {
      CommitHits(s, w, i);
    }
    WorkDrops(s.table, s'.table, among, hit);
  }

  lemma {:induction false} OtherStepsKeepRows(s: System, e: Event, i: nat)
    requires Enabled(s, e) && !e.Commit? && i < |s.table|
    ensures i < |Apply(s, e).table| && Apply(s, e).table[i].row == s.table[i].row
  {
  }

  lemma {:induction false} OtherStepsKeepWork(s: System, e: Event, among: set<nat>)
    requires Inv(s) && Enabled(s, e) && !e.Commit? && among <= Ids(s)
    ensures Work(Apply(s, e).table, among) <= Work(s.table, among)
  {
    if e.Insert? {
      WorkOfAppend(s.table, Apply(s, e).table[|s.table|..], among);
      assert s.table + Apply(s, e).table[|s.table|..] == Apply(s, e).table;
    } else {
      forall i | 0 <= i < |s.table| ensures Left(Apply(s, e).table[i]) <= Left(s.table[i]) {
        OtherStepsKeepRows(s, e, i);
      }
      WorkDrops(s.table, Apply(s, e).table, among, {});
    }
  }

  // ---------------------------------------------------------------------------------------------
  // Any number of workers: commits are paid for by attempts
  // ---------------------------------------------------------------------------------------------

  lemma {:induction false} StepPaysForCommit(s: System, e: Event)
    requires Inv(s) && Enabled(s, e)
    ensures var s' := Apply(s, e);
      (if e.Commit? then 1 else 0) + Work(s'.table, Ids(s'))
      <= Work(s.table, Ids(s)) + MAX_RETRIES * |Inserted([e])|
  {
    var s' := Apply(s, e);
    assert Inserted([e]) == if e.Insert? then e.rows else [];
    if e.Insert? {
      WorkOfAppend(s.table, s'.table[|s.table|..], Ids(s'));
      assert s.table + s'.table[|s.table|..] == s'.table;
      WorkIgnoresBeyond(s.table, Ids(s), Ids(s'));
    } else {
      assert Ids(s') == Ids(s);
      if e.Commit? {
        CommitLowersWork(s, e.worker, Ids(s));
        assert TxnOk(s, e.worker) && SlotOk(s, e.worker, 0);
        assert s.txns[e.worker].batch[0] in Members(s.txns[e.worker].batch) * Ids(s);
      } else {
        OtherStepsKeepWork(s, e, Ids(s));
      }
    }
  }

  lemma {:induction false} WorkIgnoresBeyond(table: seq<Record>, a: set<nat>, b: set<nat>)
    requires forall i :: 0 <= i < |table| ==> (i in a <==> i in b)
    ensures Work(table, a) == Work(table, b)
  {
    if table != [] {
      WorkIgnoresBeyond(table[..|table| - 1], a, b);
    }
  }

  /**
   Whatever the workers, crashes and refusals, committed runs and the attempts left never exceed the
   attempts the run started with plus five for each inserted row.
   */
  lemma {:induction false} CommitsArePaidFor(s: System, es: seq<Event>)
    requires Inv(s) && Possible(s, es)
    ensures Commits(es) + Work(Exec(s, es).table, Ids(Exec(s, es)))
         <= Work(s.table, Ids(s)) + MAX_RETRIES * |Inserted(es)|
    decreases |es|
  {
    if es != [] {
      StepKeepsInv(s, es[0]);
      StepPaysForCommit(s, es[0]);
      CommitsArePaidFor(Apply(s, es[0]), es[1..]);
      assert Inserted([es[0]]) == if es[0].Insert? then es[0].rows else [];
    }
  }

  /** No run, however long, commits more than five batches per row ever inserted. */
  lemma {:induction false} CommitsNeverExceedAttempts(es: seq<Event>)
    requires Possible(EMPTY, es)
    ensures Commits(es) <= MAX_RETRIES * |Inserted(es)|
  {
    CommitsArePaidFor(EMPTY, es);
  }

  // ---------------------------------------------------------------------------------------------
  // One worker: draining the table
  // ---------------------------------------------------------------------------------------------

  predicate ByWorker(e: Event, w: Worker) {
    e.Begin? || e.Attempt? || e.Commit? || e.Abort? ==> e.worker == w
  }

  /** The only open transaction is `w`'s, and its batch is full or holds everything PENDING. */
  ghost predicate Sweeping(s: System, w: Worker) {
    && Inv(s)
    && (forall v :: v in s.txns ==> v == w)
    && (w in s.txns ==> |s.txns[w].batch| == BATCH_SIZE || Pending(s) <= Members(s.txns[w].batch))
  }

  lemma {:induction false} UnlockedWhenIdle(s: System, w: Worker, i: nat)
    requires Sweeping(s, w) && w !in s.txns && i in Pending(s)
    ensures Eligible(s, i)
  {
    assert RecordOk(s, i);
  }

  lemma {:induction false} StepKeepsSweeping(s: System, w: Worker, e: Event)
    requires Sweeping(s, w) && Enabled(s, e) && ByWorker(e, w) && !e.Insert?
    ensures Sweeping(Apply(s, e), w)
    ensures !e.Commit? ==> Pending(Apply(s, e)) == Pending(s)
  {
    StepKeepsInv(s, e);
    var s' := Apply(s, e);
    if !e.Commit? {
      forall i | 0 <= i < |s.table| ensures s'.table[i].row == s.table[i].row { OtherStepsKeepRows(s, e, i); }
      assert Pending(s') == Pending(s);
    }
    if e.Begin? && |e.batch| < BATCH_SIZE {
      forall i | i in Pending(s) ensures i in e.batch {
        UnlockedWhenIdle(s, w, i);
      }
    }
  }

  /** `n` more committed runs leave nothing PENDING. */
  ghost predicate DrainedWithin(s: System, n: nat) {
    || (|Pending(s)| <= BATCH_SIZE && forall i :: i in Pending(s) ==> Left(s.table[i]) <= n)
    || Work(s.table, Ids(s)) / BATCH_SIZE + MAX_RETRIES <= n
  }

  /** A row PENDING after a commit was PENDING before, and lost an attempt if it was in the batch. */
  lemma {:induction false} PendingAfterCommit(s: System, w: Worker, i: nat)
    requires Inv(s) && Enabled(s, Commit(w)) && i in Pending(CommitBatch(s, w))
    ensures i in Pending(s)
    ensures i in s.txns[w].batch ==> Left(CommitBatch(s, w).table[i]) < Left(s.table[i])
  {
    CommitHits(s, w, i);
  }

  lemma {:induction false} BatchIsPending(s: System, w: Worker)
    requires Inv(s) && w in s.txns
    ensures Members(s.txns[w].batch) <= Pending(s) <= Ids(s)
    ensures |Members(s.txns[w].batch)| == |s.txns[w].batch|
  {
    assert TxnOk(s, w);
    DistinctMembers(s.txns[w].batch);
    forall i | i in s.txns[w].batch ensures i in Pending(s) {
      HeldIsLocked(s, w, i);
      assert RecordOk(s, i);
    }
  }

  lemma {:induction false} CommitDrains(s: System, w: Worker, n: nat)
    requires Sweeping(s, w) && Enabled(s, Commit(w)) && DrainedWithin(s, n)
    ensures DrainedWithin(CommitBatch(s, w), if n == 0 then 0 else n - 1)
  {
    var s' := CommitBatch(s, w);
    var batch := Members(s.txns[w].batch);
    BatchIsPending(s, w);
    forall i | i in Pending(s')
      ensures i in Pending(s) && (i in batch ==> Left(s'.table[i]) < Left(s.table[i]))
    {
      PendingAfterCommit(s, w, i);
    }
    SubsetSize(Pending(s'), Pending(s));
    assert Ids(s') == Ids(s);
    assert TxnOk(s, w);
    if Pending(s) <= batch {
      SubsetSize(Pending(s), batch);
    } else {
      SubsetSize(batch, Pending(s));
      CommitLowersWork(s, w, Ids(s));
      assert batch * Ids(s) == batch;
    }
  }

  /** A row about to be committed has an attempt left, so nothing commits once the table is drained. */
  lemma {:induction false} CommitNeedsWork(s: System, w: Worker, n: nat)
    requires Sweeping(s, w) && Enabled(s, Commit(w)) && DrainedWithin(s, n)
    ensures n > 0
  {
    assert TxnOk(s, w) && SlotOk(s, w, 0);
    var i := s.txns[w].batch[0];
    HeldIsLocked(s, w, i);
    assert RecordOk(s, i);
    assert i in Pending(s) && Left(s.table[i]) > 0;
  }

  /** A committed run of the only worker lowers the sum of 5 - retryCount by at least min(50, PENDING). */
  lemma {:induction false} CommitSweeps(s: System, w: Worker)
    requires Sweeping(s, w) && Enabled(s, Commit(w))
    ensures var pending := |Pending(s)|;
      Work(CommitBatch(s, w).table, Ids(s)) + (if pending < BATCH_SIZE then pending else BATCH_SIZE)
      <= Work(s.table, Ids(s))
  {
    var batch := Members(s.txns[w].batch);
    BatchIsPending(s, w);
    CommitLowersWork(s, w, Ids(s));
    assert batch * Ids(s) == batch;
    if Pending(s) <= batch { SubsetSize(Pending(s), batch); }
  }

  /** One worker, no inserts: each commit uses up one of the `n` left, and none is left only when all is settled. */
  lemma {:induction false} SweepingRunDrains(s: System, w: Worker, es: seq<Event>, n: nat)
    requires Sweeping(s, w) && Possible(s, es)
    requires forall k :: 0 <= k < |es| ==> ByWorker(es[k], w) && !es[k].Insert?
    requires DrainedWithin(s, n)
    ensures Commits(es) <= n
    ensures Sweeping(Exec(s, es), w) && DrainedWithin(Exec(s, es), n - Commits(es))
    decreases |es|
  {
    if es != [] {
      var s' := Apply(s, es[0]);
      StepKeepsSweeping(s, w, es[0]);
      if es[0].Commit? {
        CommitNeedsWork(s, w, n);
        CommitDrains(s, w, n);
        SweepingRunDrains(s', w, es[1..], n - 1);
      } else {
        OtherStepKeepsDrain(s, w, es[0], n);
        SweepingRunDrains(s', w, es[1..], n);
      }
    }
  }

  lemma {:induction false} OtherStepKeepsDrain(s: System, w: Worker, e: Event, n: nat)
    requires Sweeping(s, w) && Enabled(s, e) && ByWorker(e, w) && !e.Insert? && !e.Commit?
    requires DrainedWithin(s, n)
    ensures DrainedWithin(Apply(s, e), n)
  {
    var s' := Apply(s, e);
    OtherStepsKeepWork(s, e, Ids(s));
    forall i | 0 <= i < |s.table| ensures s'.table[i].row == s.table[i].row {
      OtherStepsKeepRows(s, e, i);
    }
    assert Ids(s') == Ids(s);
    assert Pending(s') == Pending(s);
  }

  // ---------------------------------------------------------------------------------------------
  // A worker can always go on
  // ---------------------------------------------------------------------------------------------

  /** The oldest `n` of `rows`, oldest first. */
  lemma {:induction false} Oldest(s: System, rows: set<nat>, n: nat) returns (batch: seq<nat>)
    requires forall i :: i in rows ==> i < |s.table|
    ensures |batch| <= n && Distinct(batch)
    ensures forall j :: 0 <= j < |batch| ==> batch[j] in rows
    ensures forall j, k :: 0 <= j < k < |batch| ==>
      s.table[batch[j]].row.createdAt <= s.table[batch[k]].row.createdAt
    ensures forall i :: i in rows && i !in batch ==>
      |batch| == n && forall j :: 0 <= j < |batch| ==>
        s.table[batch[j]].row.createdAt <= s.table[i].row.createdAt
    ensures n > 0 && rows != {} ==> batch != []
    decreases n
  {
    if n == 0 || rows == {} {
      batch := [];
    } else {
      var m := OldestOne(s, rows);
      var rest := Oldest(s, rows - {m}, n - 1);
      batch := [m] + rest;
      assert forall i :: i in rows && i !in batch ==> i in rows - {m} && i !in rest;
    }
  }

  lemma {:induction false} OldestOne(s: System, rows: set<nat>) returns (m: nat)
    requires rows != {} && forall i :: i in rows ==> i < |s.table|
    ensures m in rows && forall i :: i in rows ==> s.table[m].row.createdAt <= s.table[i].row.createdAt
    decreases |rows|
  {
    var first :| first in rows;
    var rest := rows - {first};
    m := first;
    if rest != {} {
      var r := OldestOne(s, rest);
      if s.table[r].row.createdAt < s.table[first].row.createdAt { m := r; }
    }
    forall i | i in rows ensures s.table[m].row.createdAt <= s.table[i].row.createdAt {
      assert i == first || i in rest;
    }
  }

  ghost predicate CanBegin(s: System, w: Worker) {
    exists batch :: Enabled(s, Begin(w, batch))
  }

  /** With any number of workers: the select of an idle worker finds a batch exactly when some row is eligible. */
  lemma {:induction false} SelectFindsExactlyEligible(s: System, w: Worker)
    requires w !in s.txns
    ensures CanBegin(s, w) <==> exists i :: Eligible(s, i)
  {
    if exists i :: Eligible(s, i) {
      var i :| Eligible(s, i);
      var rows := set i | 0 <= i < |s.table| && Eligible(s, i);
      assert i in rows;
      var batch := Oldest(s, rows, BATCH_SIZE);
      forall k | Eligible(s, k) && k !in batch ensures Passed(s, batch, k) {
        assert k in rows;
      }
      assert ValidBatch(s, batch);
      assert Enabled(s, Begin(w, batch));
    }
    if CanBegin(s, w) {
      var batch :| Enabled(s, Begin(w, batch));
      assert Eligible(s, batch[0]);
    }
  }

  /** What the only worker can do next: go on with its transaction, or begin one as long as a row is PENDING. */
  lemma {:induction false} WorkerCanGoOn(s: System, w: Worker)
    requires Sweeping(s, w)
    ensures w in s.txns ==> Unfinished(s, w) || Enabled(s, Commit(w))
    ensures w !in s.txns ==> (CanBegin(s, w) <==> Pending(s) != {})
  {
    if w in s.txns {
      assert TxnOk(s, w);
      if s.txns[w].next < |s.txns[w].batch| { assert SlotOk(s, w, s.txns[w].next); }
    } else {
      SelectFindsExactlyEligible(s, w);
      if i :| i in Pending(s) {
        UnlockedWhenIdle(s, w, i);
      } else {
        assert forall k :: Eligible(s, k) ==> k in Pending(s);
      }
    }
  }

  ghost predicate AllSettled(s: System) {
    forall i :: 0 <= i < |s.table| ==> s.table[i].row.status.PUBLISHED? || s.table[i].row.status.FAILED?
  }

  lemma {:induction false} SettledIsNotPending(s: System)
    requires Inv(s)
    ensures AllSettled(s) <==> Pending(s) == {}
  {
    assert forall i :: 0 <= i < |s.table| ==> RecordOk(s, i);
    if AllSettled(s) {
      assert forall i :: i in Pending(s) ==> !s.table[i].row.status.PUBLISHED? && !s.table[i].row.status.FAILED?;
    } else {
      var i :| 0 <= i < |s.table| && !(s.table[i].row.status.PUBLISHED? || s.table[i].row.status.FAILED?);
      assert RecordOk(s, i) && i in Pending(s);
    }
  }

  /**
   One worker and no further inserts.  However many transactions abort in between, at most
   (sum of 5 - retryCount) / 50 + 5 runs commit; whenever the worker is idle, either every row is PUBLISHED or
   FAILED or its next call finds a batch; and within a call it can always attempt the next message or commit.
   So the table is drained exactly when the worker has nothing more to do, after a bounded number of commits.
   */
  lemma {:induction false} OutboxDrains(es: seq<Event>, w: Worker, more: seq<Event>)
    requires Possible(EMPTY, es) && Exec(EMPTY, es).txns == map[]
    requires Possible(Exec(EMPTY, es), more)
    requires forall k :: 0 <= k < |more| ==> ByWorker(more[k], w) && !more[k].Insert?
    ensures var s := Exec(EMPTY, es); Commits(more) <= Work(s.table, Ids(s)) / BATCH_SIZE + MAX_RETRIES
    ensures var end := Exec(Exec(EMPTY, es), more);
      && (w in end.txns ==> Unfinished(end, w) || Enabled(end, Commit(w)))
      && (w !in end.txns ==> (AllSettled(end) <==> !CanBegin(end, w)))
    ensures var s := Exec(EMPTY, es);
      Commits(more) == Work(s.table, Ids(s)) / BATCH_SIZE + MAX_RETRIES ==> AllSettled(Exec(s, more))
  {
    RunKeepsInv(EMPTY, es);
    var s := Exec(EMPTY, es);
    var n := Work(s.table, Ids(s)) / BATCH_SIZE + MAX_RETRIES;
    SweepingRunDrains(s, w, more, n);
    var end := Exec(s, more);
    WorkerCanGoOn(end, w);
    SettledIsNotPending(end);
    if Commits(more) == n { NothingLeft(end); }
  }

  lemma {:induction false} NothingLeft(s: System)
    requires Inv(s) && DrainedWithin(s, 0)
    ensures Pending(s) == {}
  {
    forall i | 0 <= i < |s.table| ensures i !in Pending(s) { assert RecordOk(s, i); }
  }

  // ---------------------------------------------------------------------------------------------
  // One worker: how long a row waits
  // ---------------------------------------------------------------------------------------------

  /** The PENDING rows created no later than row `r`. */
  function Ahead(s: System, r: nat): set<nat>
    requires r < |s.table|
  {
    set i | 0 <= i < |s.table| && i != r && s.table[i].row.status.PENDING?
            && s.table[i].row.createdAt <= s.table[r].row.createdAt
  }

  /** Some committed run of `es` has row `r` in its batch. */
  ghost predicate Served(s: System, es: seq<Event>, r: nat)
    requires Possible(s, es)
    decreases |es|
  {
    es != [] &&
    ((es[0].Commit? && r in s.txns[es[0].worker].batch) || Served(Apply(s, es[0]), es[1..], r))
  }

  /** Inserts only rows younger than `t`. */
  predicate Younger(e: Event, t: nat) {
    e.Insert? ==> forall k :: 0 <= k < |e.rows| ==> t < e.rows[k].createdAt
  }

  /** Row `r` still waits; only rows of `ahead` can go first, and a batch without `r` is full of them. */
  ghost predicate Waiting(s: System, w: Worker, r: nat, ahead: set<nat>) {
    && Inv(s) && r in Pending(s) && ahead <= Ids(s)
    && (forall v :: v in s.txns ==> v == w)
    && (forall i :: i in Ahead(s, r) ==> i in ahead)
    && (w in s.txns && r !in s.txns[w].batch ==>
         |s.txns[w].batch| == BATCH_SIZE && Members(s.txns[w].batch) <= ahead)
  }

  lemma {:induction false} StepKeepsWaiting(s: System, w: Worker, r: nat, ahead: set<nat>, e: Event)
    requires Waiting(s, w, r, ahead) && Enabled(s, e)
    requires ByWorker(e, w) && Younger(e, s.table[r].row.createdAt)
    requires e.Commit? ==> r !in s.txns[w].batch
    ensures Waiting(Apply(s, e), w, r, ahead)
    ensures Apply(s, e).table[r].row.createdAt == s.table[r].row.createdAt
  {
    StepKeepsInv(s, e);
    var s' := Apply(s, e);
    if e.Commit? {
      forall i | 0 <= i < |s.table|
        ensures i in Pending(s') ==> i in Pending(s)
        ensures i !in s.txns[w].batch ==> s'.table[i] == s.table[i]
        ensures s'.table[i].row.createdAt == s.table[i].row.createdAt
      {
        CommitHits(s, w, i);
        StepHistory(s, e, i);
      }
    } else {
      forall i | 0 <= i < |s.table| ensures s'.table[i].row == s.table[i].row { OtherStepsKeepRows(s, e, i); }
    }
    if e.Begin? && r !in e.batch {
      assert RecordOk(s, r) && Eligible(s, r) && Passed(s, e.batch, r);
      forall i | i in e.batch ensures i in Ahead(s, r) {
        var j :| 0 <= j < |e.batch| && e.batch[j] == i;
        assert Eligible(s, e.batch[j]);
      }
    }
  }

  lemma {:induction false} UnservedRun(s: System, w: Worker, r: nat, ahead: set<nat>, es: seq<Event>)
    requires Waiting(s, w, r, ahead) && Possible(s, es)
    requires forall k :: 0 <= k < |es| ==> ByWorker(es[k], w) && Younger(es[k], s.table[r].row.createdAt)
    requires !Served(s, es, r)
    ensures BATCH_SIZE * Commits(es) <= Work(s.table, ahead)
    ensures Waiting(Exec(s, es), w, r, ahead)
    decreases |es|
  {
    if es != [] {
      var s' := Apply(s, es[0]);
      StepKeepsWaiting(s, w, r, ahead, es[0]);
      UnservedRun(s', w, r, ahead, es[1..]);
      if es[0].Commit? {
        CommitLowersWork(s, w, ahead);
        BatchIsPending(s, w);
        assert Members(s.txns[w].batch) * ahead == Members(s.txns[w].batch);
      } else {
        OtherStepsKeepWork(s, es[0], ahead);
      }
    }
  }

  lemma {:induction false} WaitingCanGoOn(s: System, w: Worker, r: nat, ahead: set<nat>)
    requires Waiting(s, w, r, ahead)
    ensures w in s.txns ==> Unfinished(s, w) || Enabled(s, Commit(w))
    ensures w !in s.txns ==> CanBegin(s, w)
  {
    if w in s.txns {
      assert TxnOk(s, w);
      if s.txns[w].next < |s.txns[w].batch| { assert SlotOk(s, w, s.txns[w].next); }
    } else {
      assert RecordOk(s, r);
      assert Eligible(s, r);
      SelectFindsExactlyEligible(s, w);
    }
  }

  /**
   One worker: as long as a PENDING row with k PENDING rows no younger than it, and only younger rows inserted, is
   in the batch of no committed run, at most k / 10 runs have committed and the worker is not out of work: its
   call can go on, or its next call finds a batch.  So one of the next k / 10 + 1 commits has the row.
   */
  lemma {:induction false} BoundedWait(es: seq<Event>, r: nat, w: Worker, more: seq<Event>)
    requires Possible(EMPTY, es) && Exec(EMPTY, es).txns == map[]
    requires r in Pending(Exec(EMPTY, es))
    requires Possible(Exec(EMPTY, es), more)
    requires forall k :: 0 <= k < |more| ==>
      ByWorker(more[k], w) && Younger(more[k], Exec(EMPTY, es).table[r].row.createdAt)
    ensures !Served(Exec(EMPTY, es), more, r) ==>
      var end := Exec(Exec(EMPTY, es), more);
      && Commits(more) <= |Ahead(Exec(EMPTY, es), r)| / 10
      && r in Pending(end)
      && (if w in end.txns then Unfinished(end, w) || Enabled(end, Commit(w)) else CanBegin(end, w))
  {
    RunKeepsInv(EMPTY, es);
    var s := Exec(EMPTY, es);
    var ahead := Ahead(s, r);
    if !Served(s, more, r) {
      UnservedRun(s, w, r, ahead, more);
      WorkAtMost(s.table, ahead);
      WaitingCanGoOn(Exec(s, more), w, r, ahead);
    }
  }
}
