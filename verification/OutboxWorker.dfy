/**
 The worker's `processOutboxMessages` as the sequential code it is: one transaction, one loop over the
 loaded entities, one commit or rollback.  It is proved to perform a run of the state machine, so every
 theorem about runs applies to it.
 */
module OutboxWorker {
  import opened Wrappers
  import opened Outbox

  /** What the environment decides about one message: the publish, the clock, and the save. */
  datatype Try = Try(outcome: Outcome, now: nat, saved: bool)

  // ---------------------------------------------------------------------------------------------
  // The run a worker performs
  // ---------------------------------------------------------------------------------------------

  function AttemptEvents(w: Worker, tries: seq<Try>): seq<Event> {
    seq(|tries|, k requires 0 <= k < |tries| => Attempt(w, tries[k].outcome, tries[k].now, tries[k].saved))
  }

  /** How many messages are saved before the first failed save. */
  function SavedPrefix(tries: seq<Try>): (n: nat)
    ensures n <= |tries|
    ensures forall k :: 0 <= k < n ==> tries[k].saved
    ensures n < |tries| ==> !tries[n].saved
  {
    if tries == [] || !tries[0].saved then 0 else 1 + SavedPrefix(tries[1..])
  }

  lemma {:induction false} NextIsSaved(tries: seq<Try>, k: nat)
    requires k <= SavedPrefix(tries) && k < |tries| && tries[k].saved
    ensures k < SavedPrefix(tries)
  {
  }

  /** The events of one call: none when nothing is PENDING, else a transaction that commits or aborts. */
  function RunEvents(w: Worker, batch: seq<nat>, tries: seq<Try>, commits: bool): seq<Event> {
    var n := SavedPrefix(tries);
    if batch == [] then []
    else if n < |tries| then RunPrefix(w, batch, tries, n + 1)
    else RunPrefix(w, batch, tries, n) + [if commits then Commit(w) else Abort(w)]
  }

  /** The unsaved entity writes and the publications of the first `k` messages. */
  function Writes(s: System, batch: seq<nat>, tries: seq<Try>, k: nat): map<nat, Row>
    requires k <= |batch| == |tries| && (forall j :: 0 <= j < |batch| ==> batch[j] < |s.table|)
  {
    if k == 0 then map[]
    else
      var t := tries[k - 1];
      Writes(s, batch, tries, k - 1)[batch[k - 1] := Handle(s.table[batch[k - 1]].row, t.outcome, t.now)]
  }

  function Sends(s: System, batch: seq<nat>, tries: seq<Try>, k: nat): seq<Delivery>
    requires k <= |batch| == |tries| && (forall j :: 0 <= j < |batch| ==> batch[j] < |s.table|)
  {
    if k == 0 then []
    else
      Sends(s, batch, tries, k - 1)
      + Sent(batch[k - 1], s.table[batch[k - 1]].row, tries[k - 1].outcome)
  }

  function WithWrite(t: Txn, id: nat, m: Row): Txn {
    t.(writes := t.writes[id := m], next := t.next + 1)
  }

  /** Transaction `t` once `k` of its messages are saved. */
  function After(t: Txn, s: System, batch: seq<nat>, tries: seq<Try>, k: nat): Txn
    requires k <= |batch| == |tries| && (forall j :: 0 <= j < |batch| ==> batch[j] < |s.table|)
  {
    t.(writes := Writes(s, batch, tries, k), next := k)
  }

  /** The system with the transaction open and `k` messages handled. */
  function Progress(s: System, w: Worker, batch: seq<nat>, tries: seq<Try>, k: nat): System
    requires k <= |batch| == |tries| && (forall j :: 0 <= j < |batch| ==> batch[j] < |s.table|)
  {
    var begun := BeginBatch(s, w, batch);
    System(
      begun.table,
      begun.txns[w := After(begun.txns[w], s, batch, tries, k)],
      s.log + Sends(s, batch, tries, k))
  }

  lemma {:induction false} RunThenStep(s: System, es: seq<Event>, e: Event)
    requires Possible(s, es) && Enabled(Exec(s, es), e)
    ensures Possible(s, es + [e]) && Exec(s, es + [e]) == Apply(Exec(s, es), e)
    decreases |es|
  {
    if es == [] {
      assert es + [e] == [e];
      assert [e][1..] == [];
      assert Possible(Apply(s, e), [e][1..]);
    } else {
      RunThenStep(Apply(s, es[0]), es[1..], e);
      assert (es + [e])[1..] == es[1..] + [e];
    }
  }

  lemma {:induction false} OneMoreAttempt(s: System, w: Worker, batch: seq<nat>, tries: seq<Try>, k: nat)
    requires k < |batch| == |tries| && (forall j :: 0 <= j < |batch| ==> batch[j] < |s.table|)
    ensures Unfinished(Progress(s, w, batch, tries, k), w)
    ensures PublishNext(Progress(s, w, batch, tries, k), w, tries[k].outcome)
      == Progress(s, w, batch, tries, k).(log := s.log + Sends(s, batch, tries, k + 1))
    ensures AttemptNext(Progress(s, w, batch, tries, k), w, tries[k].outcome, tries[k].now, true)
      == Progress(s, w, batch, tries, k + 1)
  {
    assert batch[k] in BeginBatch(s, w, batch).txns[w].loaded;
    var sent := Sent(batch[k], s.table[batch[k]].row, tries[k].outcome);
    assert s.log + Sends(s, batch, tries, k) + sent == s.log + (Sends(s, batch, tries, k) + sent);
  }

  /** The run up to its first `k` attempts. */
  function RunPrefix(w: Worker, batch: seq<nat>, tries: seq<Try>, k: nat): seq<Event>
    requires k <= |tries|
  {
    [Begin(w, batch)] + AttemptEvents(w, tries[..k])
  }

  lemma {:induction false} RunPrefixGrows(w: Worker, batch: seq<nat>, tries: seq<Try>, k: nat)
    requires k < |tries|
    ensures RunPrefix(w, batch, tries, k + 1) ==
      RunPrefix(w, batch, tries, k) + [Attempt(w, tries[k].outcome, tries[k].now, tries[k].saved)]
  {
  }

  lemma {:induction false} RunStarts(s: System, w: Worker, batch: seq<nat>, tries: seq<Try>)
    requires Enabled(s, Begin(w, batch)) && |batch| == |tries|
    ensures forall j :: 0 <= j < |batch| ==> batch[j] < |s.table|
    ensures Possible(s, RunPrefix(w, batch, tries, 0))
    ensures Exec(s, RunPrefix(w, batch, tries, 0)) == Progress(s, w, batch, tries, 0)
  {
    forall j | 0 <= j < |batch| ensures batch[j] < |s.table| { assert Eligible(s, batch[j]); }
    assert RunPrefix(w, batch, tries, 0) == [] + [Begin(w, batch)];
    RunThenStep(s, [], Begin(w, batch));
    assert s.log + [] == s.log;
    assert BeginBatch(s, w, batch) == Progress(s, w, batch, tries, 0);
  }

  lemma {:induction false} RunReaches(s: System, w: Worker, batch: seq<nat>, tries: seq<Try>, k: nat)
    requires Enabled(s, Begin(w, batch)) && k <= |batch| == |tries|
    requires forall j :: 0 <= j < k ==> tries[j].saved
    ensures forall j :: 0 <= j < |batch| ==> batch[j] < |s.table|
    ensures Possible(s, RunPrefix(w, batch, tries, k))
    ensures Exec(s, RunPrefix(w, batch, tries, k)) == Progress(s, w, batch, tries, k)
  {
    if k == 0 {
      RunStarts(s, w, batch, tries);
    } else {
      RunReaches(s, w, batch, tries, k - 1);
      OneMoreAttempt(s, w, batch, tries, k - 1);
      RunPrefixGrows(w, batch, tries, k - 1);
      var t := tries[k - 1];
      RunThenStep(s, RunPrefix(w, batch, tries, k - 1), Attempt(w, t.outcome, t.now, t.saved));
    }
  }

  /** How the run ends when its first `n` messages are saved. */
  function EndingAt(s: System, w: Worker, batch: seq<nat>, tries: seq<Try>, n: nat, commits: bool): System
    requires n <= |batch| == |tries| && (forall j :: 0 <= j < |batch| ==> batch[j] < |s.table|)
  {
    if n < |batch| then
      var last := s.log + Sends(s, batch, tries, n + 1);
      AbortBatch(Progress(s, w, batch, tries, n).(log := last), w)
    else if commits then CommitBatch(Progress(s, w, batch, tries, n), w)
    else AbortBatch(Progress(s, w, batch, tries, n), w)
  }

  function Ending(s: System, w: Worker, batch: seq<nat>, tries: seq<Try>, commits: bool): System
    requires |batch| == |tries| && (forall j :: 0 <= j < |batch| ==> batch[j] < |s.table|)
  {
    EndingAt(s, w, batch, tries, SavedPrefix(tries), commits)
  }

  lemma {:induction false} RunFails(s: System, w: Worker, batch: seq<nat>, tries: seq<Try>, n: nat)
    requires Enabled(s, Begin(w, batch)) && n < |batch| == |tries|
    requires (forall j :: 0 <= j < n ==> tries[j].saved) && !tries[n].saved
    ensures forall j :: 0 <= j < |batch| ==> batch[j] < |s.table|
    ensures Possible(s, RunPrefix(w, batch, tries, n + 1))
    ensures Exec(s, RunPrefix(w, batch, tries, n + 1)) ==
      AbortBatch(Progress(s, w, batch, tries, n).(log := s.log + Sends(s, batch, tries, n + 1)), w)
  {
    RunReaches(s, w, batch, tries, n);
    OneMoreAttempt(s, w, batch, tries, n);
    RunPrefixGrows(w, batch, tries, n);
    var t := tries[n];
    RunThenStep(s, RunPrefix(w, batch, tries, n), Attempt(w, t.outcome, t.now, t.saved));
  }

  lemma {:induction false} RunEnds(s: System, w: Worker, batch: seq<nat>, tries: seq<Try>, commits: bool)
    requires Enabled(s, Begin(w, batch)) && |batch| == |tries|
    ensures forall j :: 0 <= j < |batch| ==> batch[j] < |s.table|
    ensures Possible(s, RunEvents(w, batch, tries, commits))
    ensures Exec(s, RunEvents(w, batch, tries, commits)) == Ending(s, w, batch, tries, commits)
  {
    var n := SavedPrefix(tries);
    if n < |batch| {
      RunFails(s, w, batch, tries, n);
    } else {
      RunReaches(s, w, batch, tries, n);
      assert tries[..n] == tries;
      RunThenStep(s, RunPrefix(w, batch, tries, n), if commits then Commit(w) else Abort(w));
    }
  }

  // ---------------------------------------------------------------------------------------------
  // What a run leaves behind
  // ---------------------------------------------------------------------------------------------

  lemma {:induction false} WritesAt(s: System, batch: seq<nat>, tries: seq<Try>, k: nat, j: nat)
    requires j < k <= |batch| == |tries| && (forall i :: 0 <= i < |batch| ==> batch[i] < |s.table|)
    requires Distinct(batch)
    ensures batch[j] in Writes(s, batch, tries, k)
    ensures Writes(s, batch, tries, k)[batch[j]]
         == Handle(s.table[batch[j]].row, tries[j].outcome, tries[j].now)
  {
    if j < k - 1 {
      WritesAt(s, batch, tries, k - 1, j);
    }
  }

  /**
   A committed call replaces each row of its batch by its handled entity; any other call leaves the row
   as it was.  Either way the worker's lock is gone.
   */
  lemma {:induction false} BatchRowAfter(s: System, w: Worker, batch: seq<nat>, tries: seq<Try>, commits: bool, j: nat)
    requires Enabled(s, Begin(w, batch)) && j < |batch| == |tries|
    ensures forall k :: 0 <= k < |batch| ==> batch[k] < |s.table|
    ensures var r := Ending(s, w, batch, tries, commits).table[batch[j]];
      && r.lock == None
      && r.row == if commits && SavedPrefix(tries) == |batch|
                  then Handle(s.table[batch[j]].row, tries[j].outcome, tries[j].now)
                  else s.table[batch[j]].row
  {
    forall k | 0 <= k < |batch| ensures batch[k] < |s.table| { assert Eligible(s, batch[k]); }
    if SavedPrefix(tries) == |batch| { WritesAt(s, batch, tries, |batch|, j); }
  }

  /** No call touches a row outside its batch. */
  lemma {:induction false} OtherRowAfter(s: System, w: Worker, batch: seq<nat>, tries: seq<Try>, commits: bool, i: nat)
    requires Inv(s) && Enabled(s, Begin(w, batch)) && |batch| == |tries|
    requires i < |s.table| && i !in batch
    ensures forall k :: 0 <= k < |batch| ==> batch[k] < |s.table|
    ensures Ending(s, w, batch, tries, commits).table[i] == s.table[i]
  {
    forall k | 0 <= k < |batch| ensures batch[k] < |s.table| { assert Eligible(s, batch[k]); }
    assert RecordOk(s, i);
  }

  /** The transactions besides `w`'s, the table's length and the log through a whole call. */
  lemma {:induction false} ProgressKeepsRest(s: System, w: Worker, batch: seq<nat>, tries: seq<Try>, k: nat)
    requires w !in s.txns && k <= |batch| == |tries| && (forall j :: 0 <= j < |batch| ==> batch[j] < |s.table|)
    ensures var p := Progress(s, w, batch, tries, k);
      p.txns - {w} == s.txns && |p.table| == |s.table| && p.log == s.log + Sends(s, batch, tries, k)
  {
  }

  lemma {:induction false} EndKeepsRest(s: System, w: Worker)
    ensures AbortBatch(s, w).txns == s.txns - {w} && AbortBatch(s, w).log == s.log
    ensures |AbortBatch(s, w).table| == |s.table|
    ensures w in s.txns ==>
      && CommitBatch(s, w).txns == s.txns - {w} && CommitBatch(s, w).log == s.log
      && |CommitBatch(s, w).table| == |s.table|
  {
  }

  lemma {:induction false} EndingKeepsRest(
      s: System, w: Worker, batch: seq<nat>, tries: seq<Try>, n: nat, commits: bool)
    requires w !in s.txns && n <= |batch| == |tries| && (forall j :: 0 <= j < |batch| ==> batch[j] < |s.table|)
    ensures var end := EndingAt(s, w, batch, tries, n, commits);
      && |end.table| == |s.table| && end.txns == s.txns
      && end.log == s.log + Sends(s, batch, tries, if n < |batch| then n + 1 else n)
  {
    var p := Progress(s, w, batch, tries, n);
    ProgressKeepsRest(s, w, batch, tries, n);
    if n < |batch| {
      EndKeepsRest(p.(log := s.log + Sends(s, batch, tries, n + 1)), w);
    } else {
      EndKeepsRest(p, w);
    }
  }

  lemma {:induction false} BatchIsInTable(s: System, w: Worker, batch: seq<nat>)
    requires Enabled(s, Begin(w, batch))
    ensures w !in s.txns && forall j :: 0 <= j < |batch| ==> batch[j] < |s.table|
  {
    forall j | 0 <= j < |batch| ensures batch[j] < |s.table| { assert Eligible(s, batch[j]); }
  }

  /** A call leaves no transaction open and keeps in the broker what it published before it ended. */
  lemma {:induction false} NothingElseAfter(s: System, w: Worker, batch: seq<nat>, tries: seq<Try>, commits: bool)
    requires Enabled(s, Begin(w, batch)) && |batch| == |tries|
    ensures forall k :: 0 <= k < |batch| ==> batch[k] < |s.table|
    ensures var n := SavedPrefix(tries);
      var end := Ending(s, w, batch, tries, commits);
      && |end.table| == |s.table| && end.txns == s.txns
      && end.log == s.log + Sends(s, batch, tries, if n < |batch| then n + 1 else n)
  {
    BatchIsInTable(s, w, batch);
    EndingKeepsRest(s, w, batch, tries, SavedPrefix(tries), commits);
  }

  lemma {:induction false} OneMoreMessage(t: Txn, s: System, batch: seq<nat>, tries: seq<Try>, k: nat)
    requires k < |batch| == |tries| && (forall j :: 0 <= j < |batch| ==> batch[j] < |s.table|)
    ensures var m := s.table[batch[k]].row;
      && After(t, s, batch, tries, k + 1)
           == WithWrite(After(t, s, batch, tries, k), batch[k], Handle(m, tries[k].outcome, tries[k].now))
      && s.log + Sends(s, batch, tries, k + 1)
           == s.log + Sends(s, batch, tries, k) + Sent(batch[k], m, tries[k].outcome)
  {
    var sent := Sent(batch[k], s.table[batch[k]].row, tries[k].outcome);
    assert s.log + Sends(s, batch, tries, k) + sent == s.log + (Sends(s, batch, tries, k) + sent);
  }

  // ---------------------------------------------------------------------------------------------
  // The code
  // ---------------------------------------------------------------------------------------------

  /** PostgreSQL as the workers see it, and the broker behind the event publisher. */
  class Backend {
    var table: seq<Record>
    var txns: map<Worker, Txn>
    var log: seq<Delivery>

    ghost function State(): System
      reads this
    {
      System(table, txns, log)
    }

    /** Starts a transaction and locks the selected rows. */
    method SelectForUpdate(w: Worker, batch: seq<nat>)
      requires Enabled(State(), Begin(w, batch))
      modifies this
      ensures forall j :: 0 <= j < |batch| ==> batch[j] < old(|table|)
      ensures State() == BeginBatch(old(State()), w, batch)
    {
      forall j | 0 <= j < |batch| ensures batch[j] < |table| { assert Eligible(State(), batch[j]); }
      var s := BeginBatch(System(table, txns, log), w, batch);
      table, txns := s.table, s.txns;
    }

    /** Delivers unless refused; returns whether the confirmation arrived. */
    method Publish(d: Delivery, outcome: Outcome) returns (confirmed: bool)
      modifies `log
      ensures confirmed == outcome.Confirmed?
      ensures log == old(log) + (if outcome.Rejected? then [] else [d])
    {
      if !outcome.Rejected? {
        log := log + [d];
      }
      confirmed := outcome.Confirmed?;
    }

    method Save(w: Worker, id: nat, m: Row)
      requires w in txns
      modifies `txns
      ensures txns == old(txns)[w := WithWrite(old(txns)[w], id, m)]
    {
      txns := txns[w := WithWrite(txns[w], id, m)];
    }

    method CommitTransaction(w: Worker)
      requires w in txns
      modifies this
      ensures State() == CommitBatch(old(State()), w)
    {
      var s := CommitBatch(System(table, txns, log), w);
      table, txns := s.table, s.txns;
    }

    method RollbackTransaction(w: Worker)
      modifies this
      ensures State() == AbortBatch(old(State()), w)
    {
      var s := AbortBatch(System(table, txns, log), w);
      table, txns := s.table, s.txns;
    }

    /** DELETE of the PUBLISHED rows processed before `cutoff`; they keep their place in the history. */
    method DeletePublished(cutoff: int)
      modifies `table
      ensures |table| == |old(table)|
      ensures forall i :: 0 <= i < |table| ==>
        table[i] == if old(table)[i].row.status.PUBLISHED? && Before(old(table)[i].row.processedAt, cutoff)
                    then old(table)[i].(pruned := true) else old(table)[i]
    {
      var i := 0;
      while i < |table|
        invariant i <= |table| == |old(table)|
        invariant forall k :: 0 <= k < i ==>
          table[k] == if old(table)[k].row.status.PUBLISHED? && Before(old(table)[k].row.processedAt, cutoff)
                      then old(table)[k].(pruned := true) else old(table)[k]
        invariant forall k :: i <= k < |table| ==> table[k] == old(table)[k]
        decreases |old(table)| - i
      {
        if table[i].row.status.PUBLISHED? && Before(table[i].row.processedAt, cutoff) {
          table := table[i := table[i].(pruned := true)];
        }
        i := i + 1;
      }
    }
  }

  /** `processed_at < :cutoff` of SQL: false of a NULL. */
  predicate Before(processedAt: Option<nat>, cutoff: int) {
    processedAt.Some? && processedAt.value < cutoff
  }

  class Processor {
    const name: Worker
    const backend: Backend
    var isProcessing: bool

    constructor (name: Worker, backend: Backend)
      ensures this.name == name && this.backend == backend && !isProcessing
    {
      this.name, this.backend, isProcessing := name, backend, false;
    }

    /** Publishes and settles one entity; `handled` is what is passed to `save`. */
    method PublishMessage(id: nat, loaded: Row, outcome: Outcome, now: nat) returns (handled: Row)
      modifies backend`log
      ensures backend.log == old(backend.log) + Sent(id, loaded, outcome)
      ensures handled == Handle(loaded, outcome, now)
    {
      var msg := loaded;
      var routingKey := RoutingKey(msg.eventType);
      var confirmed := backend.Publish(Delivery(id, routingKey, msg.eventType, msg.payload), outcome);
      if confirmed {
        if msg.payload.Object? && "code" in msg.payload.fields {
          msg := msg.(payload := Object(msg.payload.fields["code" := Text("[REDACTED]")]));
        }
        msg := msg.(status := PUBLISHED);
        msg := msg.(processedAt := Some(now));
      } else {
        msg := msg.(retryCount := msg.retryCount + 1);
        if msg.retryCount >= MAX_RETRIES {
          msg := msg.(status := FAILED);
        }
      }
      handled := msg;
    }

    /** One message: publish, settle, and save unless the save throws. */
    method HandleMessage(id: nat, loaded: Row, attempt: Try)
      requires name in backend.txns
      modifies backend
      ensures backend.table == old(backend.table)
      ensures backend.log == old(backend.log) + Sent(id, loaded, attempt.outcome)
      ensures backend.txns == if !attempt.saved then old(backend.txns) else
        old(backend.txns)[name := WithWrite(old(backend.txns)[name], id, Handle(loaded, attempt.outcome, attempt.now))]
    {
      var msg := PublishMessage(id, loaded, attempt.outcome, attempt.now);
      if attempt.saved {
        backend.Save(name, id, msg);
      }
    }

    /** The loop over the loaded entities; `failed` when a save threw and the transaction is lost. */
    method PublishBatch(batch: seq<nat>, tries: seq<Try>, ghost s: System, ghost t: Txn)
      returns (failed: bool)
      requires |tries| == |batch| && (forall j :: 0 <= j < |batch| ==> batch[j] < |s.table|)
      requires name in backend.txns && backend.txns[name] == t && backend.log == s.log
      requires forall j :: 0 <= j < |batch| ==>
        batch[j] in t.loaded && t.loaded[batch[j]] == s.table[batch[j]].row
      requires t.writes == map[] && t.next == 0
      modifies backend
      ensures failed == (SavedPrefix(tries) < |batch|)
      ensures backend.table == old(backend.table)
      ensures backend.txns == old(backend.txns)[name := After(t, s, batch, tries, SavedPrefix(tries))]
      ensures backend.log == s.log + Sends(s, batch, tries, SavedPrefix(tries) + (if failed then 1 else 0))
    {
      var pending := backend.txns[name].loaded;
      var i := 0;
      failed := false;
      while i < |batch| && !failed
        invariant i <= SavedPrefix(tries)
        invariant failed ==> i == SavedPrefix(tries) < |batch|
        invariant backend.table == old(backend.table)
        invariant backend.txns == old(backend.txns)[name := After(t, s, batch, tries, i)]
        invariant backend.log == s.log + Sends(s, batch, tries, i + (if failed then 1 else 0))
        decreases |batch| - i, !failed
      {
        OneMoreMessage(t, s, batch, tries, i);
        HandleMessage(batch[i], pending[batch[i]], tries[i]);
        if tries[i].saved {
          NextIsSaved(tries, i);
          i := i + 1;
        } else {
          failed := true;
        }
      }
    }

    /** Select, loop, and the commit or rollback at the end of the transaction. */
    method RunTransaction(batch: seq<nat>, tries: seq<Try>, commits: bool, ghost s: System)
      requires |tries| == |batch| && backend.State() == s && Enabled(s, Begin(name, batch))
      modifies backend
      ensures forall j :: 0 <= j < |batch| ==> batch[j] < |s.table|
      ensures backend.State() == Ending(s, name, batch, tries, commits)
    {
      backend.SelectForUpdate(name, batch);
      var failed := PublishBatch(batch, tries, s, BeginBatch(s, name, batch).txns[name]);
      if failed || !commits {
        backend.RollbackTransaction(name);
      } else {
        backend.CommitTransaction(name);
      }
    }

    /**
     One call of the worker: a no-op while a call is in progress, otherwise exactly the run of the state
     machine that the select and the environment's choices determine.
     */
    method ProcessOutboxMessages(batch: seq<nat>, tries: seq<Try>, commits: bool)
      requires |tries| == |batch|
      requires !isProcessing ==> name !in backend.txns && ValidBatch(backend.State(), batch)
      modifies this, backend
      ensures isProcessing == old(isProcessing)
      ensures old(isProcessing) ==> backend.State() == old(backend.State())
      ensures !old(isProcessing) ==>
        var es := RunEvents(name, batch, tries, commits);
        Possible(old(backend.State()), es) && backend.State() == Exec(old(backend.State()), es)
    {
      if isProcessing {
        return;
      }
      isProcessing := true;
      if batch == [] {
        isProcessing := false;
        return;
      }
      ghost var s := backend.State();
      RunTransaction(batch, tries, commits, s);
      RunEnds(s, name, batch, tries, commits);
      isProcessing := false;
    }

    /** The hourly cron: exactly the PUBLISHED rows processed over `retentionHours` ago go, and nothing else. */
    method PrunePublishedMessages(now: int, retentionHours: int)
      modifies backend`table
      ensures |backend.table| == |old(backend.table)|
      ensures forall i :: 0 <= i < |backend.table| ==>
        var was := old(backend.table)[i];
        && backend.table[i] == was.(pruned := backend.table[i].pruned)
        && (backend.table[i].pruned <==>
             was.pruned || (was.row.status.PUBLISHED? && was.row.processedAt.Some?
                            && now - was.row.processedAt.value > 3600000 * retentionHours))
      ensures backend.State() == Apply(old(backend.State()), Prune(now, retentionHours))
    {
      var cutoff := now - retentionHours * 60 * 60 * 1000;
      backend.DeletePublished(cutoff);
      assert backend.table == PruneRows(old(backend.State()), cutoff).table;
    }
  }
}
