/**
 What the broker's answers decide.  A row's copies are the attempts that reached the broker, its status is
 the answers its committed transactions got, and so a settled row is undelivered exactly when every attempt
 ever made on it was refused.
 */
module OutboxAnswers {
  import opened Wrappers
  import opened Outbox

  // ---------------------------------------------------------------------------------------------
  // Copies are the attempts that reached the broker
  // ---------------------------------------------------------------------------------------------

  /** The event is a publish attempt on row `id`. */
  ghost predicate Attempts(s: System, e: Event, id: nat)
    requires Enabled(s, e)
  {
    e.Attempt? && s.txns[e.worker].batch[s.txns[e.worker].next] == id
  }

  /** How the publish attempts on row `id` ended, in order. */
  ghost function OutcomesOn(s: System, es: seq<Event>, id: nat): seq<Outcome>
    requires Possible(s, es)
    decreases |es|
  {
    if es == [] then []
    else (if Attempts(s, es[0], id) then [es[0].outcome] else []) + OutcomesOn(Apply(s, es[0]), es[1..], id)
  }

  /** How many attempts put the message into the broker. */
  function Reached(outcomes: seq<Outcome>): nat {
    if outcomes == [] then 0 else (if outcomes[0].Rejected? then 0 else 1) + Reached(outcomes[1..])
  }

  lemma {:induction false} CopiesAfterStep(s: System, e: Event, id: nat)
    requires Enabled(s, e)
    ensures Copies(Apply(s, e).log, id)
         == Copies(s.log, id) + (if Attempts(s, e, id) && !e.outcome.Rejected? then 1 else 0)
  {
    if e.Attempt? {
      var t := s.txns[e.worker];
      CopiesAfterSend(s.log, t.batch[t.next], t.loaded[t.batch[t.next]], e.outcome, id);
    }
  }

  /** In any run the broker gains one copy of a message for each attempt on it that was not refused. */
  lemma {:induction false} CopiesAreReached(s: System, es: seq<Event>, id: nat)
    requires Possible(s, es)
    ensures Copies(Exec(s, es).log, id) == Copies(s.log, id) + Reached(OutcomesOn(s, es, id))
    decreases |es|
  {
    if es != [] {
      CopiesAfterStep(s, es[0], id);
      CopiesAreReached(Apply(s, es[0]), es[1..], id);
      var rest := OutcomesOn(Apply(s, es[0]), es[1..], id);
      if Attempts(s, es[0], id) {
        assert ([es[0].outcome] + rest)[1..] == rest;
      } else {
        assert [] + rest == rest;
      }
    }
  }

  lemma {:induction false} NoneReached(outcomes: seq<Outcome>)
    ensures Reached(outcomes) == 0 <==> forall o :: o in outcomes ==> o.Rejected?
  {
    if outcomes != [] {
      NoneReached(outcomes[1..]);
      assert forall o :: o in outcomes <==> o == outcomes[0] || o in outcomes[1..];
    }
  }

  // ---------------------------------------------------------------------------------------------
  // The status is the answers of committed transactions
  // ---------------------------------------------------------------------------------------------

  /** How a publish attempt ended, and when the worker noted it. */
  datatype Answer = Answer(outcome: Outcome, at: nat)

  /** The answers to row `id` that a commit made final, and the one still held by an open transaction. */
  datatype Answers = Answers(final: seq<Answer>, open: Option<Answer>)

  ghost function Answered(s: System, e: Event, id: nat, a: Answers): Answers
    requires Enabled(s, e)
  {
    match e
    case Attempt(w, outcome, now, saved) =>
      if id !in s.txns[w].batch then a
      else if !saved then a.(open := None)
      else if Attempts(s, e, id) then a.(open := Some(Answer(outcome, now)))
      else a
    case Commit(w) =>
      if id in s.txns[w].batch && a.open.Some? then Answers(a.final + [a.open.value], None) else a
    case Abort(w) => if id in s.txns[w].batch then a.(open := None) else a
    case _ => a
  }

  ghost function AnswersTo(s: System, es: seq<Event>, id: nat, a: Answers): Answers
    requires Possible(s, es)
    decreases |es|
  {
    if es == [] then a else AnswersTo(Apply(s, es[0]), es[1..], id, Answered(s, es[0], id, a))
  }

  const UNASKED: Answers := Answers([], None)

  /** The answers that were no confirmation. */
  function Unconfirmed(answers: seq<Answer>): nat {
    if answers == [] then 0
    else Unconfirmed(answers[..|answers| - 1]) + (if answers[|answers| - 1].outcome.Confirmed? then 0 else 1)
  }

  /** The instant of the confirmation, which is always the last answer. */
  function ConfirmedAt(answers: seq<Answer>): Option<nat> {
    if answers != [] && answers[|answers| - 1].outcome.Confirmed? then Some(answers[|answers| - 1].at) else None
  }

  /** The row says what these answers, one per committed transaction, make of it. */
  predicate SettledBy(row: Row, answers: seq<Answer>) {
    && row.retryCount == Unconfirmed(answers)
    && |answers| == Weight(row)
    && (row.status.PUBLISHED? <==> ConfirmedAt(answers).Some?)
    && (row.status.FAILED? <==> ConfirmedAt(answers).None? && |answers| == MAX_RETRIES)
    && (row.status.PENDING? <==> ConfirmedAt(answers).None? && |answers| < MAX_RETRIES)
    && row.processedAt == ConfirmedAt(answers)
  }

  lemma {:induction false} OneMoreAnswer(row: Row, answers: seq<Answer>, outcome: Outcome, now: nat)
    requires SettledBy(row, answers) && row.status.PENDING?
    ensures SettledBy(Handle(row, outcome, now), answers + [Answer(outcome, now)])
  {
    assert (answers + [Answer(outcome, now)])[..|answers|] == answers;
  }

  ghost predicate AnswersOk(s: System, id: nat, a: Answers) {
    if id >= |s.table| then a == UNASKED
    else
      && SettledBy(s.table[id].row, a.final)
      && match s.table[id].lock
         case None => a.open.None?
         case Some(w) =>
           && w in s.txns
           && (id in s.txns[w].writes <==> a.open.Some?)
           && (a.open.Some? ==> SettledBy(s.txns[w].writes[id], a.final + [a.open.value]))
  }

  lemma {:induction false} AttemptAnswered(
      s: System, w: Worker, outcome: Outcome, now: nat, saved: bool, id: nat, a: Answers)
    requires Inv(s) && Unfinished(s, w) && AnswersOk(s, id, a)
    ensures var e := Attempt(w, outcome, now, saved); AnswersOk(Apply(s, e), id, Answered(s, e, id, a))
  {
    var t := s.txns[w];
    assert TxnOk(s, w) && SlotOk(s, w, t.next);
    if id < |s.table| {
      assert RecordOk(s, id);
      if id in t.batch { HeldIsLocked(s, w, id); }
      if t.batch[t.next] == id { OneMoreAnswer(s.table[id].row, a.final, outcome, now); }
    }
  }

  lemma {:induction false} CommitAnswered(s: System, w: Worker, id: nat, a: Answers)
    requires Inv(s) && Enabled(s, Commit(w)) && AnswersOk(s, id, a)
    ensures AnswersOk(CommitBatch(s, w), id, Answered(s, Commit(w), id, a))
  {
    if id in s.txns[w].batch {
      HeldIsLocked(s, w, id);
      var j :| 0 <= j < |s.txns[w].batch| && s.txns[w].batch[j] == id;
      assert TxnOk(s, w) && SlotOk(s, w, j);
    } else if id < |s.table| {
      assert RecordOk(s, id);
    }
  }

  lemma {:induction false} AbortAnswered(s: System, w: Worker, id: nat, a: Answers)
    requires Inv(s) && w in s.txns && AnswersOk(s, id, a)
    ensures AnswersOk(AbortBatch(s, w), id, Answered(s, Abort(w), id, a))
  {
    if id in s.txns[w].batch {
      HeldIsLocked(s, w, id);
    } else if id < |s.table| {
      assert RecordOk(s, id);
    }
  }

  lemma {:induction false} StepAnswered(s: System, e: Event, id: nat, a: Answers)
    requires Inv(s) && Enabled(s, e) && AnswersOk(s, id, a)
    ensures AnswersOk(Apply(s, e), id, Answered(s, e, id, a))
  {
    match e
    case Attempt(w, outcome, now, saved) => AttemptAnswered(s, w, outcome, now, saved, id, a);
    case Commit(w) => CommitAnswered(s, w, id, a);
    case Abort(w) => AbortAnswered(s, w, id, a);
    case Insert(_) =>
    case Begin(w, batch) => if id in batch { assert Eligible(s, id); }
    case Prune(_, _) =>
  }

  lemma {:induction false} RunAnswered(s: System, es: seq<Event>, id: nat, a: Answers)
    requires Inv(s) && Possible(s, es) && AnswersOk(s, id, a)
    ensures AnswersOk(Exec(s, es), id, AnswersTo(s, es, id, a))
    decreases |es|
  {
    if es != [] {
      StepAnswered(s, es[0], id, a);
      StepKeepsInv(s, es[0]);
      RunAnswered(Apply(s, es[0]), es[1..], id, Answered(s, es[0], id, a));
    }
  }

  /**
   In every run a row no transaction holds is FAILED exactly when its committed transactions got five answers
   and none was a confirmation, PUBLISHED exactly when the last was, and PENDING otherwise.  Its retry count is the
   number of committed answers that were none, and it is dated with the instant of its confirmation.
   */
  lemma {:induction false} AnswersDecideStatus(es: seq<Event>, id: nat)
    requires Possible(EMPTY, es) && id < |Exec(EMPTY, es).table| && Exec(EMPTY, es).table[id].lock.None?
    ensures var row := Exec(EMPTY, es).table[id].row;
      var answers := AnswersTo(EMPTY, es, id, UNASKED).final;
      var confirmed := answers != [] && answers[|answers| - 1].outcome.Confirmed?;
      && row.retryCount == Unconfirmed(answers)
      && (row.status.FAILED? <==> |answers| == 5 && !confirmed)
      && (row.status.PUBLISHED? <==> confirmed)
      && (row.status.PENDING? <==> |answers| < 5 && !confirmed)
      && row.processedAt == if confirmed then Some(answers[|answers| - 1].at) else None
  {
    RunAnswered(EMPTY, es, id, UNASKED);
  }

  /**
   At-least-once delivery, exactly: in every run the broker has no copy of a message if and only if every
   attempt ever made on it was refused; a settled row without a copy is then FAILED, after at least five
   refusals.  A lost confirmation counts as delivered even if the row ends FAILED.
   */
  lemma {:induction false} UndeliveredExactlyWhenRefused(es: seq<Event>, id: nat)
    requires Possible(EMPTY, es) && id < |Exec(EMPTY, es).table|
    ensures var s := Exec(EMPTY, es);
      var outcomes := OutcomesOn(EMPTY, es, id);
      && (Copies(s.log, id) == 0 <==> forall o :: o in outcomes ==> o.Rejected?)
      && (Copies(s.log, id) == 0 && s.table[id].lock.None? && !s.table[id].row.status.PENDING? ==>
           s.table[id].row.status.FAILED? && |outcomes| >= 5)
  {
    CopiesAreReached(EMPTY, es, id);
    NoneReached(OutcomesOn(EMPTY, es, id));
    RunKeepsInv(EMPTY, es);
    assert RecordOk(Exec(EMPTY, es), id);
    RunAnswered(EMPTY, es, id, UNASKED);
    AnswersAreOutcomes(EMPTY, es, id, UNASKED);
  }

  lemma {:induction false} AnswersAreOutcomes(s: System, es: seq<Event>, id: nat, a: Answers)
    requires Possible(s, es)
    ensures Asked(AnswersTo(s, es, id, a)) <= Asked(a) + |OutcomesOn(s, es, id)|
    decreases |es|
  {
    if es != [] {
      AnswersAreOutcomes(Apply(s, es[0]), es[1..], id, Answered(s, es[0], id, a));
    }
  }

  function Asked(a: Answers): nat {
    |a.final| + (if a.open.Some? then 1 else 0)
  }
}
