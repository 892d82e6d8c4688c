/**
 The single-use upload token across three services: media-service issues it PENDING, the gateway checks it,
 users-service checks and consumes it, the gateway marks it again.  The users-service check and its SET are
 separate Redis commands, as in the code, so requests interleave between them.
 */
module UploadToken {
  import opened Wrappers
  import opened RedisStore

  const PENDING_TTL: nat := 120
  const CONSUMED_TTL: nat := 600
  const MIN_SIZE: nat := 1024
  const MAX_SIZE: nat := 5 * 1024 * 1024

  /** How far a registration naming a file key has come; steps number the events of the run. */
  datatype Phase =
    | Oversized                                                // read PENDING, size out of range, purge due
    | Checked(checkedAt: nat)                                  // passed the gateway, on its way
    | Cleared(checkedAt: nat, readStep: nat)                   // users-service read a token not CONSUMED
    | Claimed(readStep: nat, setStep: nat)                     // users-service set CONSUMED
    | Committed(readStep: nat, setStep: nat)                   // registration committed

  datatype Registration = Registration(key: string, phase: Phase)

  /** `first` records when a key was first set CONSUMED: the instant and the step. */
  datatype First = First(at: nat, step: nat)

  datatype State = State(
    store: Store, now: nat, steps: nat,
    issued: set<string>, regs: map<nat, Registration>, first: map<string, First>)

  datatype Event =
    | Issue(key: string)
    | GatewayCheck(id: nat, key: string)
    | Purge(id: nat)
    | ServiceRead(id: nat)
    | ServiceSet(id: nat)
    | Commit(id: nat)
    | Fail(id: nat)
    | GatewayMark(id: nat)
    | Pass(until: nat)

  /** The uploaded object's size, fixed once uploaded; None when there is no object. */
  type Sizes = string -> Option<nat>

  const START: State := State(EMPTY, 0, 0, {}, map[], map[])

  predicate GoodSize(size: Option<nat>) {
    size.Some? && MIN_SIZE <= size.value <= MAX_SIZE
  }

  function Token(s: State, key: string): Option<string> {
    Get(s.store, Upload(key), s.now)
  }

  predicate In(s: State, id: nat) {
    id in s.regs
  }

  /** A gateway request reaches users-service less than ten minutes after its check. */
  predicate Enabled(s: State, e: Event) {
    match e
    case Issue(key) => key !in s.issued
    case GatewayCheck(id, _) => !In(s, id)
    case Purge(id) => In(s, id) && s.regs[id].phase.Oversized?
    case ServiceRead(id) =>
      In(s, id) && s.regs[id].phase.Checked? && s.now < s.regs[id].phase.checkedAt + Seconds(CONSUMED_TTL)
    case ServiceSet(id) => In(s, id) && s.regs[id].phase.Cleared?
    case Commit(id) => In(s, id) && s.regs[id].phase.Claimed?
    case Fail(id) => In(s, id) && !s.regs[id].phase.Committed?
    case GatewayMark(id) => In(s, id) && s.regs[id].phase.Committed?
    case Pass(t) => s.now <= t
  }

  function Move(s: State, id: nat, p: Phase): State
    requires In(s, id)
  {
    s.(regs := s.regs[id := s.regs[id].(phase := p)], steps := s.steps + 1)
  }

  function Drop(s: State, id: nat): State {
    s.(regs := s.regs - {id}, steps := s.steps + 1)
  }

  /** SET upload:temp:key CONSUMED EX 600. */
  function Consume(s: State, key: string): State {
    s.(store := SetWithTtl(s.store, Upload(key), "CONSUMED", CONSUMED_TTL, s.now),
       first := if key in s.first then s.first else s.first[key := First(s.now, s.steps)])
  }

  function Apply(s: State, sizes: Sizes, e: Event): State
    requires Enabled(s, e)
  {
    match e
    case Issue(key) =>
      s.(store := SetWithTtl(s.store, Upload(key), "PENDING", PENDING_TTL, s.now),
         issued := s.issued + {key}, steps := s.steps + 1)
    case GatewayCheck(id, key) =>
      if Token(s, key) != Some("PENDING") || sizes(key).None? then s.(steps := s.steps + 1)
      else
        var p := if GoodSize(sizes(key)) then Checked(s.now) else Oversized;
        s.(regs := s.regs[id := Registration(key, p)], steps := s.steps + 1)
    case Purge(id) => Drop(s.(store := Del(s.store, Upload(s.regs[id].key))), id)
    case ServiceRead(id) =>
      if Token(s, s.regs[id].key) == Some("CONSUMED") then Drop(s, id)
      else Move(s, id, Cleared(s.regs[id].phase.checkedAt, s.steps))
    case ServiceSet(id) =>
      Move(Consume(s, s.regs[id].key), id, Claimed(s.regs[id].phase.readStep, s.steps))
    case Commit(id) => Move(s, id, Committed(s.regs[id].phase.readStep, s.regs[id].phase.setStep))
    case Fail(id) => Drop(s, id)
    case GatewayMark(id) => Move(Consume(s, s.regs[id].key), id, s.regs[id].phase)
    case Pass(t) => s.(now := t, steps := s.steps + 1)
  }

  predicate Possible(s: State, sizes: Sizes, es: seq<Event>)
    decreases |es|
  {
    es == [] || (Enabled(s, es[0]) && Possible(Apply(s, sizes, es[0]), sizes, es[1..]))
  }

  function Exec(s: State, sizes: Sizes, es: seq<Event>): State
    requires Possible(s, sizes, es)
    decreases |es|
  {
    if es == [] then s else Exec(Apply(s, sizes, es[0]), sizes, es[1..])
  }

  // ---------------------------------------------------------------------------------------------
  // The invariant
  // ---------------------------------------------------------------------------------------------

  /** Once first consumed, a key reads CONSUMED for ten minutes and never PENDING again. */
  predicate KeyOk(s: State, key: string)
    requires key in s.first
  {
    var k := Upload(key);
    && s.first[key].at <= s.now && s.first[key].step < s.steps
    && key in s.issued
    && k in s.store.texts && s.store.texts[k].value == "CONSUMED"
    && s.store.texts[k].expiresAt.Some?
    && s.first[key].at + Seconds(CONSUMED_TTL) <= s.store.texts[k].expiresAt.value
  }

  /** A registration under way was checked before its key was first consumed, and read it before that. */
  predicate RegOk(s: State, sizes: Sizes, id: nat)
    requires id in s.regs
  {
    var r := s.regs[id];
    && r.key in s.issued
    && (r.phase.Oversized? <==> !GoodSize(sizes(r.key)))
    && match r.phase
       case Oversized => true
       case Checked(t) => t <= s.now && (r.key in s.first ==> t <= s.first[r.key].at)
       case Cleared(t, read) =>
         && t <= s.now && read < s.steps
         && (r.key in s.first ==> t <= s.first[r.key].at && read < s.first[r.key].step)
       case Claimed(read, setAt) => r.key in s.first && read < s.first[r.key].step <= setAt < s.steps
       case Committed(read, setAt) => r.key in s.first && read < s.first[r.key].step <= setAt < s.steps
  }

  /** The step at which users-service read the token for this registration. */
  function ReadStep(r: Registration): Option<nat> {
    match r.phase
    case Oversized => None
    case Checked(_) => None
    case Cleared(_, read) => Some(read)
    case Claimed(read, _) => Some(read)
    case Committed(read, _) => Some(read)
  }

  predicate ReadsDiffer(s: State) {
    forall i, j :: i in s.regs && j in s.regs && i != j && ReadStep(s.regs[i]).Some? ==>
      ReadStep(s.regs[i]) != ReadStep(s.regs[j])
  }

  predicate Inv(s: State, sizes: Sizes) {
    && ReadsDiffer(s)
    && (forall key :: key in s.first ==> KeyOk(s, key) && GoodSize(sizes(key)))
    && (forall k :: k in s.store.texts && k.Upload? ==> k.fileKey in s.issued)
    && (forall id :: id in s.regs ==> RegOk(s, sizes, id))
  }

  lemma {:induction false} StepKeepsKeys(s: State, sizes: Sizes, e: Event)
    requires Inv(s, sizes) && Enabled(s, e)
    ensures var s' := Apply(s, sizes, e);
      && (forall key :: key in s'.first ==> KeyOk(s', key) && GoodSize(sizes(key)))
      && (forall k :: k in s'.store.texts && k.Upload? ==> k.fileKey in s'.issued)
  {
    var s' := Apply(s, sizes, e);
    if e.Purge? || e.ServiceSet? || e.GatewayMark? {
      assert RegOk(s, sizes, e.id);
    }
    forall key | key in s'.first ensures KeyOk(s', key) && GoodSize(sizes(key)) {
      if key in s.first { assert KeyOk(s, key); }
    }
  }

  lemma {:induction false} StepKeepsReg(s: State, sizes: Sizes, e: Event, id: nat)
    requires Inv(s, sizes) && Enabled(s, e) && id in Apply(s, sizes, e).regs
    ensures RegOk(Apply(s, sizes, e), sizes, id)
  {
    if id in s.regs {
      assert RegOk(s, sizes, id);
      var key := s.regs[id].key;
      if key in s.first { assert KeyOk(s, key); }
    } else {
      assert e.GatewayCheck? && e.id == id && Upload(e.key) in s.store.texts;
    }
  }

  lemma {:induction false} StepKeepsReads(s: State, sizes: Sizes, e: Event)
    requires Inv(s, sizes) && Enabled(s, e)
    ensures ReadsDiffer(Apply(s, sizes, e))
  {
    if e.ServiceRead? {
      forall id | id in s.regs ensures ReadStep(s.regs[id]) != Some(s.steps) { assert RegOk(s, sizes, id); }
    }
  }

  lemma {:induction false} StepKeepsInv(s: State, sizes: Sizes, e: Event)
    requires Inv(s, sizes) && Enabled(s, e)
    ensures Inv(Apply(s, sizes, e), sizes)
  {
    StepKeepsKeys(s, sizes, e);
    StepKeepsReads(s, sizes, e);
    forall id | id in Apply(s, sizes, e).regs ensures RegOk(Apply(s, sizes, e), sizes, id) {
      StepKeepsReg(s, sizes, e, id);
    }
  }

  lemma {:induction false} RunKeepsInv(s: State, sizes: Sizes, es: seq<Event>)
    requires Inv(s, sizes) && Possible(s, sizes, es)
    ensures Inv(Exec(s, sizes, es), sizes)
    decreases |es|
  {
    if es != [] {
      StepKeepsInv(s, sizes, es[0]);
      RunKeepsInv(Apply(s, sizes, es[0]), sizes, es[1..]);
    }
  }

  // ---------------------------------------------------------------------------------------------
  // Single use
  // ---------------------------------------------------------------------------------------------

  predicate Used(s: State, id: nat, key: string) {
    id in s.regs && s.regs[id].key == key && s.regs[id].phase.Committed?
  }

  /** Each of the two reads came before the other's SET. */
  predicate Overlap(a: Phase, b: Phase)
    requires a.Committed? && b.Committed?
  {
    a.readStep < b.setStep && b.readStep < a.setStep
  }

  /**
   In every interleaving in which the gateway-to-service delay stays under ten minutes, two registrations
   commit the same file key only if their users-service check-and-set overlapped.
   */
  lemma {:induction false} DoubleUseNeedsOverlap(sizes: Sizes, es: seq<Event>, i: nat, j: nat, key: string)
    requires Possible(START, sizes, es) && i != j
    requires Used(Exec(START, sizes, es), i, key) && Used(Exec(START, sizes, es), j, key)
    ensures var s := Exec(START, sizes, es); Overlap(s.regs[i].phase, s.regs[j].phase)
  {
    RunKeepsInv(START, sizes, es);
    var s := Exec(START, sizes, es);
    assert RegOk(s, sizes, i) && RegOk(s, sizes, j);
  }

  /** So with the check-and-set in one step, over the whole run at most one registration uses a key. */
  lemma {:induction false} SingleUse(sizes: Sizes, es: seq<Event>, i: nat, j: nat, key: string)
    requires Possible(START, sizes, es)
    requires Used(Exec(START, sizes, es), i, key) && Used(Exec(START, sizes, es), j, key)
    requires var s := Exec(START, sizes, es);
      && s.regs[i].phase.setStep == s.regs[i].phase.readStep + 1
      && s.regs[j].phase.setStep == s.regs[j].phase.readStep + 1
    ensures i == j
  {
    if i != j {
      DoubleUseNeedsOverlap(sizes, es, i, j, key);
      RunKeepsInv(START, sizes, es);
    }
  }

  /** An issued key that does not read PENDING, be it consumed, purged or expired. */
  predicate Past(s: State, key: string) {
    key in s.issued && Token(s, key) != Some("PENDING")
  }

  lemma {:induction false} StepStaysPast(s: State, sizes: Sizes, e: Event, key: string)
    requires Enabled(s, e) && Past(s, key)
    ensures Past(Apply(s, sizes, e), key)
  {
  }

  /** A key that has left PENDING, by use, purge or expiry, reads PENDING at no later time, whatever happens. */
  lemma {:induction false} NeverPendingAgain(s: State, sizes: Sizes, more: seq<Event>, key: string)
    requires Past(s, key) && Possible(s, sizes, more)
    ensures Past(Exec(s, sizes, more), key)
    decreases |more|
  {
    if more != [] {
      StepStaysPast(s, sizes, more[0], key);
      NeverPendingAgain(Apply(s, sizes, more[0]), sizes, more[1..], key);
    }
  }

  /** A consumed key is past: it reads CONSUMED or nothing. */
  lemma {:induction false} ConsumedIsPast(sizes: Sizes, es: seq<Event>, key: string)
    requires Possible(START, sizes, es) && key in Exec(START, sizes, es).first
    ensures Past(Exec(START, sizes, es), key)
  {
    RunKeepsInv(START, sizes, es);
    assert KeyOk(Exec(START, sizes, es), key);
  }

  // ---------------------------------------------------------------------------------------------
  // Without the atomic step the token is not single-use
  // ---------------------------------------------------------------------------------------------

  /** Both gateways check, both services read, then both set and commit. */
  function RaceEvent(key: string, k: nat): Event {
    match k
    case 0 => Issue(key)
    case 1 => GatewayCheck(0, key)
    case 2 => GatewayCheck(1, key)
    case 3 => ServiceRead(0)
    case 4 => ServiceRead(1)
    case 5 => ServiceSet(0)
    case 6 => ServiceSet(1)
    case 7 => Commit(0)
    case _ => Commit(1)
  }

  function RaceFrom(key: string, k: nat): seq<Event>
    decreases 9 - k
  {
    if k >= 9 then [] else [RaceEvent(key, k)] + RaceFrom(key, k + 1)
  }

  function RacePhase(id: nat, k: nat): Phase {
    if k <= 3 + id then Checked(0)
    else if k <= 5 + id then Cleared(0, 3 + id)
    else if k <= 7 + id then Claimed(3 + id, 5 + id)
    else Committed(3 + id, 5 + id)
  }

  /** The state before event `k` of the race, all at time 0. */
  function RaceState(key: string, k: nat): State {
    State(
      if k == 0 then EMPTY
      else if k <= 5 then SetWithTtl(EMPTY, Upload(key), "PENDING", PENDING_TTL, 0)
      else SetWithTtl(EMPTY, Upload(key), "CONSUMED", CONSUMED_TTL, 0),
      0, k,
      if k == 0 then {} else {key},
      if k <= 1 then map[]
      else if k == 2 then map[0 := Registration(key, RacePhase(0, k))]
      else map[0 := Registration(key, RacePhase(0, k)), 1 := Registration(key, RacePhase(1, k))],
      if k <= 5 then map[] else map[key := First(0, 5)])
  }

  lemma {:induction false} RaceStep(sizes: Sizes, key: string, k: nat)
    requires GoodSize(sizes(key)) && k < 9
    ensures Enabled(RaceState(key, k), RaceEvent(key, k))
    ensures Apply(RaceState(key, k), sizes, RaceEvent(key, k)) == RaceState(key, k + 1)
  {
    var s := Apply(RaceState(key, k), sizes, RaceEvent(key, k));
    assert s.regs == RaceState(key, k + 1).regs;
    assert s.store.texts == RaceState(key, k + 1).store.texts;
  }

  lemma {:induction false} RaceRuns(sizes: Sizes, key: string, k: nat)
    requires GoodSize(sizes(key)) && k <= 9
    ensures Possible(RaceState(key, k), sizes, RaceFrom(key, k))
    ensures Exec(RaceState(key, k), sizes, RaceFrom(key, k)) == RaceState(key, 9)
    decreases 9 - k
  {
    if k < 9 {
      RaceStep(sizes, key, k);
      RaceRuns(sizes, key, k + 1);
      assert RaceFrom(key, k)[1..] == RaceFrom(key, k + 1);
    }
  }

  /** As the code stands, two registrations racing between GET and SET do commit the same upload. */
  lemma {:induction false} RaceUsesTheKeyTwice(sizes: Sizes, key: string)
    requires GoodSize(sizes(key))
    ensures Possible(START, sizes, RaceFrom(key, 0))
    ensures var s := Exec(START, sizes, RaceFrom(key, 0)); Used(s, 0, key) && Used(s, 1, key)
  {
    RaceRuns(sizes, key, 0);
  }
}
