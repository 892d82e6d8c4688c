/**
 The sweep of temporary uploads: one loop over a listing, and what it means over runs of uploads and sweeps.
 */
module TempCleanup {
  import opened Wrappers
  import opened RedisStore
  import UploadToken

  const MAX_AGE: nat := 2 * 60 * 60 * 1000
  const PREFIX: string := "temp_uploads/"

  /** A listed object; a listing may lack a modification time. */
  datatype Item = Item(name: string, lastModified: Option<nat>)

  /** A missing modification time counts as now, so such an object has age 0. */
  function Age(item: Item, now: nat): int {
    if item.lastModified.Some? then now - item.lastModified.value else 0
  }

  predicate Stale(item: Item, now: nat) {
    item.name != "" && Age(item, now) >= MAX_AGE
  }

  /** The names a sweep at `now` removes, when deleting the names in `stuck` fails. */
  function Swept(listing: seq<Item>, now: nat, stuck: set<string>): set<string> {
    set item | item in listing && Stale(item, now) && item.name !in stuck :: item.name
  }

  class Service {
    var objects: map<string, nat>
    var isCleaning: bool

    constructor ()
      ensures !isCleaning && objects == map[]
    {
      isCleaning, objects := false, map[];
    }

    /** One sweep: exactly the stale objects of the listing go, apart from those that cannot be deleted. */
    method CleanExpiredTempUploads(listing: seq<Item>, now: nat, stuck: set<string>)
      returns (inspected: nat, deleted: nat)
      modifies this
      ensures isCleaning == old(isCleaning)
      ensures old(isCleaning) ==> objects == old(objects) && inspected == deleted == 0
      ensures !old(isCleaning) ==> objects == old(objects) - Swept(listing, now, stuck)
      ensures !old(isCleaning) ==> inspected <= |listing| && deleted <= inspected
    {
      inspected, deleted := 0, 0;
      if isCleaning {
        return;
      }
      isCleaning := true;
      var i := 0;
      while i < |listing|
        invariant i <= |listing| && deleted <= inspected <= i
        invariant objects == old(objects) - Swept(listing[..i], now, stuck)
      {
        var item := listing[i];
        SweptGrows(listing, i, now, stuck);
        if item.name != "" {
          inspected := inspected + 1;
          var lastModified := if item.lastModified.Some? then item.lastModified.value else now;
          var ageMs := now - lastModified;
          if ageMs >= MAX_AGE && item.name !in stuck {
            objects := objects - {item.name};
            deleted := deleted + 1;
          }
        }
        i := i + 1;
      }
      assert listing[..i] == listing;
      isCleaning := false;
    }
  }

  lemma {:induction false} SweptGrows(listing: seq<Item>, i: nat, now: nat, stuck: set<string>)
    requires i < |listing|
    ensures Swept(listing[..i + 1], now, stuck) == Swept(listing[..i], now, stuck)
      + (if Stale(listing[i], now) && listing[i].name !in stuck then {listing[i].name} else {})
  {
    assert listing[..i + 1] == listing[..i] + [listing[i]];
  }

  /** A name goes exactly when it is listed with a date two hours back or more, and can be deleted. */
  lemma {:induction false} SweptExactly(listing: seq<Item>, now: nat, stuck: set<string>, name: string)
    ensures name in Swept(listing, now, stuck) <==>
      && name != "" && name !in stuck
      && exists item :: item in listing && item.name == name && item.lastModified.Some?
                        && item.lastModified.value + 7200000 <= now
  {
    if item :| item in listing && Stale(item, now) && item.name == name && name !in stuck {
      assert item.lastModified.Some?;
    }
  }

  /** What the object store lists under the prefix. */
  ghost predicate Lists(listing: seq<Item>, objects: map<string, nat>) {
    && (forall k :: 0 <= k < |listing| ==>
         listing[k].name in objects && listing[k].lastModified == Some(objects[listing[k].name]))
    && (forall name :: name in objects && PREFIX <= name ==>
         exists k :: 0 <= k < |listing| && listing[k].name == name)
  }

  /** After a faithful listing without failed deletions, what is left under the prefix is younger than 2 h. */
  lemma {:induction false} SweepIsExact(listing: seq<Item>, objects: map<string, nat>, now: nat, name: string)
    requires Lists(listing, objects) && PREFIX <= name
    ensures name in objects - Swept(listing, now, {}) <==> name in objects && now < objects[name] + 7200000
  {
    if name in objects {
      var k :| 0 <= k < |listing| && listing[k].name == name;
      assert listing[k] in listing;
      assert Stale(listing[k], now) <==> now >= objects[name] + MAX_AGE;
    }
  }

  // ---------------------------------------------------------------------------------------------
  // Runs of token issues, uploads and sweeps
  // ---------------------------------------------------------------------------------------------

  /**
   A sweep under way: its `now`, whether it began on a half-hourly tick or at boot, the objects there when it
   began, the modification times the stream has yielded, and the names handled.  Listing, deleting and
   everything else interleave, and time passes.
   */
  datatype Sweep = Sweep(
    start: nat, onTick: bool, present: set<string>, fetched: map<string, nat>, visited: set<string>)

  /** `cleared` is the start of the last sweep that finished, `onTick` whether it began on a tick. */
  datatype State = State(
    now: nat, store: Store, issuedAt: map<string, nat>, objects: map<string, nat>,
    cleared: nat, onTick: bool, sweep: Option<Sweep>)

  datatype Event =
    | Issue(key: string)
    | Upload(key: string)
    | Remove(key: string)          // by the consumer, or by a purge
    | Start(onTick: bool)
    | Fetch(key: string)           // the stream yields the object with its modification time
    | Visit(key: string)           // the loop body: deleted if it was stale when fetched
    | Finish
    | Pass(until: nat)

  const HALF_HOUR: nat := 30 * 60 * 1000

  /**
   The longest from the start of one sweep to that of the next, which is the first tick after it is done.  After a
   sweep that began on a tick that is a whole number of half hours; one that began at boot may end just past a
   tick, and then waits half an hour more.
   */
  function Gap(duration: nat, onTick: bool): nat {
    if onTick then HALF_HOUR * (duration / HALF_HOUR + 1) else duration + HALF_HOUR
  }

  /**
   An upload follows the issue of its URL.  A sweep lasts at most `duration` and handles every object that is
   there from its beginning to its end; the next starts at the next tick.
   */
  predicate Enabled(s: State, duration: nat, e: Event) {
    match e
    case Issue(key) => PREFIX <= key && key !in s.issuedAt
    case Upload(key) => key in s.issuedAt
    case Remove(_) => true
    case Start(_) => s.sweep.None?
    case Fetch(key) => s.sweep.Some? && key in s.objects
    case Visit(key) => s.sweep.Some? && key in s.sweep.value.fetched
    case Finish => s.sweep.Some? && s.sweep.value.present <= s.sweep.value.visited
    case Pass(t) =>
      && s.now <= t
      && t <= if s.sweep.Some? then s.sweep.value.start + duration else s.cleared + Gap(duration, s.onTick)
  }

  function Apply(s: State, e: Event): State
    requires (e.Fetch? || e.Visit? || e.Finish?) ==> s.sweep.Some?
    requires e.Fetch? ==> e.key in s.objects
    requires e.Visit? ==> e.key in s.sweep.value.fetched
  {
    match e
    case Issue(key) =>
      s.(store := SetWithTtl(s.store, RedisStore.Upload(key), "PENDING", UploadToken.PENDING_TTL, s.now),
         issuedAt := s.issuedAt[key := s.now])
    case Upload(key) => s.(objects := s.objects[key := s.now])
    case Remove(key) =>
      var gone := s.(objects := s.objects - {key});
      if s.sweep.None? then gone
      else gone.(sweep := Some(s.sweep.value.(present := s.sweep.value.present - {key})))
    case Start(onTick) => s.(sweep := Some(Sweep(s.now, onTick, s.objects.Keys, map[], {})))
    case Fetch(key) =>
      s.(sweep := Some(s.sweep.value.(fetched := s.sweep.value.fetched[key := s.objects[key]])))
    case Visit(key) =>
      var w := s.sweep.value;
      s.(objects := if Stale(Item(key, Some(w.fetched[key])), w.start) then s.objects - {key} else s.objects,
         sweep := Some(w.(visited := w.visited + {key})))
    case Finish => s.(cleared := s.sweep.value.start, onTick := s.sweep.value.onTick, sweep := None)
    case Pass(t) => s.(now := t)
  }

  predicate Possible(s: State, duration: nat, es: seq<Event>)
    decreases |es|
  {
    es == [] || (Enabled(s, duration, es[0]) && Possible(Apply(s, es[0]), duration, es[1..]))
  }

  function Exec(s: State, duration: nat, es: seq<Event>): State
    requires Possible(s, duration, es)
    decreases |es|
  {
    if es == [] then s else Exec(Apply(s, es[0]), duration, es[1..])
  }

  const START: State := State(0, EMPTY, map[], map[], 0, true, None)

  /** An object was uploaded after its token was issued, and was not stale when the last sweep began. */
  ghost predicate ObjectOk(s: State, key: string)
    requires key in s.objects
  {
    && key in s.issuedAt && s.issuedAt[key] <= s.objects[key] <= s.now
    && s.cleared < s.objects[key] + MAX_AGE
  }

  /** What the sweep under way knows of an object is not newer than the object, nor older than its token. */
  ghost predicate FetchedOk(s: State, w: Sweep, key: string)
    requires key in w.fetched
  {
    && key in s.issuedAt && s.issuedAt[key] <= w.fetched[key] <= s.now
    && (key in s.objects ==> w.fetched[key] <= s.objects[key])
  }

  /** An object the sweep has handled, or that was not there when it began, is not stale for it. */
  ghost predicate SweptOk(s: State, w: Sweep, key: string)
    requires key in s.objects
  {
    key in w.visited || key !in w.present ==> w.start < s.objects[key] + MAX_AGE
  }

  ghost predicate SweepOk(s: State, duration: nat, w: Sweep) {
    && s.cleared <= w.start <= s.now <= w.start + duration
    && w.start <= s.cleared + Gap(duration, s.onTick)
    && (forall key :: key in w.fetched ==> FetchedOk(s, w, key))
    && (forall key :: key in s.objects ==> SweptOk(s, w, key))
  }

  ghost predicate Inv(s: State, duration: nat) {
    && s.cleared <= s.now
    && (if s.sweep.Some? then SweepOk(s, duration, s.sweep.value) else s.now <= s.cleared + Gap(duration, s.onTick))
    && (forall key :: key in s.objects ==> ObjectOk(s, key))
    && (forall key :: key in s.issuedAt ==> PREFIX <= key && s.issuedAt[key] <= s.now)
    && (forall k :: k in s.store.texts && k.Upload? ==>
         && k.fileKey in s.issuedAt
         && s.store.texts[k].expiresAt == Some(s.issuedAt[k.fileKey] + Seconds(UploadToken.PENDING_TTL)))
  }

  lemma {:induction false} StepKeepsObjects(s: State, duration: nat, e: Event)
    requires Inv(s, duration) && Enabled(s, duration, e)
    ensures forall key :: key in Apply(s, e).objects ==> ObjectOk(Apply(s, e), key)
  {
    var s' := Apply(s, e);
    forall key | key in s'.objects ensures ObjectOk(s', key) {
      if key in s.objects {
        assert ObjectOk(s, key);
        if e.Finish? { assert SweptOk(s, s.sweep.value, key); }
      }
    }
  }

  lemma {:induction false} StepKeepsFetched(s: State, duration: nat, e: Event, key: string)
    requires Inv(s, duration) && Enabled(s, duration, e)
    requires Apply(s, e).sweep.Some? && key in Apply(s, e).sweep.value.fetched
    ensures FetchedOk(Apply(s, e), Apply(s, e).sweep.value, key)
  {
    if e.Fetch? && e.key == key {
      assert ObjectOk(s, key);
    } else {
      assert FetchedOk(s, s.sweep.value, key);
    }
  }

  lemma {:induction false} StepKeepsSwept(s: State, duration: nat, e: Event, key: string)
    requires Inv(s, duration) && Enabled(s, duration, e)
    requires Apply(s, e).sweep.Some? && key in Apply(s, e).objects
    ensures SweptOk(Apply(s, e), Apply(s, e).sweep.value, key)
  {
    if e.Start? {
      assert key in Apply(s, e).sweep.value.present;
    } else if key in s.objects {
      assert SweptOk(s, s.sweep.value, key);
      if e.Visit? && e.key == key { assert FetchedOk(s, s.sweep.value, key) && PREFIX <= key; }
    }
  }

  lemma {:induction false} StepKeepsSweep(s: State, duration: nat, e: Event)
    requires Inv(s, duration) && Enabled(s, duration, e)
    ensures var s' := Apply(s, e); s'.sweep.Some? ==> SweepOk(s', duration, s'.sweep.value)
  {
    var s' := Apply(s, e);
    if s'.sweep.Some? {
      var w := s'.sweep.value;
      forall key | key in w.fetched ensures FetchedOk(s', w, key) { StepKeepsFetched(s, duration, e, key); }
      forall key | key in s'.objects ensures SweptOk(s', w, key) { StepKeepsSwept(s, duration, e, key); }
    }
  }

  lemma {:induction false} StepKeepsInv(s: State, duration: nat, e: Event)
    requires Inv(s, duration) && Enabled(s, duration, e)
    ensures Inv(Apply(s, e), duration)
  {
    StepKeepsObjects(s, duration, e);
    StepKeepsSweep(s, duration, e);
  }

  lemma {:induction false} RunKeepsInv(s: State, duration: nat, es: seq<Event>)
    requires Inv(s, duration) && Possible(s, duration, es)
    ensures Inv(Exec(s, duration, es), duration)
    decreases |es|
  {
    if es != [] {
      StepKeepsInv(s, duration, es[0]);
      RunKeepsInv(Apply(s, es[0]), duration, es[1..]);
    }
  }

  /**
   With sweeps at boot and at the half-hourly ticks, none longer than `duration`, no temporary object outlives two
   hours, the gap between two sweeps, and one sweep.  When a sweep takes under 30 minutes that is two and a half
   hours and the sweep, and once that sweep more if the last one began at boot.
   */
  lemma {:induction false} NothingOutlivesTheSweep(duration: nat, es: seq<Event>, key: string)
    requires Possible(START, duration, es) && key in Exec(START, duration, es).objects
    ensures var s := Exec(START, duration, es);
      && s.now - s.objects[key] < MAX_AGE + Gap(duration, s.onTick) + duration
      && (duration < HALF_HOUR ==>
           s.now - s.objects[key] < 9000000 + duration + (if s.onTick then 0 else duration))
  {
    RunKeepsInv(START, duration, es);
    assert ObjectOk(Exec(START, duration, es), key);
    if duration < HALF_HOUR { assert duration / HALF_HOUR == 0; }
  }

  /**
   Whatever a sweep has fetched and whenever it gets to deleting, it never removes an object whose upload token
   is still PENDING, even one uploaded again since it was listed.
   */
  lemma {:induction false} PendingUploadsSurvive(duration: nat, es: seq<Event>, e: Event, key: string)
    requires Possible(START, duration, es) && Enabled(Exec(START, duration, es), duration, e) && !e.Remove?
    requires key in Exec(START, duration, es).objects
    requires Get(Exec(START, duration, es).store, RedisStore.Upload(key), Exec(START, duration, es).now).Some?
    ensures key in Apply(Exec(START, duration, es), e).objects
  {
    RunKeepsInv(START, duration, es);
    var s := Exec(START, duration, es);
    if e.Visit? && e.key == key {
      assert FetchedOk(s, s.sweep.value, key);
    }
  }

  // ---------------------------------------------------------------------------------------------
  // The code's sweep is a run of the machine
  // ---------------------------------------------------------------------------------------------

  /** The loop of a sweep that nothing interrupts: each listed object is fetched and visited. */
  function LoopEvents(listing: seq<Item>): seq<Event> {
    if listing == [] then []
    else
      var n := |listing| - 1;
      LoopEvents(listing[..n]) + [Fetch(listing[n].name), Visit(listing[n].name)]
  }

  function SweepEvents(listing: seq<Item>, onTick: bool): seq<Event> {
    [Start(onTick)] + LoopEvents(listing) + [Finish]
  }

  /** The state once the loop has handled `listing`. */
  function Handled(s: State, listing: seq<Item>, onTick: bool): State {
    s.(objects := s.objects - Swept(listing, s.now, {}),
       sweep := Some(Sweep(s.now, onTick, s.objects.Keys, Yielded(s, listing), Names(listing))))
  }

  function Names(listing: seq<Item>): set<string> {
    set item | item in listing :: item.name
  }

  /** Each object is listed once, under its name and modification time. */
  ghost predicate ListsOnce(listing: seq<Item>, objects: map<string, nat>) {
    && (forall k :: 0 <= k < |listing| ==>
         && listing[k].name in objects && listing[k].name != ""
         && listing[k].lastModified == Some(objects[listing[k].name]))
    && (forall j, k :: 0 <= j < k < |listing| ==> listing[j].name != listing[k].name)
  }

  /** A prefix of the listing leaves the next object to be handled. */
  lemma {:induction false} NextIsUnhandled(s: State, listing: seq<Item>)
    requires listing != [] && ListsOnce(listing, s.objects)
    ensures var n := |listing| - 1;
      && listing[n].name !in Names(listing[..n])
      && listing[n].name !in Swept(listing[..n], s.now, {})
      && Names(listing) == Names(listing[..n]) + {listing[n].name}
  {
    var n := |listing| - 1;
    assert listing == listing[..n] + [listing[n]];
  }

  /** What the stream has yielded once `listing` is handled. */
  function Yielded(s: State, listing: seq<Item>): map<string, nat> {
    map k | k in Names(listing) && k in s.objects :: s.objects[k]
  }

  lemma {:induction false} YieldsOneMore(s: State, listing: seq<Item>)
    requires listing != [] && ListsOnce(listing, s.objects)
    ensures var n := |listing| - 1;
      Yielded(s, listing) == Yielded(s, listing[..n])[listing[n].name := s.objects[listing[n].name]]
  {
    NextIsUnhandled(s, listing);
  }

  lemma {:induction false} SweepsOneMore(s: State, listing: seq<Item>)
    requires listing != [] && ListsOnce(listing, s.objects)
    ensures var n := |listing| - 1;
      var left := s.objects - Swept(listing[..n], s.now, {});
      && listing[n].name in left && left[listing[n].name] == s.objects[listing[n].name]
      && s.objects - Swept(listing, s.now, {})
           == if Stale(listing[n], s.now) then left - {listing[n].name} else left
  {
    NextIsUnhandled(s, listing);
    SweptGrows(listing, |listing| - 1, s.now, {});
    assert listing[..|listing|] == listing;
  }

  lemma {:induction false} HandlesOneMore(s: State, duration: nat, listing: seq<Item>, onTick: bool)
    requires listing != [] && s.sweep.None? && ListsOnce(listing, s.objects)
    ensures var n := |listing| - 1;
      var mid := Handled(s, listing[..n], onTick);
      && Enabled(mid, duration, Fetch(listing[n].name))
      && Enabled(Apply(mid, Fetch(listing[n].name)), duration, Visit(listing[n].name))
      && Apply(Apply(mid, Fetch(listing[n].name)), Visit(listing[n].name)) == Handled(s, listing, onTick)
  {
    var n := |listing| - 1;
    NextIsUnhandled(s, listing);
    YieldsOneMore(s, listing);
    SweepsOneMore(s, listing);
    assert Item(listing[n].name, listing[n].lastModified) == listing[n];
  }

  lemma {:induction false} LoopIsARun(s: State, duration: nat, listing: seq<Item>, onTick: bool)
    requires s.sweep.None? && ListsOnce(listing, s.objects)
    ensures Possible(Handled(s, [], onTick), duration, LoopEvents(listing))
    ensures Exec(Handled(s, [], onTick), duration, LoopEvents(listing)) == Handled(s, listing, onTick)
  {
    if listing != [] {
      var n := |listing| - 1;
      LoopIsARun(s, duration, listing[..n], onTick);
      HandlesOneMore(s, duration, listing, onTick);
      var before := LoopEvents(listing[..n]);
      var fetch := Fetch(listing[n].name);
      EndsWith(Handled(s, [], onTick), duration, before, fetch);
      EndsWith(Handled(s, [], onTick), duration, before + [fetch], Visit(listing[n].name));
      assert LoopEvents(listing) == before + [fetch] + [Visit(listing[n].name)];
    }
  }

  /** A sweep of a complete listing with nothing in between is a run that removes exactly what the loop removes. */
  lemma {:induction false} SweepIsARun(s: State, duration: nat, listing: seq<Item>, onTick: bool)
    requires s.sweep.None? && ListsOnce(listing, s.objects) && s.objects.Keys <= Names(listing)
    ensures Possible(s, duration, SweepEvents(listing, onTick))
    ensures Exec(s, duration, SweepEvents(listing, onTick))
         == s.(objects := s.objects - Swept(listing, s.now, {}), cleared := s.now, onTick := onTick)
  {
    var begun := Apply(s, Start(onTick));
    var loop := LoopEvents(listing);
    assert Swept([], s.now, {}) == {} && Names([]) == {} && Handled(s, [], onTick).objects == s.objects;
    assert Handled(s, [], onTick).sweep.value.fetched == map[];
    assert begun == Handled(s, [], onTick);
    LoopIsARun(s, duration, listing, onTick);
    EndsWith(begun, duration, loop, Finish);
    var es := SweepEvents(listing, onTick);
    assert es[0] == Start(onTick) && es[1..] == loop + [Finish];
  }

  lemma {:induction false} EndsWith(s: State, duration: nat, es: seq<Event>, e: Event)
    requires Possible(s, duration, es) && Enabled(Exec(s, duration, es), duration, e)
    ensures Possible(s, duration, es + [e]) && Exec(s, duration, es + [e]) == Apply(Exec(s, duration, es), e)
    decreases |es|
  {
    if es == [] {
      assert es + [e] == [e] && [e][1..] == [];
      assert Possible(Apply(s, e), duration, [e][1..]);
    } else {
      EndsWith(Apply(s, es[0]), duration, es[1..], e);
      assert (es + [e])[1..] == es[1..] + [e];
    }
  }
}
