/**
 Any number of deliveries of photo messages under way at once: fetching the upload, putting the avatar and
 deleting the upload are separate steps, and a consumer may die between any two of them.  At-least-once
 delivery is harmless: each avatar ends up made from its own upload.
 */
module AvatarDeliveries {
  import opened AvatarConsumer

  /** How far a delivery has come; a file of the wrong size is only cleaned up. */
  datatype Phase = Fetched(raw: Buffer) | Cleaning

  datatype Flight<T> = Flight(job: Job<T>, phase: Phase)

  datatype State<T> = State(objects: Storage, flight: map<nat, Flight<T>>)

  datatype Event<T> =
    | Get(id: nat, job: Job<T>)
    | Put(id: nat, result: PutResult)
    | Delete(id: nat, works: bool)
    | Die(id: nat)

  predicate Enabled<T>(s: State<T>, e: Event<T>) {
    match e
    case Get(id, _) => id !in s.flight
    case Put(id, _) => id in s.flight && s.flight[id].phase.Fetched?
    case Delete(id, _) => id in s.flight && s.flight[id].phase.Cleaning?
    case Die(id) => id in s.flight
  }

  function Land<T>(s: State<T>, id: nat): State<T> {
    s.(flight := s.flight - {id})
  }

  /** The store with the avatar that delivery `id` made of what it fetched. */
  function Made<T>(s: State<T>, id: nat, image: (Buffer, T) -> Buffer): Storage
    requires id in s.flight && s.flight[id].phase.Fetched?
  {
    var f := s.flight[id];
    s.objects[Target(f.job) := image(f.phase.raw, f.job.transformations)]
  }

  function Apply<T>(s: State<T>, image: (Buffer, T) -> Buffer, e: Event<T>): State<T>
    requires Enabled(s, e)
  {
    match e
    case Get(id, job) =>
      if job.tempKey == "" || job.tempKey !in s.objects then s
      else
        var raw := s.objects[job.tempKey];
        s.(flight := s.flight[id := Flight(job, if GoodSize(raw) then Fetched(raw) else Cleaning)])
    case Put(id, Failed) => Land(s, id)
    case Put(id, Lost) => Land(s.(objects := Made(s, id, image)), id)
    case Put(id, Stored) => State(Made(s, id, image), s.flight[id := Flight(s.flight[id].job, Cleaning)])
    case Delete(id, works) => Land(s.(objects := Without(s.objects, s.flight[id].job.tempKey, works)), id)
    case Die(id) => Land(s, id)
  }

  predicate Possible<T>(s: State<T>, image: (Buffer, T) -> Buffer, es: seq<Event<T>>)
    decreases |es|
  {
    es == [] || (Enabled(s, es[0]) && Possible(Apply(s, image, es[0]), image, es[1..]))
  }

  function Exec<T>(s: State<T>, image: (Buffer, T) -> Buffer, es: seq<Event<T>>): State<T>
    requires Possible(s, image, es)
    decreases |es|
  {
    if es == [] then s else Exec(Apply(s, image, es[0]), image, es[1..])
  }

  // ---------------------------------------------------------------------------------------------
  // At least once is enough
  // ---------------------------------------------------------------------------------------------

  /** The event puts an avatar of job `j` into the store. */
  ghost predicate Stores<T>(s: State<T>, e: Event<T>, j: Job<T>)
    requires Enabled(s, e)
  {
    e.Put? && s.flight[e.id].job == j && !e.result.Failed?
  }

  ghost predicate StoredIn<T>(s: State<T>, image: (Buffer, T) -> Buffer, es: seq<Event<T>>, j: Job<T>)
    requires Possible(s, image, es)
    decreases |es|
  {
    es != [] && (Stores(s, es[0], j) || StoredIn(Apply(s, image, es[0]), image, es[1..], j))
  }

  /** The messages delivered are `j` and others that share none of its objects. */
  ghost predicate OnlyApart<T>(es: seq<Event<T>>, j: Job<T>) {
    forall k :: 0 <= k < |es| && es[k].Get? ==> es[k].job == j || Apart(es[k].job, j)
  }

  /** Every delivery of `j` under way has the upload `raw`, or has already stored its avatar. */
  ghost predicate FlightOk<T>(s: State<T>, id: nat, j: Job<T>, raw: Buffer, image: (Buffer, T) -> Buffer)
    requires id in s.flight
  {
    var f := s.flight[id];
    && (f.job == j || Apart(f.job, j))
    && (f.job == j ==> if f.phase.Fetched? then f.phase.raw == raw else Done(s.objects, j, raw, image))
  }

  ghost predicate Inv<T>(s: State<T>, j: Job<T>, raw: Buffer, image: (Buffer, T) -> Buffer) {
    && OnTrack(s.objects, j, raw, image)
    && forall id :: id in s.flight ==> FlightOk(s, id, j, raw, image)
  }

  lemma {:induction false} StepStaysOnTrack<T>(
      s: State<T>, e: Event<T>, j: Job<T>, raw: Buffer, image: (Buffer, T) -> Buffer)
    requires Inv(s, j, raw, image) && Enabled(s, e) && (e.Get? ==> e.job == j || Apart(e.job, j))
    requires GoodSize(raw) && j.tempKey != "" && j.tempKey != Target(j)
    ensures Inv(Apply(s, image, e), j, raw, image)
    ensures Done(Apply(s, image, e).objects, j, raw, image) <==> Done(s.objects, j, raw, image) || Stores(s, e, j)
  {
    var s' := Apply(s, image, e);
    if !e.Get? { assert FlightOk(s, e.id, j, raw, image); }
    forall id | id in s'.flight ensures FlightOk(s', id, j, raw, image) {
      if id in s.flight { assert FlightOk(s, id, j, raw, image); }
    }
  }

  lemma {:induction false} RunStaysOnTrack<T>(
      s: State<T>, es: seq<Event<T>>, j: Job<T>, raw: Buffer, image: (Buffer, T) -> Buffer)
    requires Inv(s, j, raw, image) && Possible(s, image, es) && OnlyApart(es, j)
    requires GoodSize(raw) && j.tempKey != "" && j.tempKey != Target(j)
    ensures Done(Exec(s, image, es).objects, j, raw, image) <==>
      Done(s.objects, j, raw, image) || StoredIn(s, image, es, j)
    decreases |es|
  {
    if es != [] {
      StepStaysOnTrack(s, es[0], j, raw, image);
      assert OnlyApart(es[1..], j) by { assert forall k :: 0 < k < |es| ==> es[k] == es[1..][k - 1]; }
      RunStaysOnTrack(Apply(s, image, es[0]), es[1..], j, raw, image);
    }
  }

  /**
   At-least-once delivery is safe: whatever deliveries and redeliveries of message `j` and of messages that share
   none of its objects overlap, fail, die, or throw after the store took the image, the target ends up as after
   a single delivery if and only if one put of `j` reached the store.
   */
  lemma {:induction false} AvatarIsDelivered<T>(
      objects: Storage, es: seq<Event<T>>, j: Job<T>, raw: Buffer, image: (Buffer, T) -> Buffer)
    requires OnTrack(objects, j, raw, image) && GoodSize(raw) && j.tempKey != "" && j.tempKey != Target(j)
    requires Possible(State(objects, map[]), image, es) && OnlyApart(es, j)
    ensures Done(Exec(State(objects, map[]), image, es).objects, j, raw, image) <==>
      Done(objects, j, raw, image) || StoredIn(State(objects, map[]), image, es, j)
  {
    RunStaysOnTrack(State(objects, map[]), es, j, raw, image);
  }

  // ---------------------------------------------------------------------------------------------
  // Bad uploads, and objects of no job
  // ---------------------------------------------------------------------------------------------

  /** The event deletes the upload of job `j`. */
  ghost predicate Cleans<T>(s: State<T>, e: Event<T>, j: Job<T>)
    requires Enabled(s, e)
  {
    e.Delete? && s.flight[e.id].job == j && e.works
  }

  ghost predicate CleanedIn<T>(s: State<T>, image: (Buffer, T) -> Buffer, es: seq<Event<T>>, j: Job<T>)
    requires Possible(s, image, es)
    decreases |es|
  {
    es != [] && (Cleans(s, es[0], j) || CleanedIn(Apply(s, image, es[0]), image, es[1..], j))
  }

  /** The upload of `j`, if there, has the wrong size, and no delivery takes it for an image. */
  ghost predicate Bad<T>(s: State<T>, j: Job<T>) {
    && (j.tempKey in s.objects ==> !GoodSize(s.objects[j.tempKey]))
    && forall id :: id in s.flight ==>
         (s.flight[id].job == j && s.flight[id].phase.Cleaning?) || Apart(s.flight[id].job, j)
  }

  predicate SameAt(a: Storage, b: Storage, key: string) {
    (key in a <==> key in b) && (key in a ==> a[key] == b[key])
  }

  lemma {:induction false} StepStaysBad<T>(s: State<T>, e: Event<T>, j: Job<T>, image: (Buffer, T) -> Buffer)
    requires Bad(s, j) && Enabled(s, e) && (e.Get? ==> e.job == j || Apart(e.job, j)) && j.tempKey != Target(j)
    ensures Bad(Apply(s, image, e), j)
    ensures SameAt(Apply(s, image, e).objects, s.objects, Target(j))
    ensures j.tempKey in Apply(s, image, e).objects <==> j.tempKey in s.objects && !Cleans(s, e, j)
  {
  }

  /**
   A file of the wrong size never becomes an avatar: whatever is delivered, its target stays as it was, and the
   upload is gone exactly when some delivery's deletion worked.
   */
  lemma {:induction false} BadUploadIsNeverUsed<T>(
      s: State<T>, es: seq<Event<T>>, j: Job<T>, image: (Buffer, T) -> Buffer)
    requires Bad(s, j) && Possible(s, image, es) && OnlyApart(es, j)
    requires j.tempKey != Target(j)
    ensures SameAt(Exec(s, image, es).objects, s.objects, Target(j))
    ensures j.tempKey in Exec(s, image, es).objects <==> j.tempKey in s.objects && !CleanedIn(s, image, es, j)
    decreases |es|
  {
    if es != [] {
      StepStaysBad(s, es[0], j, image);
      assert OnlyApart(es[1..], j) by { assert forall k :: 0 < k < |es| ==> es[k] == es[1..][k - 1]; }
      BadUploadIsNeverUsed(Apply(s, image, es[0]), es[1..], j, image);
    }
  }

  /** Deliveries leave every object alone that is neither a job's upload nor its target. */
  lemma {:induction false} OthersUntouched<T>(
      s: State<T>, es: seq<Event<T>>, key: string, image: (Buffer, T) -> Buffer)
    requires Possible(s, image, es)
    requires forall id :: id in s.flight ==> s.flight[id].job.tempKey != key && Target(s.flight[id].job) != key
    requires forall k :: 0 <= k < |es| && es[k].Get? ==> es[k].job.tempKey != key && Target(es[k].job) != key
    ensures SameAt(Exec(s, image, es).objects, s.objects, key)
    decreases |es|
  {
    if es != [] {
      OthersUntouched(Apply(s, image, es[0]), es[1..], key, image);
    }
  }

  // ---------------------------------------------------------------------------------------------
  // The consumer's handler is a run of the machine
  // ---------------------------------------------------------------------------------------------

  /** What one delivery does when nothing comes between its steps. */
  function DeliveryEvents<T>(s: Storage, d: Delivery<T>): seq<Event<T>> {
    var j := d.job;
    [Get(0, j)]
    + (if j.tempKey == "" || j.tempKey !in s then []
       else if !GoodSize(s[j.tempKey]) then [Delete(0, d.deleted)]
       else [Put(0, d.put)] + (if d.put.Stored? then [Delete(0, d.deleted)] else []))
  }

  lemma {:induction false} OneEvent<T>(s: State<T>, image: (Buffer, T) -> Buffer, e: Event<T>, rest: seq<Event<T>>)
    requires Enabled(s, e) && Possible(Apply(s, image, e), image, rest)
    ensures Possible(s, image, [e] + rest)
    ensures Exec(s, image, [e] + rest) == Exec(Apply(s, image, e), image, rest)
  {
    assert ([e] + rest)[1..] == rest;
  }

  /** The consumer's handling of one delivery is that run. */
  lemma {:induction false} DeliveryIsARun<T>(s: Storage, d: Delivery<T>, image: (Buffer, T) -> Buffer)
    ensures Possible(State(s, map[]), image, DeliveryEvents(s, d))
    ensures Exec(State(s, map[]), image, DeliveryEvents(s, d)) == State(Process(s, d, image).0, map[])
  {
    var start := State(s, map[]);
    var get: Event<T> := Get(0, d.job);
    var put: Event<T> := Put(0, d.put);
    var delete: Event<T> := Delete(0, d.deleted);
    var s1 := Apply(start, image, get);
    if d.job.tempKey == "" || d.job.tempKey !in s {
      OneEvent(start, image, get, []);
    } else if !GoodSize(s[d.job.tempKey]) {
      OneEvent(s1, image, delete, []);
      assert [delete] + [] == [delete];
      OneEvent(start, image, get, [delete]);
    } else {
      var end := if d.put.Stored? then [delete] else [];
      if d.put.Stored? {
        OneEvent(Apply(s1, image, put), image, delete, []);
        assert end + [] == end;
      }
      OneEvent(s1, image, put, end);
      OneEvent(start, image, get, [put] + end);
    }
  }
}
