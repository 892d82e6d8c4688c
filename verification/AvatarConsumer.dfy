/** The avatar consumer of media-service over an object store: what one delivery of a photo message does. */
module AvatarConsumer {
  import opened Wrappers
  import UploadToken

  type Buffer = seq<bv8>
  type Storage = map<string, Buffer>

  /** A photo message; `T` is whatever transformations it carries. */
  datatype Job<T> = Job(userId: string, tempKey: string, targetKey: string, transformations: T)

  datatype Reaction = Ack | Nack

  /** How processing and upload end: done, failed, or thrown although the store has the image. */
  datatype PutResult = Stored | Failed | Lost

  /** One delivery: how its upload ends, and whether deleting the temporary object works. */
  datatype Delivery<T> = Delivery(job: Job<T>, put: PutResult, deleted: bool)

  function Target<T>(j: Job<T>): string {
    if j.targetKey != "" then j.targetKey else "avatars/" + j.userId + "/avatar.webp"
  }

  predicate GoodSize(b: Buffer) {
    UploadToken.GoodSize(Some(|b|))
  }

  function Without(s: Storage, key: string, deleted: bool): Storage {
    if deleted then s - {key} else s
  }

  function Process<T>(s: Storage, d: Delivery<T>, image: (Buffer, T) -> Buffer): (Storage, Reaction) {
    var j := d.job;
    if j.tempKey == "" then (s, Ack)
    else if j.tempKey !in s then (s, Nack)
    else if !GoodSize(s[j.tempKey]) then (Without(s, j.tempKey, d.deleted), Ack)
    else if d.put.Failed? then (s, Nack)
    else
      var made := s[Target(j) := image(s[j.tempKey], j.transformations)];
      if d.put.Lost? then (made, Nack) else (Without(made, j.tempKey, d.deleted), Ack)
  }

  /**
   A delivery is rejected exactly when its upload is missing or its avatar was not confirmed stored; so once it is
   acknowledged, a good upload has become the avatar, and is gone if the deletion worked.
   */
  lemma {:induction false} AckMeansDone<T>(s: Storage, d: Delivery<T>, image: (Buffer, T) -> Buffer)
    ensures var (s', reaction) := Process(s, d, image);
      var j := d.job;
      var target := if j.targetKey == "" then "avatars/" + j.userId + "/avatar.webp" else j.targetKey;
      var good := j.tempKey in s && 1024 <= |s[j.tempKey]| <= 5242880;
      && (reaction.Nack? <==> j.tempKey != "" && (j.tempKey !in s || (good && !d.put.Stored?)))
      && (reaction.Ack? && j.tempKey != "" && good && j.tempKey != target ==>
           && target in s' && s'[target] == image(s[j.tempKey], j.transformations)
           && (j.tempKey in s' <==> !d.deleted))
  {
  }

  /** Jobs that do not touch each other's objects. */
  predicate Apart<T>(a: Job<T>, b: Job<T>) {
    a.tempKey != b.tempKey && Target(a) != Target(b) && a.tempKey != Target(b) && b.tempKey != Target(a)
  }

  /** The upload `raw` of job `j` is still waiting, or its avatar is done and nothing else can be made of it. */
  predicate OnTrack<T>(s: Storage, j: Job<T>, raw: Buffer, image: (Buffer, T) -> Buffer) {
    && (j.tempKey in s ==> s[j.tempKey] == raw)
    && (j.tempKey in s || Done(s, j, raw, image))
  }

  predicate Done<T>(s: Storage, j: Job<T>, raw: Buffer, image: (Buffer, T) -> Buffer) {
    Target(j) in s && s[Target(j)] == image(raw, j.transformations)
  }

  /** Paths of the two folders never coincide. */
  lemma {:induction false} FoldersAreApart(temp: string, target: string)
    requires "temp_uploads/" <= temp && "avatars/" <= target
    ensures temp != target
  {
    assert temp[0] == "temp_uploads/"[0] && target[0] == "avatars/"[0];
  }

  /** MinIO and the consumer of one queue. */
  class Consumer<T> {
    var objects: Storage
    const image: (Buffer, T) -> Buffer

    constructor (image: (Buffer, T) -> Buffer)
      ensures this.image == image && objects == map[]
    {
      this.image, objects := image, map[];
    }

    method DeleteObject(key: string, works: bool)
      modifies this
      ensures objects == Without(old(objects), key, works)
    {
      if works {
        objects := objects - {key};
      }
    }

    /** handlePhotoProcess; `thrown` when the upload is missing or a step before the deletion fails. */
    method HandlePhotoProcess(d: Delivery<T>) returns (thrown: bool)
      modifies this
      ensures objects == Process(old(objects), d, image).0
      ensures thrown <==> Process(old(objects), d, image).1.Nack?
    {
      var job := d.job;
      if job.tempKey == "" {
        return false;
      }
      var finalTargetKey := if job.targetKey != "" then job.targetKey else "avatars/" + job.userId + "/avatar.webp";
      if job.tempKey !in objects {
        return true;
      }
      var raw := objects[job.tempKey];
      if |raw| < 1024 || |raw| > 5 * 1024 * 1024 {
        DeleteObject(job.tempKey, d.deleted);
        return false;
      }
      if d.put.Failed? {
        return true;
      }
      var processed := image(raw, job.transformations);
      objects := objects[finalTargetKey := processed];
      if d.put.Lost? {
        return true;
      }
      DeleteObject(job.tempKey, d.deleted);
      thrown := false;
    }

    /** The queue callback: acknowledge, or reject without requeueing. */
    method Consume(d: Delivery<T>) returns (reaction: Reaction)
      modifies this
      ensures (objects, reaction) == Process(old(objects), d, image)
    {
      var thrown := HandlePhotoProcess(d);
      reaction := if thrown then Nack else Ack;
    }
  }
}
