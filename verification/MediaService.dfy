/**
 Issue of presigned upload URLs: validation, the file key, and the PENDING token.  The key is proved fresh
 for a fresh UUID whatever the client sends, which is what the token protocol relies on.
 */
module MediaService {
  import opened Letters
  import opened RedisStore
  import opened UploadToken

  const ALLOWED: set<string> := {"image/jpeg", "image/jpg", "image/png", "image/webp"}
  const UUID_LENGTH: nat := 36

  datatype UploadRequest = UploadRequest(filename: string, contentType: string, fileSize: nat, category: string)

  datatype UploadReply = BadType | BadSize | SigningFailed | Url(fileKey: string)

  predicate Plain(c: char) {
    'a' <= c <= 'z' || 'A' <= c <= 'Z' || '0' <= c <= '9' || c == '.' || c == '-'
  }

  /** Every character outside [a-zA-Z0-9.-] becomes an underscore, and the rest lower case. */
  function Sanitize(name: string): string {
    LowerCase(seq(|name|, i requires 0 <= i < |name| => if Plain(name[i]) then name[i] else '_'))
  }

  function Category(r: UploadRequest): string {
    if r.category == "" then "AVATAR" else UpperCase(r.category)
  }

  function Folder(category: string): string {
    if category == "AVATAR" then "temp_uploads/avatars"
    else if category == "COVER" then "temp_uploads/covers"
    else if category == "DOCUMENT" then "temp_uploads/documents"
    else "temp_uploads/general"
  }

  function FileKey(r: UploadRequest, uuid: string): string {
    Folder(Category(r)) + "/" + uuid + "_" + Sanitize(if r.filename == "" then "upload.jpg" else r.filename)
  }

  /** `s` is the capital `name` in any mixture of cases. */
  predicate SpellsAs(s: string, name: string) {
    |s| == |name| && forall i :: 0 <= i < |s| ==>
      s[i] == name[i] || ('a' <= s[i] <= 'z' && s[i] as int == name[i] as int + 32)
  }

  predicate Capital(name: string) {
    forall i :: 0 <= i < |name| ==> 'A' <= name[i] <= 'Z'
  }

  lemma {:induction false} SpellingIgnoresCase(s: string, name: string)
    requires Capital(name)
    ensures UpperCase(s) == name <==> SpellsAs(s, name)
  {
    if UpperCase(s) == name {
      forall i | 0 <= i < |s| ensures s[i] == name[i] || ('a' <= s[i] <= 'z' && s[i] as int == name[i] as int + 32) {
        assert UpperCase(s)[i] == name[i];
      }
    }
    if SpellsAs(s, name) {
      assert UpperCase(s) == name;
    }
  }

  /** Where uploads of a category wait. */
  function Place(category: string): string {
    if category == "" || SpellsAs(category, "AVATAR") then "temp_uploads/avatars/"
    else if SpellsAs(category, "COVER") then "temp_uploads/covers/"
    else if SpellsAs(category, "DOCUMENT") then "temp_uploads/documents/"
    else "temp_uploads/general/"
  }

  /** Letters, digits, dots and dashes of the file name, the letters in lower case, and underscores for the rest. */
  predicate SafeName(safe: string, name: string) {
    |safe| == |name| && forall i :: 0 <= i < |name| ==>
      if 'A' <= name[i] <= 'Z' then safe[i] as int == name[i] as int + 32
      else if 'a' <= name[i] <= 'z' || '0' <= name[i] <= '9' || name[i] == '.' || name[i] == '-' then safe[i] == name[i]
      else safe[i] == '_'
  }

  /** A key is its category's place, the UUID, and a name from a small alphabet that cannot leave the place. */
  lemma {:induction false} KeyIsSafe(r: UploadRequest, uuid: string)
    ensures FileKey(r, uuid) == Place(r.category) + uuid + "_" + NamePart(r)
    ensures SafeName(NamePart(r), if r.filename == "" then "upload.jpg" else r.filename)
    ensures '/' !in NamePart(r)
  {
    FolderIsPlace(r);
    assert FileKey(r, uuid) == Folder(Category(r)) + "/" + uuid + "_" + NamePart(r);
    forall i | 0 <= i < |NamePart(r)| ensures NamePart(r)[i] != '/' {}
  }

  function NamePart(r: UploadRequest): string {
    Sanitize(if r.filename == "" then "upload.jpg" else r.filename)
  }

  lemma {:induction false} FolderIsPlace(r: UploadRequest)
    ensures Folder(Category(r)) + "/" == Place(r.category)
  {
    SpellingIgnoresCase(r.category, "AVATAR");
    SpellingIgnoresCase(r.category, "COVER");
    SpellingIgnoresCase(r.category, "DOCUMENT");
  }

  lemma {:induction false} KeyStart(r: UploadRequest, uuid: string)
    ensures "temp_uploads/" <= FileKey(r, uuid)
    ensures |FileKey(r, uuid)| > 13
    ensures FileKey(r, uuid)[13] == Folder(Category(r))[13]
  {
  }

  /** Different UUIDs give different keys, whatever folder and file name the requests ask for. */
  lemma {:induction false} FreshUuidFreshKey(a: UploadRequest, u: string, b: UploadRequest, v: string)
    requires |u| == |v| == UUID_LENGTH && u != v
    ensures FileKey(a, u) != FileKey(b, v)
  {
    KeyStart(a, u);
    KeyStart(b, v);
    var f := Folder(Category(a));
    var g := Folder(Category(b));
    if f == g {
      var i :| 0 <= i < UUID_LENGTH && u[i] != v[i];
      assert FileKey(a, u)[|f| + 1 + i] == u[i];
      assert FileKey(b, v)[|f| + 1 + i] == v[i];
    } else {
      assert f[13] != g[13];
    }
  }

  class Service {
    const redis: Redis

    constructor (redis: Redis)
      ensures this.redis == redis
    {
      this.redis := redis;
    }

    /** `signed` is whether MinIO signs the URL; `t` is when the token is stored. */
    method GetPresignedUploadUrl(r: UploadRequest, uuid: string, signed: bool, t: nat) returns (reply: UploadReply)
      modifies redis
      ensures reply.Url? <==>
        && (r.contentType == ""
            || LowerCase(r.contentType) in {"image/jpeg", "image/jpg", "image/png", "image/webp"})
        && (r.category == "" || SpellsAs(r.category, "AVATAR") ==> r.fileSize == 0 || 1024 <= r.fileSize <= 5242880)
        && signed
      ensures reply.BadType? <==>
        r.contentType != "" && LowerCase(r.contentType) !in {"image/jpeg", "image/jpg", "image/png", "image/webp"}
      ensures reply.BadSize? <==>
        && !reply.BadType?
        && (r.category == "" || SpellsAs(r.category, "AVATAR")) && r.fileSize > 0 && !(1024 <= r.fileSize <= 5242880)
      ensures reply.Url? ==>
        && reply.fileKey == FileKey(r, uuid)
        && redis.store == SetWithTtl(old(redis.store), Upload(reply.fileKey), "PENDING", 120, t)
      ensures !reply.Url? ==> redis.store == old(redis.store)
    {
      SpellingIgnoresCase(r.category, "AVATAR");
      var contentType := LowerCase(r.contentType);
      if contentType != "" && contentType !in ALLOWED {
        return BadType;
      }
      if Category(r) == "AVATAR" && r.fileSize > 0 && (r.fileSize < MIN_SIZE || r.fileSize > MAX_SIZE) {
        return BadSize;
      }
      if !signed {
        return SigningFailed;
      }
      var fileKey := FileKey(r, uuid);
      redis.SetText(Upload(fileKey), "PENDING", 120, t);
      reply := Url(fileKey);
    }
  }
}
