/**
 The session cache: one Lua script keeps a hash per session, a sorted set per user and two expiries.
 Over whole login histories it is proved to hold the five greatest members since the set last expired,
 and, when scores grow with each login, exactly the last five logins younger than the TTL.
 */
module Sessions {
  import opened Wrappers
  import R = RedisStore
  import opened Sets
  import opened TopK

  type UserId = string
  type SessionId = nat

  /** The stored hash of one session. */
  datatype Fields = Fields(
    userId: UserId, hashedRefreshToken: string, ipAddress: string, userAgent: string, createdAt: string)

  datatype Cache = Cache(hashes: map<SessionId, R.Entry<Fields>>, zsets: map<UserId, R.Entry<set<Member>>>)

  /** One call of the script at Redis time `at`; `score` is the application's clock. */
  datatype Login = Login(at: nat, user: UserId, id: SessionId, score: int, fields: Fields)

  datatype Limits = Limits(maxDevices: nat, ttlSeconds: nat)

  const EMPTY: Cache := Cache(map[], map[])

  /** What all callers pass: five devices, seven days. */
  const DEFAULTS: Limits := Limits(5, 7 * 24 * 60 * 60)

  function Ttl(l: Limits): nat {
    R.Seconds(l.ttlSeconds)
  }

  function MemberOf(e: Login): Member {
    Member(e.score, e.id)
  }

  predicate LiveHash(c: Cache, id: SessionId, t: nat) {
    R.Has(c.hashes, id, t)
  }

  function LiveSet(c: Cache, u: UserId, t: nat): set<Member> {
    if R.Has(c.zsets, u, t) then c.zsets[u].value else {}
  }

  /** ZADD: an id already in the set only changes its score. */
  function Added(z: set<Member>, m: Member): set<Member> {
    (set x | x in z && x.id != m.id) + {m}
  }

  function IdsOf(z: set<Member>): set<SessionId> {
    set m | m in z :: m.id
  }

  function MembersIn(s: seq<Member>): set<Member> {
    set m | m in s
  }

  /** What one call of the script leaves: the top `maxDevices` members, and no hash for the others. */
  function Save(c: Cache, l: Limits, e: Login): Cache {
    var z := Added(LiveSet(c, e.user, e.at), MemberOf(e));
    var kept := Top(z, l.maxDevices);
    Cache(
      c.hashes[e.id := R.Entry(e.fields, Some(e.at + Ttl(l)))] - IdsOf(z - kept),
      c.zsets[e.user := R.Entry(kept, Some(e.at + Ttl(l)))])
  }

  function Replay(l: Limits, h: seq<Login>): Cache {
    if h == [] then EMPTY else Save(Replay(l, h[..|h| - 1]), l, h[|h| - 1])
  }

  // ---------------------------------------------------------------------------------------------
  // The history, told without the cache
  // ---------------------------------------------------------------------------------------------

  /** Redis time does not run backwards and session ids are fresh. */
  predicate History(h: seq<Login>) {
    forall i, j :: 0 <= i < j < |h| ==> h[i].at <= h[j].at && h[i].id != h[j].id
  }

  predicate Until(h: seq<Login>, t: nat) {
    forall i :: 0 <= i < |h| ==> h[i].at <= t
  }

  function LastLogin(h: seq<Login>, u: UserId): Option<nat> {
    if h == [] then None
    else if h[|h| - 1].user == u then Some(h[|h| - 1].at)
    else LastLogin(h[..|h| - 1], u)
  }

  /** The members inserted for `u` up to its last login, since the set key last expired. */
  function Epoch(l: Limits, h: seq<Login>, u: UserId): set<Member>
    decreases |h|, 0
  {
    if h == [] then {}
    else
      var e := h[|h| - 1];
      if e.user == u then Inserted(l, h[..|h| - 1], u, e.at) + {MemberOf(e)}
      else Epoch(l, h[..|h| - 1], u)
  }

  /** The same seen at time `t`: nothing once the key has expired. */
  function Inserted(l: Limits, h: seq<Login>, u: UserId, t: nat): set<Member>
    decreases |h|, 1
  {
    var last := LastLogin(h, u);
    if last.Some? && t < last.value + Ttl(l) then Epoch(l, h, u) else {}
  }

  lemma {:induction false} EpochComesFromHistory(l: Limits, h: seq<Login>, u: UserId, m: Member)
    requires m in Epoch(l, h, u)
    ensures exists i :: 0 <= i < |h| && h[i].user == u && MemberOf(h[i]) == m
    decreases |h|
  {
    var n := |h| - 1;
    if h[n].user == u && MemberOf(h[n]) == m {
    } else {
      EpochComesFromHistory(l, h[..n], u, m);
      var i :| 0 <= i < n && h[..n][i].user == u && MemberOf(h[..n][i]) == m;
      assert h[i].user == u && MemberOf(h[i]) == m;
    }
  }

  lemma {:induction false} LastLoginIsLast(h: seq<Login>, u: UserId, i: nat)
    requires History(h) && i < |h| && h[i].user == u
    ensures LastLogin(h, u).Some? && h[i].at <= LastLogin(h, u).value
    decreases |h|
  {
    var n := |h| - 1;
    if h[n].user != u {
      LastLoginIsLast(h[..n], u, i);
    }
  }

  /** A login younger than the TTL has not been lost to an expiry of the set key. */
  lemma {:induction false} YoungLoginIsInserted(l: Limits, h: seq<Login>, i: nat, t: nat)
    requires History(h) && Until(h, t) && i < |h| && t < h[i].at + Ttl(l)
    ensures MemberOf(h[i]) in Inserted(l, h, h[i].user, t)
    decreases |h|
  {
    var u := h[i].user;
    var n := |h| - 1;
    LastLoginIsLast(h, u, i);
    if i < n {
      if h[n].user == u {
        YoungLoginIsInserted(l, h[..n], i, h[n].at);
      } else {
        YoungLoginIsInserted(l, h[..n], i, t);
      }
    }
  }

  // ---------------------------------------------------------------------------------------------
  // The cache always agrees with the history
  // ---------------------------------------------------------------------------------------------

  ghost predicate SetAgrees(l: Limits, h: seq<Login>, u: UserId) {
    var c := Replay(l, h);
    var last := LastLogin(h, u);
    && (u in c.zsets <==> last.Some?)
    && (u in c.zsets ==>
         c.zsets[u].expiresAt == Some(last.value + Ttl(l)) && c.zsets[u].value == Top(Epoch(l, h, u), l.maxDevices))
  }

  /** The id of a new login is not among the members inserted before it. */
  lemma {:induction false} NewIdIsFresh(l: Limits, h: seq<Login>, e: Login, t: nat)
    requires History(h + [e])
    ensures forall x :: x in Inserted(l, h, e.user, t) ==> x.id != e.id
  {
    forall x | x in Inserted(l, h, e.user, t) ensures x.id != e.id {
      EpochComesFromHistory(l, h, e.user, x);
      var i :| 0 <= i < |h| && h[i].user == e.user && MemberOf(h[i]) == x;
      assert (h + [e])[i].id != (h + [e])[|h|].id;
    }
  }

  lemma {:induction false} SetAgreesNow(l: Limits, h: seq<Login>, e: Login)
    requires History(h + [e]) && SetAgrees(l, h, e.user)
    ensures SetAgrees(l, h + [e], e.user)
  {
    assert (h + [e])[..|h|] == h;
    var before := Inserted(l, h, e.user, e.at);
    var live := LiveSet(Replay(l, h), e.user, e.at);
    assert live == Top(before, l.maxDevices);
    NewIdIsFresh(l, h, e, e.at);
    assert Added(live, MemberOf(e)) == live + {MemberOf(e)};
    TopAfterInsert(before, l.maxDevices, MemberOf(e));
    assert Epoch(l, h + [e], e.user) == before + {MemberOf(e)};
  }

  lemma {:induction false} SetStillAgrees(l: Limits, h: seq<Login>, e: Login, u: UserId)
    requires SetAgrees(l, h, u) && e.user != u
    ensures SetAgrees(l, h + [e], u)
  {
    assert (h + [e])[..|h|] == h;
  }

  lemma {:induction false} SetsAgree(l: Limits, h: seq<Login>, u: UserId)
    requires History(h)
    ensures SetAgrees(l, h, u)
    decreases |h|
  {
    if h != [] {
      var n := |h| - 1;
      assert h == h[..n] + [h[n]];
      SetsAgree(l, h[..n], u);
      if h[n].user == u {
        SetAgreesNow(l, h[..n], h[n]);
      } else {
        SetStillAgrees(l, h[..n], h[n], u);
      }
    }
  }

  /**
   Under any clocks: at any time after the history the user's sorted set is exactly the `maxDevices`
   greatest, by score and then id, of everything inserted since the set key last expired.
   */
  lemma {:induction false} SetIsTopOfInserted(l: Limits, h: seq<Login>, u: UserId, t: nat)
    requires History(h) && Until(h, t)
    ensures LiveSet(Replay(l, h), u, t) == Top(Inserted(l, h, u, t), l.maxDevices)
  {
    SetsAgree(l, h, u);
  }

  /** An id in a user's set belongs to exactly the login that inserted it. */
  lemma {:induction false} IdIdentifiesLogin(l: Limits, h: seq<Login>, u: UserId, x: Member, i: nat)
    requires History(h) && x in Epoch(l, h, u) && i < |h| && h[i].id == x.id
    ensures h[i].user == u && MemberOf(h[i]) == x
  {
    EpochComesFromHistory(l, h, u, x);
    var j :| 0 <= j < |h| && h[j].user == u && MemberOf(h[j]) == x;
  }

  function SetOf(c: Cache, u: UserId): set<Member> {
    if u in c.zsets then c.zsets[u].value else {}
  }

  /** Login `i` has a hash only while its set holds it or it is old enough to have expired; and conversely. */
  ghost predicate HashAgrees(l: Limits, h: seq<Login>, i: nat)
    requires i < |h|
  {
    var c := Replay(l, h);
    var stored := h[i].id in c.hashes;
    var held := MemberOf(h[i]) in SetOf(c, h[i].user);
    && (stored ==> c.hashes[h[i].id] == R.Entry(h[i].fields, Some(h[i].at + Ttl(l))))
    && (stored && h[|h| - 1].at < h[i].at + Ttl(l) ==> held)
    && (held ==> stored)
  }

  /** The members the script weighs for login `e`: the live set of its user and the new member. */
  function Weighed(l: Limits, h: seq<Login>, e: Login): set<Member> {
    Added(LiveSet(Replay(l, h), e.user, e.at), MemberOf(e))
  }

  lemma {:induction false} WeighedIds(l: Limits, h: seq<Login>, e: Login, x: Member, i: nat)
    requires History(h) && History(h + [e]) && x in Weighed(l, h, e) && i < |h| && h[i].id == x.id
    ensures h[i].user == e.user && MemberOf(h[i]) == x
  {
    SetsAgree(l, h, e.user);
    assert (h + [e])[i].id != (h + [e])[|h|].id;
    IdIdentifiesLogin(l, h, e.user, x, i);
  }

  lemma {:induction false} HashAgreesNow(l: Limits, h: seq<Login>, e: Login)
    requires History(h + [e])
    ensures HashAgrees(l, h + [e], |h|)
  {
    assert (h + [e])[..|h|] == h;
    var z := Weighed(l, h, e);
    forall x | x in z && x.id == e.id ensures x == MemberOf(e) {}
  }

  lemma {:induction false} HashStillAgrees(l: Limits, h: seq<Login>, e: Login, i: nat)
    requires History(h) && History(h + [e]) && i < |h| && HashAgrees(l, h, i)
    ensures HashAgrees(l, h + [e], i)
  {
    var h' := h + [e];
    assert h'[..|h|] == h && h'[i] == h[i] && h'[i].id != h'[|h|].id && h'[|h| - 1].at <= h'[|h|].at;
    var u := h[i].user;
    var m := MemberOf(h[i]);
    var z := Weighed(l, h, e);
    var evicted := z - Top(z, l.maxDevices);
    SetsAgree(l, h, u);
    LastLoginIsLast(h, u, i);
    forall x | x in z && x.id == m.id ensures u == e.user && x == m { WeighedIds(l, h, e, x, i); }
    assert m.id in IdsOf(evicted) <==> m in evicted;
  }

  lemma {:induction false} HashesAgree(l: Limits, h: seq<Login>, i: nat)
    requires History(h) && i < |h|
    ensures HashAgrees(l, h, i)
    decreases |h|
  {
    var n := |h| - 1;
    assert h == h[..n] + [h[n]];
    if i < n {
      HashesAgree(l, h[..n], i);
      HashStillAgrees(l, h[..n], h[n], i);
    } else {
      HashAgreesNow(l, h[..n], h[n]);
    }
  }

  lemma {:induction false} HashesComeFromHistory(l: Limits, h: seq<Login>, id: SessionId)
    requires id in Replay(l, h).hashes
    ensures exists i :: 0 <= i < |h| && h[i].id == id
    decreases |h|
  {
    var n := |h| - 1;
    if h[n].id != id {
      HashesComeFromHistory(l, h[..n], id);
      var i :| 0 <= i < n && h[..n][i].id == id;
      assert h[i].id == id;
    }
  }

  /**
   Under any clocks: login `i` has a live hash at time `t` exactly when it is younger than the TTL and its
   user's live set holds it, and the hash holds what that login stored.
   */
  lemma {:induction false} HashIsLiveMember(l: Limits, h: seq<Login>, i: nat, t: nat)
    requires History(h) && Until(h, t) && i < |h|
    ensures var c := Replay(l, h);
      && (LiveHash(c, h[i].id, t) <==>
           t < h[i].at + Ttl(l) && MemberOf(h[i]) in LiveSet(c, h[i].user, t))
      && (LiveHash(c, h[i].id, t) ==> c.hashes[h[i].id].value == h[i].fields)
  {
    HashesAgree(l, h, i);
    SetsAgree(l, h, h[i].user);
    LastLoginIsLast(h, h[i].user, i);
  }

  /** The sessions of user `u` that are live at time `t`. */
  function LiveSessions(l: Limits, h: seq<Login>, u: UserId, t: nat): set<SessionId> {
    set i | 0 <= i < |h| && h[i].user == u && LiveHash(Replay(l, h), h[i].id, t) :: h[i].id
  }

  lemma {:induction false} IdsSize(z: set<Member>)
    ensures |IdsOf(z)| <= |z|
  {
    if z != {} {
      var m :| m in z;
      IdsSize(z - {m});
      assert IdsOf(z) == IdsOf(z - {m}) + {m.id};
    }
  }

  /** No clock skew, tie or expiry ever leaves a user more than `maxDevices` live sessions. */
  lemma {:induction false} NeverMoreThanMaxDevices(l: Limits, h: seq<Login>, u: UserId, t: nat)
    requires History(h) && Until(h, t)
    ensures |LiveSessions(l, h, u, t)| <= l.maxDevices
    ensures forall id :: LiveHash(Replay(l, h), id, t) ==> exists i :: 0 <= i < |h| && h[i].id == id
  {
    var live := LiveSet(Replay(l, h), u, t);
    forall i | 0 <= i < |h| && h[i].user == u && LiveHash(Replay(l, h), h[i].id, t)
      ensures h[i].id in IdsOf(live)
    {
      HashIsLiveMember(l, h, i, t);
      assert MemberOf(h[i]) in live;
    }
    assert LiveSessions(l, h, u, t) <= IdsOf(live);
    SubsetSize(LiveSessions(l, h, u, t), IdsOf(live));
    IdsSize(live);
    SetIsTopOfInserted(l, h, u, t);
    TopSize(Inserted(l, h, u, t), l.maxDevices);
    forall id | LiveHash(Replay(l, h), id, t) ensures exists i :: 0 <= i < |h| && h[i].id == id {
      HashesComeFromHistory(l, h, id);
    }
  }

  // ---------------------------------------------------------------------------------------------
  // The last five logins
  // ---------------------------------------------------------------------------------------------

  /** Each user's scores grow with its logins. */
  predicate GrowingScores(h: seq<Login>) {
    forall i, j :: 0 <= i < j < |h| && h[i].user == h[j].user ==> h[i].score < h[j].score
  }

  /** The user's logins after login `i`. */
  function NewerLogins(h: seq<Login>, i: nat): set<Member>
    requires i < |h|
  {
    set j | i < j < |h| && h[j].user == h[i].user :: MemberOf(h[j])
  }

  /**
   With growing scores, hash, sorted set and the two expiries together say exactly this: login `i` is live
   at time `t` if and only if it is younger than the TTL and among its user's `maxDevices` latest logins.
   */
  lemma {:induction false} LastLoginsRefinement(l: Limits, h: seq<Login>, i: nat, t: nat)
    requires History(h) && GrowingScores(h) && Until(h, t) && i < |h|
    ensures LiveHash(Replay(l, h), h[i].id, t) <==>
      t < h[i].at + Ttl(l) && |NewerLogins(h, i)| < l.maxDevices
  {
    var u := h[i].user;
    var m := MemberOf(h[i]);
    HashIsLiveMember(l, h, i, t);
    SetIsTopOfInserted(l, h, u, t);
    if t < h[i].at + Ttl(l) {
      var all := Inserted(l, h, u, t);
      YoungLoginIsInserted(l, h, i, t);
      forall x ensures x in Above(all, m) <==> x in NewerLogins(h, i) {
        if x in Above(all, m) {
          EpochComesFromHistory(l, h, u, x);
          var j :| 0 <= j < |h| && h[j].user == u && MemberOf(h[j]) == x;
          assert i < j;
        } else if x in NewerLogins(h, i) {
          var j :| i < j < |h| && h[j].user == u && MemberOf(h[j]) == x;
          YoungLoginIsInserted(l, h, j, t);
        }
      }
      assert Above(all, m) == NewerLogins(h, i);
    }
  }

  /** With what login and verification pass: the last five logins of a user younger than seven days. */
  lemma {:induction false} LastFiveWithinSevenDays(h: seq<Login>, i: nat, t: nat)
    requires History(h) && GrowingScores(h) && Until(h, t) && i < |h|
    ensures LiveHash(Replay(DEFAULTS, h), h[i].id, t) <==>
      t < h[i].at + 604800000 && |NewerLogins(h, i)| < 5
  {
    LastLoginsRefinement(DEFAULTS, h, i, t);
  }

  // ---------------------------------------------------------------------------------------------
  // The script
  // ---------------------------------------------------------------------------------------------

  class RedisSessions {
    var hashes: map<SessionId, R.Entry<Fields>>
    var zsets: map<UserId, R.Entry<set<Member>>>

    ghost function State(): Cache
      reads this
    {
      Cache(hashes, zsets)
    }

    /** ZRANGE 0 .. n - 1: the n lowest members in rank order. */
    method ZRangeLowest(z: set<Member>, n: nat) returns (lowest: seq<Member>)
      requires n <= |z|
      ensures |lowest| == n
      ensures forall j :: 0 <= j < n ==> lowest[j] in z
      ensures forall j, k :: 0 <= j < k < n ==> Below(lowest[j], lowest[k])
      ensures forall j, x :: 0 <= j < n && x in z && x !in lowest ==> Below(lowest[j], x)
    {
      lowest := [];
      var rest := z;
      while |lowest| < n
        invariant |lowest| <= n && |rest| == |z| - |lowest|
        invariant forall x :: x in z <==> x in rest || x in lowest
        invariant forall j, k :: 0 <= j < k < |lowest| ==> Below(lowest[j], lowest[k])
        invariant forall j, x :: 0 <= j < |lowest| && x in rest ==> Below(lowest[j], x)
      {
        ghost var least := LeastExists(rest);
        var m :| m in rest && forall x :: x in rest && x != m ==> Below(m, x);
        lowest := lowest + [m];
        rest := rest - {m};
      }
    }

    /** DEL of each stale session's hash. */
    method DeleteHashes(stale: seq<Member>)
      modifies `hashes
      ensures hashes == old(hashes) - IdsOf(MembersIn(stale))
    {
      var i := 0;
      while i < |stale|
        invariant i <= |stale|
        invariant hashes == old(hashes) - IdsOf(MembersIn(stale[..i]))
      {
        hashes := hashes - {stale[i].id};
        assert MembersIn(stale[..i + 1]) == MembersIn(stale[..i]) + {stale[i]};
        i := i + 1;
      }
      assert stale[..i] == stale;
    }

    /** ZCARD, ZRANGE, DEL and ZREMRANGEBYRANK: evict the lowest ranks beyond `maxDevices`. */
    method Evict(u: UserId, maxDevices: nat)
      requires u in zsets
      modifies this
      ensures var z := old(zsets)[u].value;
        && zsets == old(zsets)[u := R.Entry(Top(z, maxDevices), old(zsets)[u].expiresAt)]
        && hashes == old(hashes) - IdsOf(z - Top(z, maxDevices))
    {
      var z := zsets[u].value;
      var total := |z|;
      TopSize(z, maxDevices);
      if total > maxDevices {
        var excess := total - maxDevices;
        var stale := ZRangeLowest(z, excess);
        StaleAreEvicted(z, maxDevices, stale);
        DeleteHashes(stale);
        zsets := zsets[u := R.Entry(z - MembersIn(stale), zsets[u].expiresAt)];
      }
    }

    /** The Lua script, command by command. */
    method SaveSessionWithEviction(e: Login, l: Limits)
      modifies this
      ensures State() == Save(old(State()), l, e)
    {
      // 1. the session hash and its expiry
      hashes := hashes[e.id := R.Entry(e.fields, Some(e.at + Ttl(l)))];
      // 2. the sorted set and its expiry
      var live := if R.Has(zsets, e.user, e.at) then zsets[e.user].value else {};
      zsets := zsets[e.user := R.Entry(Added(live, MemberOf(e)), Some(e.at + Ttl(l)))];
      // 3. the sessions beyond maxDevices
      Evict(e.user, l.maxDevices);
    }
  }

  lemma {:induction false} DistinctSize(s: seq<Member>)
    requires forall j, k :: 0 <= j < k < |s| ==> Below(s[j], s[k])
    ensures |MembersIn(s)| == |s|
  {
    if s != [] {
      DistinctSize(s[1..]);
      assert MembersIn(s) == MembersIn(s[1..]) + {s[0]};
    }
  }

  lemma {:induction false} StaleAreEvicted(z: set<Member>, k: nat, stale: seq<Member>)
    requires |stale| + k == |z|
    requires forall j :: 0 <= j < |stale| ==> stale[j] in z
    requires forall i, j :: 0 <= i < j < |stale| ==> Below(stale[i], stale[j])
    requires forall j, x :: 0 <= j < |stale| && x in z && x !in stale ==> Below(stale[j], x)
    ensures z - MembersIn(stale) == Top(z, k)
    ensures z - Top(z, k) == MembersIn(stale)
  {
    var low := MembersIn(stale);
    DistinctSize(stale);
    LowestAreTheRest(z, k, low);
    assert z - (z - low) == low;
  }
}
