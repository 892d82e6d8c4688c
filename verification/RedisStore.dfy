/**
 The part of Redis the services share: string keys, counters, and key expiry.
 Every command carries the instant, in milliseconds, at which the server executes it; a key lives until
 its expiry instant is reached.  Keys are values, one constructor per key pattern of the source.
 */
module RedisStore {
  import opened Wrappers

  datatype TextKey =
    | Otp(email: string)           // otp:verify:{email}
    | Cooldown(email: string)      // cooldown:verify:{email}
    | Upload(fileKey: string)      // upload:temp:{fileKey}

  datatype CounterKey =
    | VerifyFailures(email: string)              // rate:verify:{email}
    | LoginFailures(identifier: string)          // rate:login:account:{identifier}
    | IpWindow(prefix: string, ip: string)       // ratelimit:{prefix}:ip:{ip}
    | TargetWindow(prefix: string, hash: string) // ratelimit:{prefix}:email:{hash}

  datatype Entry<T> = Entry(value: T, expiresAt: Option<nat>)

  datatype Store = Store(texts: map<TextKey, Entry<string>>, counts: map<CounterKey, Entry<nat>>)

  const EMPTY: Store := Store(map[], map[])

  function Seconds(n: nat): nat {
    1000 * n
  }

  /** Instant `t` lies in the interval of length `span` from `a`. */
  predicate Within(t: nat, a: nat, span: nat) {
    a <= t < a + span
  }

  predicate Live<T>(e: Entry<T>, t: nat) {
    e.expiresAt.None? || t < e.expiresAt.value
  }

  predicate Has<K, T>(m: map<K, Entry<T>>, k: K, t: nat) {
    k in m && Live(m[k], t)
  }

  /** GET of a string key. */
  function Get(s: Store, k: TextKey, t: nat): Option<string> {
    if Has(s.texts, k, t) then Some(s.texts[k].value) else None
  }

  /** What JavaScript takes for a present value: a missing key and an empty string are both falsy. */
  predicate Truthy(v: Option<string>) {
    v.Some? && v.value != ""
  }

  /** SET key value EX ttl. */
  function SetWithTtl(s: Store, k: TextKey, v: string, ttl: nat, t: nat): Store {
    s.(texts := s.texts[k := Entry(v, Some(t + Seconds(ttl)))])
  }

  function Del(s: Store, k: TextKey): Store {
    s.(texts := s.texts - {k})
  }

  /** GET of a counter, absent read as 0. */
  function Count(s: Store, k: CounterKey, t: nat): nat {
    if Has(s.counts, k, t) then s.counts[k].value else 0
  }

  /** INCR: keeps the expiry of a live counter, creates one without expiry otherwise. */
  function Incr(s: Store, k: CounterKey, t: nat): Store {
    if Has(s.counts, k, t) then
      s.(counts := s.counts[k := Entry(s.counts[k].value + 1, s.counts[k].expiresAt)])
    else
      s.(counts := s.counts[k := Entry(1, None)])
  }

  /** EXPIRE of a counter; nothing happens to a key that is gone. */
  function Expire(s: Store, k: CounterKey, ttl: nat, t: nat): Store {
    if Has(s.counts, k, t) then
      s.(counts := s.counts[k := Entry(s.counts[k].value, Some(t + Seconds(ttl)))])
    else
      s
  }

  function DelCount(s: Store, k: CounterKey): Store {
    s.(counts := s.counts - {k})
  }

  /** A failure is counted: INCR, and EXPIRE when it is the first or from the limit on. */
  function CountFailure(s: Store, k: CounterKey, limit: nat, ttl: nat, count: nat, extend: nat): Store {
    var n := Count(s, k, count) + 1;
    var counted := Incr(s, k, count);
    if n == 1 || n >= limit then Expire(counted, k, ttl, extend) else counted
  }

  /** TTL: -2 for a missing key, -1 without expiry, else the seconds left, rounded to the nearest. */
  function TimeLeft<K, T>(m: map<K, Entry<T>>, k: K, t: nat): int {
    if !Has(m, k, t) then -2
    else if m[k].expiresAt.None? then -1
    else (m[k].expiresAt.value - t + 500) / 1000
  }

  /** The seconds a rejection announces: a positive TTL, or the default when Redis gives none. */
  function RetryAfter(timeLeft: int, default: nat): (n: nat)
    ensures default > 0 ==> n > 0
  {
    if timeLeft > 0 then timeLeft else default
  }

  /**
   The announced number of seconds is the time left on the key, to the nearest second, as long as that is at least
   half a second, and the default otherwise.
   */
  predicate Announces<K, T>(m: map<K, Entry<T>>, k: K, t: nat, default: nat, n: nat) {
    if Has(m, k, t) && m[k].expiresAt.Some? && t + 500 <= m[k].expiresAt.value then
      t + Seconds(n) <= m[k].expiresAt.value + 500 && m[k].expiresAt.value < t + Seconds(n) + 500
    else n == default
  }

  lemma {:induction false} DelayIsAnnounced<K, T>(m: map<K, Entry<T>>, k: K, t: nat, default: nat)
    ensures Announces(m, k, t, default, RetryAfter(TimeLeft(m, k, t), default))
  {
  }

  /** The connected client: each method is one command. */
  class Redis {
    var store: Store

    method GetText(k: TextKey, t: nat) returns (v: Option<string>)
      ensures v == Get(store, k, t)
    {
      v := Get(store, k, t);
    }

    method SetText(k: TextKey, v: string, ttl: nat, t: nat)
      modifies this
      ensures store == SetWithTtl(old(store), k, v, ttl, t)
    {
      store := SetWithTtl(store, k, v, ttl, t);
    }

    method DeleteText(k: TextKey)
      modifies this
      ensures store == Del(old(store), k)
    {
      store := Del(store, k);
    }

    method TextTtl(k: TextKey, t: nat) returns (n: int)
      ensures n == TimeLeft(store.texts, k, t)
    {
      n := TimeLeft(store.texts, k, t);
    }

    method GetCount(k: CounterKey, t: nat) returns (n: nat)
      ensures n == Count(store, k, t)
    {
      n := Count(store, k, t);
    }

    method Increment(k: CounterKey, t: nat) returns (n: nat)
      modifies this
      ensures store == Incr(old(store), k, t)
      ensures n == Count(old(store), k, t) + 1
    {
      n := Count(store, k, t) + 1;
      store := Incr(store, k, t);
    }

    method ExpireCount(k: CounterKey, ttl: nat, t: nat)
      modifies this
      ensures store == Expire(old(store), k, ttl, t)
    {
      store := Expire(store, k, ttl, t);
    }

    method DeleteCount(k: CounterKey)
      modifies this
      ensures store == DelCount(old(store), k)
    {
      store := DelCount(store, k);
    }

    method CountTtl(k: CounterKey, t: nat) returns (n: int)
      ensures n == TimeLeft(store.counts, k, t)
    {
      n := TimeLeft(store.counts, k, t);
    }
  }
}
