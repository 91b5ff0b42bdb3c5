/**
 * The part of the Redis server the IP limiter talks to: string keys holding a counter (or a
 * value that is not an integer), each with an optional expiry instant. Time is the parameter
 * `now`, in nanoseconds like Go's `time.Duration`. An entry whose expiry instant has come is
 * gone. `reachable` says whether the server answers; when it does not, reads fail and
 * writes are lost.
 */
module Redis {
  import opened Wrappers

  datatype Stored = Counter(n: int) | NotInteger

  datatype Entry = Entry(value: Stored, expiresAt: Option<int>)

  type Entries = map<string, Entry>

  /** `key` exists at time `now`: present and not yet expired. */
  predicate Live(m: Entries, key: string, now: int)
  {
    key in m && (m[key].expiresAt.None? || now < m[key].expiresAt.value)
  }

  /** Every key other than `key` has the same entry (or the same absence) in `m` and `m'`. */
  ghost predicate SameExcept(m: Entries, m': Entries, key: string)
  {
    forall k :: k != key ==> (k in m <==> k in m') && (k in m ==> m'[k] == m[k])
  }

  /** `GET key` followed by `.Int()`, its error discarded: the counter, or 0 when the key is absent, expired or not an integer. */
  function ReadCount(m: Entries, key: string, now: int): (n: int)
    ensures n != 0 ==> Live(m, key, now) && m[key].value == Counter(n)
    ensures Live(m, key, now) && m[key].value.Counter? ==> n == m[key].value.n
  {
    if Live(m, key, now) && m[key].value.Counter? then m[key].value.n else 0
  }

  /**
   * `INCR key`: a live counter goes up by one and keeps its expiry; an absent or expired key
   * becomes the counter 1 without expiry; a value that is not an integer is an error and stays.
   */
  function AfterIncr(m: Entries, key: string, now: int): (m': Entries)
    ensures SameExcept(m, m', key)
    ensures Live(m, key, now) && m[key].value.NotInteger? ==> m' == m
    ensures !(Live(m, key, now) && m[key].value.NotInteger?) ==>
              key in m' && m'[key].value == Counter(ReadCount(m, key, now) + 1) &&
              m'[key].expiresAt == (if Live(m, key, now) then m[key].expiresAt else None)
  {
    if !Live(m, key, now) then m[key := Entry(Counter(1), None)]
    else match m[key].value
      case Counter(n) => m[key := m[key].(value := Counter(n + 1))]
      case NotInteger => m
  }

  /**
   * `EXPIRE key ttl`: a live key expires `ttl` after `now`, or is deleted at once when `ttl`
   * is not positive; an absent or expired key is left alone.
   */
  function AfterExpire(m: Entries, key: string, ttl: int, now: int): (m': Entries)
    ensures SameExcept(m, m', key)
    ensures !Live(m, key, now) ==> m' == m
    ensures Live(m, key, now) && ttl <= 0 ==> key !in m'
    ensures Live(m, key, now) && ttl > 0 ==> key in m' && m'[key] == Entry(m[key].value, Some(now + ttl))
  {
    if !Live(m, key, now) then m
    else if ttl <= 0 then m - {key}
    else m[key := m[key].(expiresAt := Some(now + ttl))]
  }

  /** The Redis client the application shares (`app.Redis`), with the server state behind it. */
  class Store {
    var entries: Entries
    var reachable: bool

    constructor (entries: Entries, reachable: bool)
      ensures this.entries == entries && this.reachable == reachable
    {
      this.entries := entries;
      this.reachable := reachable;
    }

    /** `Get(ctx, key).Int()`: the counter, or 0 and a failure. */
    method GetInt(key: string, now: int) returns (n: int, failed: bool)
      ensures n == if reachable then ReadCount(entries, key, now) else 0
      ensures failed <==> !reachable || !(Live(entries, key, now) && entries[key].value.Counter?)
    {
      if !reachable || !Live(entries, key, now) {
        return 0, true;
      }
      match entries[key].value
      case Counter(v) => n, failed := v, false;
      case NotInteger => n, failed := 0, true;
    }

    /** `Incr(ctx, key)` as sent by a pipeline; lost when the server does not answer. */
    method Incr(key: string, now: int)
      modifies this`entries
      ensures entries == if reachable then AfterIncr(old(entries), key, now) else old(entries)
    {
      if reachable {
        entries := AfterIncr(entries, key, now);
      }
    }

    /** `Expire(ctx, key, ttl)` as sent by a pipeline; lost when the server does not answer. */
    method Expire(key: string, ttl: int, now: int)
      modifies this`entries
      ensures entries == if reachable then AfterExpire(old(entries), key, ttl, now) else old(entries)
    {
      if reachable {
        entries := AfterExpire(entries, key, ttl, now);
      }
    }
  }
}
