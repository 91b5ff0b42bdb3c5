/**
 * The two limiting middlewares. `MaxLimiter(n)` bounds the number of requests inside the rest
 * of the handler chain with a pool of `n` slots; `IPLimiter(limit, expire)` counts the requests
 * each client address let through, in a Redis counter that expires `expire` after the last one,
 * and turns a client away with 429 once its counter has reached `limit`.
 */
module Limit {
  import opened Wrappers
  import opened Gin
  import opened Redis

  /** What the slot pool saw: a slot taken, the next handler running while `inUse` slots are held, a slot given back. */
  datatype SlotEvent = Acquired | Served(inUse: nat) | Released

  /**
   * The handler `MaxLimiter(n)` returns, with its pool `sem` of capacity `n` (a buffered
   * channel in Go) reduced to the number of slots in use.
   */
  class MaxLimiter {
    const n: int
    var inUse: nat
    ghost var history: seq<SlotEvent>

    /** At most `n` slots are ever in use, and the handler only ever runs within that bound. */
    ghost predicate Valid()
      reads this
    {
      inUse <= n && forall i :: 0 <= i < |history| && history[i].Served? ==> 0 < history[i].inUse <= n
    }

    /** `make(chan struct{}, n)`, which needs `n >= 0`. */
    constructor (n: int)
      requires n >= 0
      ensures Valid() && this.n == n && inUse == 0 && history == []
    {
      this.n := n;
      inUse := 0;
      history := [];
    }

    /** `acquire()`: `sem <- struct{}{}`; a full pool would block, which a sequential run never reaches. */
    method Acquire()
      requires Valid() && inUse < n
      modifies this`inUse, this`history
      ensures Valid() && inUse == old(inUse) + 1 && history == old(history) + [Acquired]
    {
      inUse := inUse + 1;
      history := history + [Acquired];
    }

    /** `release()`: `<-sem`. */
    method Release()
      requires Valid() && inUse > 0
      modifies this`inUse, this`history
      ensures Valid() && inUse == old(inUse) - 1 && history == old(history) + [Released]
    {
      inUse := inUse - 1;
      history := history + [Released];
    }

    /**
     * One request. With `n == 0` the next handler runs and the pool is not touched. Otherwise a
     * slot is taken, the next handler runs holding it, and the slot is given back (the `defer`):
     * the number in use comes back to what it was.
     */
    method Handle(c: Context)
      requires Valid() && (n == 0 || inUse < n)
      modifies this`inUse, this`history, c`events
      ensures Valid() && inUse == old(inUse)
      ensures history == old(history) + (if n == 0 then [] else [Acquired, Served(old(inUse) + 1), Released])
      ensures c.events == old(c.events) + [RanNext(c.body)]
    {
      if n == 0 {
        c.Next();
        return;
      }
      Acquire();
      c.Next();
      history := history + [Served(inUse)];
      Release();
    }
  }

  /** The counter key of a client: `fmt.Sprint("ip-limit:", ip)`. */
  function LimitKey(ip: string): (key: string)
    ensures |key| == |ip| + 9 && key[..9] == "ip-limit:" && key[9..] == ip
  {
    "ip-limit:" + ip
  }

  /** Two client addresses share a counter only when they are the same address. */
  lemma LimitKeyInjective(a: string, b: string)
    requires LimitKey(a) == LimitKey(b)
    ensures a == b
  {
    assert a == LimitKey(a)[9..];
  }

  const StatusTooManyRequests: int := 429
  const TooManyRequestMsg: string := "too many request"

  /** The outcome of one request at the IP limiter: whether it was let through, and the store afterwards. */
  datatype Admission = Admission(allowed: bool, entries: Entries)

  /**
   * One request from `ip` at time `now`, with a store present. `readOk` says whether the `GET`
   * reaches the server, `writeOk` whether the pipelined `INCR` and `EXPIRE` sent after the
   * rest of the chain do; the two are separate network calls. With `limit == 0` the request
   * goes through and nothing is written. Otherwise the counter is read, as 0 when it is
   * missing, unreadable or the read fails. A count at or above `limit` turns the request away
   * and writes nothing. Otherwise the request goes through; then its counter goes up by one
   * and expires `expire` after `now`, or is deleted when `expire` is not positive. A value
   * that is not an integer stays and only gets the new expiry. Other keys never change, and
   * lost writes do not affect the request.
   */
  function Admit(limit: int, expire: int, m: Entries, readOk: bool, writeOk: bool, ip: string, now: int): (a: Admission)
    ensures a.allowed <==> limit == 0 || (if readOk then ReadCount(m, LimitKey(ip), now) else 0) < limit
    ensures !a.allowed || limit == 0 || !writeOk ==> a.entries == m
    ensures SameExcept(m, a.entries, LimitKey(ip))
    ensures a.allowed && limit != 0 && writeOk && expire > 0 &&
            !(Live(m, LimitKey(ip), now) && m[LimitKey(ip)].value.NotInteger?) ==>
              LimitKey(ip) in a.entries &&
              a.entries[LimitKey(ip)] == Entry(Counter(ReadCount(m, LimitKey(ip), now) + 1), Some(now + expire))
    ensures a.allowed && limit != 0 && writeOk && expire > 0 &&
            Live(m, LimitKey(ip), now) && m[LimitKey(ip)].value.NotInteger? ==>
              LimitKey(ip) in a.entries && a.entries[LimitKey(ip)] == Entry(NotInteger, Some(now + expire))
    ensures a.allowed && limit != 0 && writeOk && expire <= 0 ==> LimitKey(ip) !in a.entries
  {
    if limit == 0 then Admission(true, m)
    else
      var key := LimitKey(ip);
      var count := if readOk then ReadCount(m, key, now) else 0;
      if count >= limit then Admission(false, m)
      else if !writeOk then Admission(true, m)
      else Admission(true, AfterExpire(AfterIncr(m, key, now), key, expire, now))
  }

  /**
   * The handler `IPLimiter(limit, expire)` returns, run on `c` at time `now` with the shared
   * client `redis` (`app.Redis`, possibly nil). `execOk` says whether `pipe.Exec` gets through
   * to the server; it can fail on its own after a successful read, for instance when the
   * request's context is cancelled while the chain runs. Without a client every request goes
   * through untouched; otherwise the handler does what `Admit` says, answering 429 with
   * `{code: 429, msg: "too many request"}` when it turns the request away.
   */
  method IPLimiter(limit: int, expire: int, redis: Store?, c: Context, now: int, execOk: bool)
    modifies redis, c`events
    ensures redis != null ==> redis.reachable == old(redis.reachable)
    ensures redis == null ==> c.events == old(c.events) + [RanNext(c.body)]
    ensures redis != null ==>
              var a := Admit(limit, expire, old(redis.entries), redis.reachable, redis.reachable && execOk,
                             c.request.clientIP, now);
              && redis.entries == a.entries
              && c.events == old(c.events) +
                   [if a.allowed then RanNext(c.body) else AbortedWithJSON(StatusTooManyRequests, StatusTooManyRequests, TooManyRequestMsg)]
  {
    if redis == null || limit == 0 {
      c.Next();
      return;
    }
    var key := LimitKey(c.request.clientIP);

    var count, _ := redis.GetInt(key, now);

    if count >= limit {
      c.AbortWithStatusJSON(StatusTooManyRequests, StatusTooManyRequests, TooManyRequestMsg);
      return;
    }

    c.Next();
    if execOk {
      redis.Incr(key, now);
      redis.Expire(key, expire, now);
    }
  }

  /** The decisions on requests from `ip` at the instants `times`, one after the other, against a store that answers. */
  function Run(limit: int, expire: int, m: Entries, ip: string, times: seq<int>): (allowed: seq<bool>)
    ensures |allowed| == |times|
    decreases |times|
  {
    if times == [] then []
    else
      var a := Admit(limit, expire, m, true, true, ip, times[0]);
      [a.allowed] + Run(limit, expire, a.entries, ip, times[1..])
  }

  /**
   * From a counter already at `c` (or absent when `c == 0`), with each request arriving before
   * the counter expires, the next `limit - c` requests pass and the one after is turned away.
   */
  lemma {:induction false} RunFrom(limit: int, expire: int, m: Entries, ip: string, times: seq<int>, c: nat)
    requires 0 < limit && 0 < expire && c <= limit
    requires |times| == limit - c + 1
    requires forall i :: 0 < i < |times| ==> times[i] < times[i - 1] + expire
    requires c == 0 ==> !Live(m, LimitKey(ip), times[0])
    requires c > 0 ==> LimitKey(ip) in m && m[LimitKey(ip)].value == Counter(c) &&
                       m[LimitKey(ip)].expiresAt.Some? && times[0] < m[LimitKey(ip)].expiresAt.value
    ensures forall i :: 0 <= i < |times| ==> Run(limit, expire, m, ip, times)[i] == (i < limit - c)
    decreases limit - c
  {
    var key := LimitKey(ip);
    var a := Admit(limit, expire, m, true, true, ip, times[0]);
    var r := Run(limit, expire, m, ip, times);
    if c == limit {
      assert ReadCount(m, key, times[0]) == limit;
    } else {
      assert ReadCount(m, key, times[0]) == c;
      assert a.allowed && a.entries[key] == Entry(Counter(c + 1), Some(times[0] + expire));
      var rest := times[1..];
      assert forall i :: 0 < i < |rest| ==> rest[i] < rest[i - 1] + expire by {
        forall i | 0 < i < |rest| ensures rest[i] < rest[i - 1] + expire {
          assert rest[i] == times[i + 1] && rest[i - 1] == times[i];
        }
      }
      RunFrom(limit, expire, a.entries, ip, rest, c + 1);
      assert r == [true] + Run(limit, expire, a.entries, ip, rest);
    }
  }

  /**
   * Starting with no live counter for `ip`, and with each request arriving before the counter
   * set by the previous one expires, requests 1 to `limit` pass and request `limit + 1` is turned away.
   */
  lemma LimitThenReject(limit: int, expire: int, m: Entries, ip: string, times: seq<int>)
    requires 0 < limit && 0 < expire
    requires |times| == limit + 1
    requires forall i :: 0 < i < |times| ==> times[i] < times[i - 1] + expire
    requires !Live(m, LimitKey(ip), times[0])
    ensures forall i :: 0 <= i < |times| ==> Run(limit, expire, m, ip, times)[i] == (i < limit)
  {
    RunFrom(limit, expire, m, ip, times, 0);
  }

  /**
   * With an `expire` that is not positive, each request's `EXPIRE` deletes the counter its
   * `INCR` just raised: a client without a counter is never turned away, however many requests it sends.
   */
  lemma {:induction false} NonPositiveExpireNeverLimits(limit: int, expire: int, m: Entries, ip: string, times: seq<int>)
    requires 0 < limit && expire <= 0
    requires LimitKey(ip) !in m
    ensures forall i :: 0 <= i < |times| ==> Run(limit, expire, m, ip, times)[i]
    decreases |times|
  {
    if times != [] {
      var a := Admit(limit, expire, m, true, true, ip, times[0]);
      assert ReadCount(m, LimitKey(ip), times[0]) == 0;
      NonPositiveExpireNeverLimits(limit, expire, a.entries, ip, times[1..]);
      assert Run(limit, expire, m, ip, times) == [a.allowed] + Run(limit, expire, a.entries, ip, times[1..]);
    }
  }

  /** Once a client's counter has expired, its next request passes again. */
  lemma WindowReset(limit: int, expire: int, m: Entries, ip: string, now: int)
    requires 0 < limit
    requires LimitKey(ip) in m && m[LimitKey(ip)].expiresAt.Some? && m[LimitKey(ip)].expiresAt.value <= now
    ensures Admit(limit, expire, m, true, true, ip, now).allowed
  {
  }
}
