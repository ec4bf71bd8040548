/** The external-address cache: the last address seen and the time of the last
    successful lookup. A lookup happens only when the cache is stale. The clock
    and the HTTP/JSON lookup are parameters. */
module Ip {
  import opened Common

  /** `time.Time{}.Unix()`: the Unix second of Go's zero time, 0001-01-01 UTC. */
  const ZeroTimeUnix: int64 := -62135596800

  /** What the address service gave back. `LookupFailed` is a request, read or
      JSON error. `LookupOk` is a decoded body; its `query` field may be
      absent, and then the cached address is left as it was. */
  datatype LookupResult = LookupFailed(error: Error) | LookupOk(query: Option<string>)

  /** The two fields of the Go `IP` value, timestamps in Unix seconds. */
  datatype Cache = Cache(ip: string, lastCheck: int64)

  const Initial := Cache("", ZeroTimeUnix)

  /** One call: the new cache, the returned address and error, and whether the
      address service was contacted. */
  datatype Outcome = Outcome(next: Cache, ip: string, err: Option<Error>, lookedUp: bool)

  /** The refresh condition: strictly more than `timeout` seconds elapsed. The
      difference is taken in unbounded integers. */
  predicate Stale(now: int64, lastCheck: int64, timeout: int64)
  {
    now as int - lastCheck as int > timeout as int
  }

  /** The effect of `GetIP` called at Unix second `now` with bound `timeout`. */
  function Get(c: Cache, now: int64, timeout: int64, lookup: LookupResult): Outcome
  {
    if !Stale(now, c.lastCheck, timeout) then Outcome(c, c.ip, None, false)
    else match lookup
      case LookupFailed(e) => Outcome(c, "", Some(e), true)
      case LookupOk(query) =>
        var ip := if query.Some? then query.value else c.ip;
        Outcome(Cache(ip, now), ip, None, true)
  }

  /** The service is contacted exactly when the cache is stale. */
  lemma LookupIffStale(c: Cache, now: int64, timeout: int64, lookup: LookupResult)
    ensures Get(c, now, timeout, lookup).lookedUp <==> now as int - c.lastCheck as int > timeout as int
  {
  }

  /** A fresh cache answers with its address, without I/O and without change. */
  lemma CacheHit(c: Cache, now: int64, timeout: int64, lookup: LookupResult)
    requires !Stale(now, c.lastCheck, timeout)
    ensures Get(c, now, timeout, lookup) == Outcome(c, c.ip, None, false)
  {
  }

  /** On a fresh cache the outcome does not depend on what the address
      service would have answered: it is not consulted. */
  lemma HitIgnoresLookup(c: Cache, now: int64, timeout: int64, l1: LookupResult, l2: LookupResult)
    ensures !Stale(now, c.lastCheck, timeout) ==> Get(c, now, timeout, l1) == Get(c, now, timeout, l2)
  {
  }

  /** A successful lookup stamps the cache with `now` and returns the new address. */
  lemma SuccessRefreshes(c: Cache, now: int64, timeout: int64, query: Option<string>)
    requires Stale(now, c.lastCheck, timeout)
    ensures var o := Get(c, now, timeout, LookupOk(query));
      o.next.lastCheck == now && o.err == None && o.ip == o.next.ip
      && o.ip == (if query.Some? then query.value else c.ip)
  {
  }

  /** A failed lookup returns `("", err)` and leaves the cache as it was, so a
      retry at the same instant contacts the service again. */
  lemma FailureRetries(c: Cache, now: int64, timeout: int64, e: Error, retry: LookupResult)
    requires Stale(now, c.lastCheck, timeout)
    ensures var o := Get(c, now, timeout, LookupFailed(e));
      o == Outcome(c, "", Some(e), true) && Get(o.next, now, timeout, retry).lookedUp
  {
  }

  /** Two calls no more than `timeout` seconds apart, the first of which looks up
      successfully: the second is served from the cache. */
  lemma TwoCallsWithinBound(c: Cache, now1: int64, now2: int64, timeout: int64, query: Option<string>, l2: LookupResult)
    requires now1 <= now2 && now2 as int - now1 as int <= timeout as int
    requires Stale(now1, c.lastCheck, timeout)
    ensures var o1 := Get(c, now1, timeout, LookupOk(query));
      var o2 := Get(o1.next, now2, timeout, l2);
      o1.lookedUp && !o2.lookedUp && o2.ip == o1.ip && o2.next == o1.next
  {
  }

  /** Two successful calls more than `timeout` seconds apart both look up. */
  lemma TwoCallsSpanningBound(c: Cache, now1: int64, now2: int64, timeout: int64, q1: Option<string>, q2: Option<string>)
    requires Stale(now1, c.lastCheck, timeout)
    requires now2 as int - now1 as int > timeout as int
    ensures var o1 := Get(c, now1, timeout, LookupOk(q1));
      o1.lookedUp && Get(o1.next, now2, timeout, LookupOk(q2)).lookedUp
  {
  }

  /** A zero timeout does not refresh twice within one second. */
  lemma ZeroTimeoutSameSecond(c: Cache, lookup: LookupResult)
    ensures !Get(c, c.lastCheck, 0, lookup).lookedUp
  {
  }

  /** A negative timeout refreshes on every call whose clock has not gone back. */
  lemma NegativeTimeoutAlwaysRefreshes(c: Cache, now: int64, timeout: int64, lookup: LookupResult)
    requires timeout < 0 && now >= c.lastCheck
    ensures Get(c, now, timeout, lookup).lookedUp
  {
  }

  /** From the zero timestamp, any call after 1970 with a timeout below the
      62135596800 seconds since year 1 refreshes. */
  lemma FirstCallRefreshes(now: int64, timeout: int64, lookup: LookupResult)
    requires now >= 0 && timeout < -ZeroTimeUnix
    ensures Get(Initial, now, timeout, lookup).lookedUp
  {
  }

  /** The Go `IP` value, held across passes. */
  class IP {
    var ip: string
    var lastCheckTimestamp: int64

    /** The zero value `IP{}`. */
    constructor ()
      ensures ip == "" && lastCheckTimestamp == ZeroTimeUnix
    {
      ip := "";
      lastCheckTimestamp := ZeroTimeUnix;
    }

    function State(): Cache
      reads this
    {
      Cache(ip, lastCheckTimestamp)
    }

    method GetIP(now: int64, ipTimeoutS: int64, lookup: LookupResult) returns (address: string, err: Option<Error>)
      modifies this
      ensures var o := Get(old(State()), now, ipTimeoutS, lookup);
        State() == o.next && address == o.ip && err == o.err
    {
      if now as int - lastCheckTimestamp as int > ipTimeoutS as int {
        match lookup {
          case LookupFailed(e) =>
            return "", Some(e);
          case LookupOk(query) =>
            if query.Some? {
              ip := query.value;
            }
        }
        lastCheckTimestamp := now;
      }
      return ip, None;
    }
  }
}
