/** The per-address rate limiter of pkg/meshstorage/api/middleware.go over whole runs of requests and sweeps. */
module RateLimiter {

  datatype Counter = Counter(count: int, resetTime: int)

  type Counters = map<string, Counter>

  /** The limiter's settings: requests per window, and the window's length. */
  datatype Config = Config(limit: int, window: nat) {
    /** A first request is allowed whatever the limit. */
    function Most(): int {
      if limit < 1 then 1 else limit
    }
  }

  /** Allow at time `at`; a new window is stamped by a second clock reading `again`. */
  function Allow(c: Config, m: Counters, ip: string, at: int, again: int): (Counters, bool) {
    if ip !in m || at > m[ip].resetTime then (m[ip := Counter(1, again + c.window)], true)
    else if m[ip].count >= c.limit then (m, false)
    else (m[ip := m[ip].(count := m[ip].count + 1)], true)
  }

  /** One pass of the cleanup loop. */
  function Sweep(m: Counters, now: int): Counters {
    map ip | ip in m && now <= m[ip].resetTime :: m[ip]
  }

  class Limiter {
    const config: Config
    var requests: Counters

    constructor (config: Config)
      ensures this.config == config && requests == map[]
    {
      this.config, requests := config, map[];
    }

    method AllowRequest(ip: string, at: int, again: int) returns (ok: bool)
      modifies this
      ensures (requests, ok) == Allow(config, old(requests), ip, at, again)
    {
      if ip !in requests {
        requests := requests[ip := Counter(1, again + config.window)];
        return true;
      }
      var counter := requests[ip];
      if at > counter.resetTime {
        requests := requests[ip := Counter(1, again + config.window)];
        return true;
      }
      if counter.count >= config.limit {
        return false;
      }
      requests := requests[ip := Counter(counter.count + 1, counter.resetTime)];
      return true;
    }

    method Cleanup(now: int)
      modifies this
      ensures requests == Sweep(old(requests), now)
    {
      var left := requests.Keys;
      while left != {}
        invariant left <= old(requests).Keys
        invariant forall ip :: ip in requests <==> ip in old(requests) && (ip in left || now <= old(requests)[ip].resetTime)
        invariant forall ip :: ip in requests ==> requests[ip] == old(requests)[ip]
        decreases left
      {
        var ip :| ip in left;
        left := left - {ip};
        if now > requests[ip].resetTime {
          requests := requests - {ip};
        }
      }
    }
  }

  // ---- Runs ----

  datatype Event = Request(ip: string, at: int, again: int) | Clean(at: int) {
    function End(): int {
      if Request? then again else at
    }
  }

  /** The clock never goes back. */
  ghost predicate Monotone(es: seq<Event>, now: int) {
    es == [] || (now <= es[0].at <= es[0].End() && Monotone(es[1..], es[0].End()))
  }

  /** The answers to the requests of a run, in order. */
  function Answers(c: Config, m: Counters, es: seq<Event>): seq<bool>
    decreases |es|
  {
    if es == [] then []
    else
      match es[0]
      case Clean(at) => Answers(c, Sweep(m, at), es[1..])
      case Request(ip, at, again) =>
        var (m', ok) := Allow(c, m, ip, at, again);
        [ok] + Answers(c, m', es[1..])
  }

  function WithoutSweeps(es: seq<Event>): seq<Event> {
    if es == [] then [] else (if es[0].Clean? then [] else [es[0]]) + WithoutSweeps(es[1..])
  }

  predicate In(c: Config, t: int, e: Event, ip: string) {
    e.Request? && e.ip == ip && t <= e.at <= t + c.window
  }

  /** Allowed requests of `ip` in the closed interval of one window length that starts at `t`. */
  function AllowedIn(c: Config, m: Counters, es: seq<Event>, ip: string, t: int): nat
    decreases |es|
  {
    if es == [] then 0
    else
      match es[0]
      case Clean(at) => AllowedIn(c, Sweep(m, at), es[1..], ip, t)
      case Request(who, at, again) =>
        var (m', ok) := Allow(c, m, who, at, again);
        (if ok && In(c, t, es[0], ip) then 1 else 0) + AllowedIn(c, m', es[1..], ip, t)
  }

  /** The two tables differ only in windows that had already ended at `now`. */
  ghost predicate SameButExpired(swept: Counters, full: Counters, now: int) {
    forall ip :: if ip in swept then ip in full && full[ip] == swept[ip] else ip in full ==> full[ip].resetTime < now
  }

  lemma {:induction false} SweepsKeepAnswers(c: Config, swept: Counters, full: Counters, es: seq<Event>, now: int)
    requires SameButExpired(swept, full, now) && Monotone(es, now)
    ensures Answers(c, swept, es) == Answers(c, full, WithoutSweeps(es))
    ensures forall ip, t :: AllowedIn(c, swept, es, ip, t) == AllowedIn(c, full, WithoutSweeps(es), ip, t)
    decreases |es|
  {
    if es != [] {
      match es[0]
      case Clean(at) =>
        SweepsKeepAnswers(c, Sweep(swept, at), full, es[1..], es[0].End());
        assert [] + WithoutSweeps(es[1..]) == WithoutSweeps(es[1..]);
      case Request(ip, at, again) =>
        var s, f := Allow(c, swept, ip, at, again), Allow(c, full, ip, at, again);
        SweepsKeepAnswers(c, s.0, f.0, es[1..], es[0].End());
        var rest := WithoutSweeps(es[1..]);
        assert ([es[0]] + rest)[0] == es[0] && ([es[0]] + rest)[1..] == rest;
    }
  }

  /** Sweeping at arbitrary moments never changes an answer. */
  lemma SweepUnobservable(c: Config, m: Counters, es: seq<Event>, now: int)
    requires Monotone(es, now)
    ensures Answers(c, m, es) == Answers(c, m, WithoutSweeps(es))
  {
    SweepsKeepAnswers(c, m, m, es, now);
  }

  /** A sweep removes exactly the windows that are over, and changes no other. */
  lemma SweepRemovesExpired(m: Counters, now: int, ip: string)
    ensures ip in Sweep(m, now) <==> ip in m && now <= m[ip].resetTime
    ensures ip in Sweep(m, now) ==> Sweep(m, now)[ip] == m[ip]
  {
  }

  // ---- Who is served ----

  /**
   A request is allowed if and only if it opens a window or the window has room. A refused one leaves everything as it is,
   and no request touches the counter of another address.
   */
  lemma AllowedIff(c: Config, m: Counters, ip: string, at: int, again: int)
    ensures var (m', ok) := Allow(c, m, ip, at, again);
            && (ok <==> ip !in m || at > m[ip].resetTime || m[ip].count < c.limit)
            && (!ok ==> m' == m)
            && (forall other :: other != ip ==>
                  (other in m' <==> other in m) && (other in m ==> m'[other] == m[other]))
            && ((ip !in m || at > m[ip].resetTime) ==> ip in m' && m'[ip].resetTime == again + c.window)
            && (ip in m && at <= m[ip].resetTime ==> ip in m' && m'[ip].resetTime == m[ip].resetTime)
  {
  }

  /** All requests come from `ip`, none after `reset`. */
  ghost predicate Within(es: seq<Event>, ip: string, reset: int) {
    forall i :: 0 <= i < |es| ==> es[i].Request? && es[i].ip == ip && es[i].at <= reset
  }

  /** Within a window exactly as many requests are allowed as it still has room for, and they are the first ones. */
  lemma {:induction false} WindowServes(c: Config, m: Counters, ip: string, es: seq<Event>)
    requires ip in m && Within(es, ip, m[ip].resetTime)
    ensures |Answers(c, m, es)| == |es|
    ensures forall i :: 0 <= i < |es| ==> (Answers(c, m, es)[i] <==> m[ip].count + i < c.limit)
    decreases |es|
  {
    if es != [] {
      var (m', ok) := Allow(c, m, ip, es[0].at, es[0].again);
      assert Within(es[1..], ip, m'[ip].resetTime);
      WindowServes(c, m', ip, es[1..]);
      assert Answers(c, m, es) == [ok] + Answers(c, m', es[1..]);
    }
  }

  // ---- The bound ----

  /**
   Of the `n` requests counted so far, `q` belong to the current window. If that is all of them, from its first on, the
   window lasts to the end of the interval; if earlier windows contributed, it lasts beyond.
   */
  ghost predicate Tally(c: Config, m: Counters, ip: string, t: int, n: int, q: int) {
    if ip in m then
      && 1 <= m[ip].count <= c.Most()
      && 0 <= q <= m[ip].count && q <= n <= q + c.Most() - 1
      && (0 < q == m[ip].count ==> t + c.window <= m[ip].resetTime)
      && (q > 0 ==> t <= m[ip].resetTime)
      && (n > q ==> t + c.window < m[ip].resetTime)
    else n == 0
  }

  /** Either the interval is over and the bound was kept, or the tally stands. */
  ghost predicate Bounded(c: Config, m: Counters, ip: string, t: int, n: int, now: int) {
    || (now > t + c.window && 0 <= n <= 2 * c.Most() - 1)
    || (exists q :: Tally(c, m, ip, t, n, q))
  }

  lemma RequestKeepsBound(c: Config, m: Counters, e: Event, ip: string, t: int, n: int, now: int)
    requires e.Request? && now <= e.at <= e.again && Bounded(c, m, ip, t, n, now)
    ensures var (m', ok) := Allow(c, m, e.ip, e.at, e.again);
            Bounded(c, m', ip, t, n + if ok && In(c, t, e, ip) then 1 else 0, e.End())
  {
    var (m', ok) := Allow(c, m, e.ip, e.at, e.again);
    if !(now > t + c.window && 0 <= n <= 2 * c.Most() - 1) {
      var q :| Tally(c, m, ip, t, n, q);
      var n' := n + if ok && In(c, t, e, ip) then 1 else 0;
      if e.ip != ip || !ok {
        assert Tally(c, m', ip, t, n', q);
      } else if ip in m && e.at <= m[ip].resetTime {
        assert Tally(c, m', ip, t, n', if In(c, t, e, ip) then q + 1 else q);
      } else if e.at <= t + c.window {
        assert Tally(c, m', ip, t, n', if In(c, t, e, ip) then 1 else 0);
      }
    }
  }

  lemma {:induction false} BoundFrom(c: Config, m: Counters, es: seq<Event>, ip: string, t: int, n: int, now: int)
    requires Monotone(es, now) && Bounded(c, m, ip, t, n, now)
    requires forall i :: 0 <= i < |es| ==> es[i].Request?
    ensures n + AllowedIn(c, m, es, ip, t) <= 2 * c.Most() - 1
    decreases |es|
  {
    if es != [] {
      var e := es[0];
      RequestKeepsBound(c, m, e, ip, t, n, now);
      var (m', ok) := Allow(c, m, e.ip, e.at, e.again);
      BoundFrom(c, m', es[1..], ip, t, n + if ok && In(c, t, e, ip) then 1 else 0, e.End());
    }
  }

  lemma {:induction false} SweepFree(es: seq<Event>, now: int)
    requires Monotone(es, now)
    ensures Monotone(WithoutSweeps(es), now)
    ensures forall i :: 0 <= i < |WithoutSweeps(es)| ==> WithoutSweeps(es)[i].Request?
    decreases |es|
  {
    if es != [] {
      SweepFree(es[1..], es[0].End());
      var rest := WithoutSweeps(es[1..]);
      if es[0].Clean? {
        assert [] + rest == rest;
        MonotoneEarlier(rest, es[0].End(), now);
      } else {
        assert ([es[0]] + rest)[1..] == rest;
      }
    }
  }

  lemma MonotoneEarlier(es: seq<Event>, later: int, now: int)
    requires Monotone(es, later) && now <= later
    ensures Monotone(es, now)
  {
  }

  /**
   With a clock that never goes back, any closed interval of one window length contains less than twice the limit of
   allowed requests per address, however the sweeps fall.
   */
  lemma LessThanTwiceTheLimit(c: Config, es: seq<Event>, ip: string, t: int, now: int)
    requires Monotone(es, now)
    ensures AllowedIn(c, map[], es, ip, t) <= 2 * c.Most() - 1
  {
    SweepsKeepAnswers(c, map[], map[], es, now);
    SweepFree(es, now);
    assert Tally(c, map[], ip, t, 0, 0);
    BoundFrom(c, map[], WithoutSweeps(es), ip, t, 0, now);
  }

  // ---- The bound is attained ----

  function Burst(ip: string, at: int, n: nat): seq<Event> {
    if n == 0 then [] else [Request(ip, at, at)] + Burst(ip, at, n - 1)
  }

  lemma AllowedStep(c: Config, m: Counters, e: Event, m': Counters, rest: seq<Event>, t: int)
    requires e.Request? && Allow(c, m, e.ip, e.at, e.again) == (m', true) && t <= e.at <= t + c.window
    ensures AllowedIn(c, m, [e] + rest, e.ip, t) == 1 + AllowedIn(c, m', rest, e.ip, t)
  {
    assert ([e] + rest)[1..] == rest;
  }

  lemma CountOne(c: Config, base: Counters, ip: string, k: int, reset: int, at: int)
    requires at <= reset && k < c.limit
    ensures Allow(c, base[ip := Counter(k, reset)], ip, at, at) == (base[ip := Counter(k + 1, reset)], true)
  {
    assert base[ip := Counter(k, reset)][ip := Counter(k + 1, reset)] == base[ip := Counter(k + 1, reset)];
  }

  /** A burst that the current window still has room for is allowed to the last request. */
  lemma {:induction false} BurstAllowed(c: Config, base: Counters, ip: string, k: int, reset: int, at: int, n: nat,
                                        rest: seq<Event>, t: int)
    requires at <= reset && k + n <= c.limit && t <= at <= t + c.window
    ensures AllowedIn(c, base[ip := Counter(k, reset)], Burst(ip, at, n) + rest, ip, t)
            == n + AllowedIn(c, base[ip := Counter(k + n, reset)], rest, ip, t)
    decreases n
  {
    if n == 0 {
      assert [] + rest == rest;
    } else {
      var e, tail := Request(ip, at, at), Burst(ip, at, n - 1) + rest;
      assert Burst(ip, at, n) + rest == [e] + tail;
      CountOne(c, base, ip, k, reset, at);
      AllowedStep(c, base[ip := Counter(k, reset)], e, base[ip := Counter(k + 1, reset)], tail, t);
      BurstAllowed(c, base, ip, k + 1, reset, at, n - 1, rest, t);
    }
  }

  lemma {:induction false} BurstMonotone(ip: string, at: int, n: nat, rest: seq<Event>, now: int)
    requires now <= at && Monotone(rest, at)
    ensures Monotone(Burst(ip, at, n) + rest, now)
    decreases n
  {
    if n == 0 {
      assert [] + rest == rest;
      MonotoneEarlier(rest, at, now);
    } else {
      BurstMonotone(ip, at, n - 1, rest, at);
      assert (Burst(ip, at, n) + rest)[1..] == Burst(ip, at, n - 1) + rest;
    }
  }

  /** One request opens a window; the others it has room for come at its very end, and a full burst just after it. */
  function Worst(c: Config, ip: string): seq<Event>
    requires c.limit >= 1
  {
    [Request(ip, 0, 0)] + (Burst(ip, c.window, c.limit - 1) + (Burst(ip, c.window + 1, c.limit) + []))
  }

  /** For every limit of at least 1 and every window of at least one clock tick the bound is attained. */
  lemma BoundIsAttained(c: Config, ip: string)
    requires c.limit >= 1 && c.window >= 1
    ensures Monotone(Worst(c, ip), 0) && AllowedIn(c, map[], Worst(c, ip), ip, 1) == 2 * c.Most() - 1
  {
    var last := Burst(ip, c.window + 1, c.limit) + [];
    var rest := Burst(ip, c.window, c.limit - 1) + last;
    BurstMonotone(ip, c.window + 1, c.limit, [], c.window);
    BurstMonotone(ip, c.window, c.limit - 1, last, 0);
    assert Worst(c, ip)[1..] == rest;
    AllowedFirst(c, map[], ip, 0, rest, 1);
    BurstAllowed(c, map[], ip, 1, c.window, c.window, c.limit - 1, last, 1);
    SecondBurst(c, map[ip := Counter(c.limit, c.window)], ip);
  }

  /** A request that opens a window before the interval is not counted. */
  lemma AllowedFirst(c: Config, m: Counters, ip: string, at: int, rest: seq<Event>, t: int)
    requires ip !in m && at < t
    ensures AllowedIn(c, m, [Request(ip, at, at)] + rest, ip, t) == AllowedIn(c, m[ip := Counter(1, at + c.window)], rest, ip, t)
  {
    assert ([Request(ip, at, at)] + rest)[1..] == rest;
  }

  /** The first request after the window opens another one. */
  lemma SecondBurst(c: Config, m: Counters, ip: string)
    requires c.limit >= 1 && c.window >= 1 && ip in m && m[ip].resetTime == c.window
    ensures AllowedIn(c, m, Burst(ip, c.window + 1, c.limit) + [], ip, 1) == c.limit
  {
    var at := c.window + 1;
    var e, tail := Request(ip, at, at), Burst(ip, at, c.limit - 1) + [];
    assert Burst(ip, at, c.limit) + [] == [e] + tail;
    AllowedStep(c, m, e, m[ip := Counter(1, at + c.window)], tail, 1);
    BurstAllowed(c, m, ip, 1, at + c.window, at, c.limit - 1, [], 1);
  }
}
