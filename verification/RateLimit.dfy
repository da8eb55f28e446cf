/**
 * The fixed-window rate limiter of app/middleware/ratelimit.go: one counter
 * per caller and window, kept in Redis under a key that expires.
 */
module RateLimit {
  import opened Clock
  import opened Wrappers
  import opened Ordering
  import Redis

  type Identity = string

  datatype Config = Config(enabled: bool, max: int, window: Time) {
    /** Otherwise the middleware does nothing. */
    predicate Limits() { enabled && max > 0 }

    /** The length of a window in whole seconds. */
    function Width(): int {
      if window < SECOND then 1 else window / SECOND
    }

    /** EXPIRE takes whole seconds; the client rounds a positive fraction of one second up. */
    function Ttl(): Time {
      if window <= 0 then 0 else Width() * SECOND
    }

    function Bucket(t: Time): int { Unix(t) / Width() }

    function End(bucket: int): Time { (bucket + 1) * Width() * SECOND }
  }

  datatype Request = Request(id: Identity, at: Time)

  /** How many of the logged requests are the caller's, in that window. */
  function Hits(cfg: Config, log: seq<Request>, id: Identity, bucket: int): nat {
    if log == [] then 0
    else
      var last := log[|log| - 1];
      Hits(cfg, log[..|log| - 1], id, bucket) + (if last.id == id && cfg.Bucket(last.at) == bucket then 1 else 0)
  }

  /** Whether the last request of the log is let through: it is among the first Max of its window. */
  predicate Passes(cfg: Config, log: seq<Request>)
    requires log != []
  {
    var last := log[|log| - 1];
    !cfg.Limits() || cfg.window <= 0 || Hits(cfg, log, last.id, cfg.Bucket(last.at)) <= cfg.max
  }

  /** How many requests of the log that `which` selects were let through. */
  function Admitted(cfg: Config, which: Request -> bool, log: seq<Request>): nat {
    if log == [] then 0
    else Admitted(cfg, which, log[..|log| - 1]) + (if which(log[|log| - 1]) && Passes(cfg, log) then 1 else 0)
  }

  function InBucket(cfg: Config, id: Identity, bucket: int): Request -> bool {
    (r: Request) => r.id == id && cfg.Bucket(r.at) == bucket
  }

  function Within(id: Identity, from: Time, length: Time): Request -> bool {
    (r: Request) => r.id == id && from <= r.at < from + length
  }

  /** A window is as many whole seconds as the configuration has room for, and one at least. */
  lemma WidthIsWholeSeconds(cfg: Config)
    ensures cfg.window >= SECOND ==> cfg.Width() * SECOND <= cfg.window < (cfg.Width() + 1) * SECOND
    ensures cfg.window < SECOND ==> cfg.Width() == 1
  {
  }

  /** The counted requests of a window, by when they came: windows follow each other from the epoch on. */
  lemma {:induction false} HitsAreInTheWindow(cfg: Config, log: seq<Request>, id: Identity, bucket: int)
    requires forall r <- log :: r.at >= 0
    ensures Hits(cfg, log, id, bucket) ==
      |Filter((r: Request) => r.id == id && bucket * cfg.Width() <= r.at / SECOND < (bucket + 1) * cfg.Width(), log)|
  {
    var which := (r: Request) => r.id == id && bucket * cfg.Width() <= r.at / SECOND < (bucket + 1) * cfg.Width();
    if log != [] {
      var n := |log| - 1;
      assert log[n] in log;
      HitsAreInTheWindow(cfg, log[..n], id, bucket);
      SecondsOfBucket(log[n].at / SECOND, cfg.Width(), bucket);
      assert log == log[..n] + [log[n]];
      FilterConcat(which, log[..n], [log[n]]);
      assert Filter(which, [log[n]]) == if which(log[n]) then [log[n]] else [];
    }
  }

  lemma SecondsOfBucket(s: int, w: int, bucket: int)
    requires w >= 1
    ensures s / w == bucket <==> bucket * w <= s < (bucket + 1) * w
  {
    assert s == w * (s / w) + s % w;
    if s / w < bucket {
      Cross(s / w + 1, bucket, w);
    } else if s / w > bucket {
      Cross(bucket + 1, s / w, w);
    }
  }

  lemma Cross(a: int, b: int, w: int)
    requires a <= b && w >= 0
    ensures a * w <= b * w
  {
  }

  lemma BucketHolds(cfg: Config, t: Time)
    requires t >= 0
    ensures cfg.End(cfg.Bucket(t) - 1) <= t < cfg.End(cfg.Bucket(t))
  {
    var w, s := cfg.Width(), Unix(t);
    assert s == w * (s / w) + s % w;
    assert cfg.Bucket(t) * w <= s < cfg.Bucket(t) * w + w;
    assert (cfg.Bucket(t) + 1) * w == cfg.Bucket(t) * w + w;
  }

  lemma BucketIsUnique(cfg: Config, t: Time, bucket: int)
    requires t >= 0 && cfg.End(bucket - 1) <= t < cfg.End(bucket)
    ensures cfg.Bucket(t) == bucket
  {
    BucketHolds(cfg, t);
    var w, b := cfg.Width(), cfg.Bucket(t);
    if b < bucket {
      Scale(b + 1, bucket, w);
    } else if b > bucket {
      Scale(bucket + 1, b, w);
    }
  }

  lemma Scale(a: int, b: int, w: int)
    requires a <= b && w >= 0
    ensures a * w * SECOND <= b * w * SECOND
  {
    assert a * w <= b * w;
  }

  /** Of every window's requests exactly Max, or all if they are fewer, are let through. */
  lemma {:induction false} FirstMaxPass(cfg: Config, log: seq<Request>, id: Identity, bucket: int)
    requires cfg.enabled && cfg.max > 0 && cfg.window > 0
    ensures var hits := Hits(cfg, log, id, bucket);
      Admitted(cfg, InBucket(cfg, id, bucket), log) == if hits < cfg.max then hits else cfg.max
  {
    if log != [] {
      FirstMaxPass(cfg, log[..|log| - 1], id, bucket);
    }
  }

  /** A span as long as one window meets at most two windows. */
  lemma {:induction false} SpanMeetsTwoBuckets(cfg: Config, log: seq<Request>, id: Identity, from: Time)
    requires from >= 0
    ensures Admitted(cfg, Within(id, from, cfg.Width() * SECOND), log)
      <= Admitted(cfg, InBucket(cfg, id, cfg.Bucket(from)), log)
         + Admitted(cfg, InBucket(cfg, id, cfg.Bucket(from) + 1), log)
  {
    if log != [] {
      SpanMeetsTwoBuckets(cfg, log[..|log| - 1], id, from);
      var t := log[|log| - 1].at;
      if from <= t < from + cfg.Width() * SECOND {
        TwoBuckets(cfg, from, t);
      }
    }
  }

  lemma TwoBuckets(cfg: Config, from: Time, t: Time)
    requires 0 <= from <= t < from + cfg.Width() * SECOND
    ensures cfg.Bucket(t) == cfg.Bucket(from) || cfg.Bucket(t) == cfg.Bucket(from) + 1
  {
    var b := cfg.Bucket(from);
    BucketHolds(cfg, from);
    assert cfg.End(b + 1) == cfg.End(b) + cfg.Width() * SECOND by {
      assert (b + 2) * cfg.Width() == (b + 1) * cfg.Width() + cfg.Width();
    }
    if t < cfg.End(b) {
      BucketIsUnique(cfg, t, b);
    } else {
      BucketIsUnique(cfg, t, b + 1);
    }
  }

  /** The burst at a window boundary is bounded: no span of one window's length sees more than 2 * Max. */
  lemma AtMostTwiceMax(cfg: Config, log: seq<Request>, id: Identity, from: Time)
    requires cfg.enabled && cfg.max > 0 && cfg.window > 0 && from >= 0
    ensures Admitted(cfg, Within(id, from, cfg.Width() * SECOND), log) <= 2 * cfg.max
  {
    SpanMeetsTwoBuckets(cfg, log, id, from);
    FirstMaxPass(cfg, log, id, cfg.Bucket(from));
    FirstMaxPass(cfg, log, id, cfg.Bucket(from) + 1);
  }

  /** n requests of one caller at one instant. */
  function Burst(id: Identity, at: Time, n: nat): seq<Request> {
    seq(n, _ => Request(id, at))
  }

  lemma {:induction false} BurstPasses(
      cfg: Config, log: seq<Request>, id: Identity, at: Time, n: nat, which: Request -> bool)
    requires cfg.Limits() && n <= cfg.max && Hits(cfg, log, id, cfg.Bucket(at)) == 0 && which(Request(id, at))
    ensures Admitted(cfg, which, log + Burst(id, at, n)) == Admitted(cfg, which, log) + n
    ensures forall b ::
      Hits(cfg, log + Burst(id, at, n), id, b) == Hits(cfg, log, id, b) + if b == cfg.Bucket(at) then n else 0
  {
    var all := log + Burst(id, at, n);
    if n == 0 {
      assert all == log;
    } else {
      BurstPasses(cfg, log, id, at, n - 1, which);
      assert all[..|all| - 1] == log + Burst(id, at, n - 1);
      assert all[|all| - 1] == Request(id, at);
    }
  }

  /** ... and that bound is reached: Max requests just before the boundary and Max just after all pass. */
  lemma TwiceMaxIsReached(cfg: Config, id: Identity)
    requires cfg.enabled && cfg.max > 0 && cfg.window > 0
    ensures var edge := cfg.Width() * SECOND;
      var log := Burst(id, edge - 1, cfg.max) + Burst(id, edge, cfg.max);
      Admitted(cfg, Within(id, edge - 1, edge), log) == 2 * cfg.max
  {
    var edge := cfg.Width() * SECOND;
    BucketIsUnique(cfg, edge - 1, 0);
    BucketIsUnique(cfg, edge, 1);
    var which := Within(id, edge - 1, edge);
    BurstPasses(cfg, [], id, edge - 1, cfg.max, which);
    assert [] + Burst(id, edge - 1, cfg.max) == Burst(id, edge - 1, cfg.max);
    BurstPasses(cfg, Burst(id, edge - 1, cfg.max), id, edge, cfg.max, which);
  }

  /** The limits hold only for a positive window: otherwise EXPIRE deletes the counter at once and everything passes. */
  lemma {:induction false} NoWindowNoLimit(cfg: Config, log: seq<Request>, which: Request -> bool)
    requires cfg.window <= 0 && forall r :: which(r)
    ensures Admitted(cfg, which, log) == |log|
  {
    if log != [] {
      NoWindowNoLimit(cfg, log[..|log| - 1], which);
    }
  }

  type Key = (Identity, int)

  /** Until its window is over, a counter is there and holds the number of its window's requests. */
  ghost predicate Agree(cfg: Config, counters: map<Key, Redis.Entry<int>>, log: seq<Request>, clock: Time) {
    && (forall id, b :: Hits(cfg, log, id, b) > 0 && cfg.window > 0 && clock < cfg.End(b) ==> (id, b) in counters)
    && (forall k :: k in counters ==>
          && cfg.window > 0 && counters[k].value == Hits(cfg, log, k.0, k.1)
          && cfg.End(k.1) <= counters[k].deadline <= clock + cfg.Ttl())
  }

  /** One request more in a log. */
  lemma HitsGrow(cfg: Config, log: seq<Request>, r: Request)
    ensures forall id, b ::
      Hits(cfg, log + [r], id, b) == Hits(cfg, log, id, b) + (if r.id == id && cfg.Bucket(r.at) == b then 1 else 0)
  {
    assert (log + [r])[..|log|] == log;
  }

  /** The first request of a window starts a key that outlives the window. */
  lemma KeyOutlivesWindow(cfg: Config, now: Time)
    requires now >= 0 && cfg.window > 0
    ensures cfg.Ttl() > 0 && cfg.End(cfg.Bucket(now)) <= now + cfg.Ttl()
  {
    BucketHolds(cfg, now);
    FullWidth(cfg, cfg.Bucket(now));
  }

  /** Counting one request, with its key's deadline at or after the end of its window. */
  lemma CountingAgrees(cfg: Config, counters: map<Key, Redis.Entry<int>>, log: seq<Request>, r: Request, deadline: Time)
    requires Agree(cfg, counters, log, r.at) && cfg.window > 0
    requires cfg.End(cfg.Bucket(r.at)) <= deadline <= r.at + cfg.Ttl()
    ensures var counter := Redis.Entry(Hits(cfg, log, r.id, cfg.Bucket(r.at)) + 1, deadline);
      Agree(cfg, counters[(r.id, cfg.Bucket(r.at)) := counter], log + [r], r.at)
  {
    HitsGrow(cfg, log, r);
  }

  /** Redis reports the rest of a key's life in whole seconds, rounded to the nearest. */
  function SecondsLeft(deadline: Time, now: Time): int {
    (deadline - now + SECOND / 2) / SECOND
  }

  /** int64(d.Seconds()) rounds towards zero. */
  function WholeSeconds(d: Time): int {
    if d >= 0 then d / SECOND else -((-d) / SECOND)
  }

  /** The reported rest leads into a later window, give or take half a second, and is never longer than a window. */
  lemma RestLeavesTheWindow(cfg: Config, now: Time, deadline: Time)
    requires cfg.window > 0 && now >= 0 && cfg.End(cfg.Bucket(now)) <= deadline <= now + cfg.Ttl()
    ensures 0 <= SecondsLeft(deadline, now) <= cfg.Width()
    ensures cfg.End(cfg.Bucket(now)) <= now + SecondsLeft(deadline, now) * SECOND + SECOND / 2
  {
    BucketHolds(cfg, now);
  }

  /** What Redis still holds at an instant. */
  function Alive(counters: map<Key, Redis.Entry<int>>, now: Time): map<Key, Redis.Entry<int>> {
    map k | k in counters && now < counters[k].deadline :: counters[k]
  }

  lemma AliveAgrees(cfg: Config, counters: map<Key, Redis.Entry<int>>, log: seq<Request>, was: Time, now: Time)
    requires Agree(cfg, counters, log, was) && was <= now
    ensures Agree(cfg, Alive(counters, now), log, now)
  {
  }

  lemma WholeSecondsOfSeconds(n: int)
    requires n >= 0
    ensures WholeSeconds(n * SECOND) == n
  {
  }

  /** The X-RateLimit headers; Retry-After repeats the reset on a refusal. */
  datatype Headers = Headers(limit: int, remaining: int, reset: int)

  datatype RedisError = Unavailable

  /** The middleware with its Redis keys. */
  class Limiter {
    const cfg: Config
    var counters: map<Key, Redis.Entry<int>>
    /** What was counted so far. */
    ghost var log: seq<Request>
    ghost var clock: Time

    ghost predicate Valid()
      reads this
    {
      clock >= 0 && Agree(cfg, counters, log, clock)
    }

    constructor (cfg: Config)
      ensures Valid() && this.cfg == cfg && log == [] && clock == 0
    {
      this.cfg := cfg;
      counters := map[];
      log := [];
      clock := 0;
    }

    /** One request; `down` says that Redis cannot be reached. */
    method Handle(id: Identity, now: Time, down: bool) returns (admitted: bool, headers: Option<Headers>)
      requires Valid() && now >= clock
      modifies this
      ensures Valid() && clock == now
      ensures !(cfg.enabled && cfg.max > 0) || down ==> admitted && headers == None && log == old(log)
      ensures cfg.enabled && cfg.max > 0 && !down ==>
        && log == old(log) + [Request(id, now)] && (admitted <==> Passes(cfg, log))
        && headers.Some? && headers.value.limit == cfg.max
      ensures cfg.enabled && cfg.max > 0 && !down && cfg.window > 0 ==>
        && headers.value.remaining == Max(0, cfg.max - Hits(cfg, log, id, cfg.Bucket(now)))
        && 0 <= headers.value.reset <= cfg.Width()
        && cfg.End(cfg.Bucket(now)) <= now + headers.value.reset * SECOND + SECOND / 2
      ensures cfg.enabled && cfg.max > 0 && !down && cfg.window <= 0 ==>
        && headers.value.remaining == cfg.max - 1
        && cfg.window <= headers.value.reset * SECOND <= 0 && headers.value.reset * SECOND < cfg.window + SECOND
    {
      AliveAgrees(cfg, counters, log, clock, now);
      clock := now;
      counters := Alive(counters, now);
      if !cfg.Limits() {
        return true, None;
      }
      var counted := IncrementWindow(id, cfg.Bucket(now), now, down);
      if counted.Err? {
        return true, None;
      }
      var (count, ttl) := counted.value;
      if cfg.window > 0 {
        WholeSecondsOfSeconds(ttl / SECOND);
      }
      headers := Some(Headers(cfg.max, Max(0, cfg.max - count), WholeSeconds(ttl)));
      admitted := count <= cfg.max;
    }

    /** INCR, then EXPIRE NX, then TTL, in one transaction. */
    method IncrementWindow(
        id: Identity, bucket: int, now: Time, down: bool) returns (r: Result<(int, Time), RedisError>)
      requires Valid() && cfg.Limits() && now == clock && bucket == cfg.Bucket(now)
      modifies this`counters, this`log
      ensures Valid()
      ensures down ==> r == Err(Unavailable) && log == old(log) && counters == old(counters)
      ensures !down ==> r.Ok? && log == old(log) + [Request(id, now)]
      ensures !down && cfg.window > 0 ==>
        && r.value.0 == Hits(cfg, log, id, bucket) && r.value.1 % SECOND == 0 && 0 <= r.value.1 <= cfg.Ttl()
        && cfg.End(bucket) <= now + r.value.1 + SECOND / 2
      ensures !down && cfg.window <= 0 ==> r.value == (1, cfg.window)
    {
      if down {
        return Err(Unavailable);
      }
      var key: Key := (id, bucket);
      HitsGrow(cfg, log, Request(id, now));
      if cfg.window > 0 {
        KeyOutlivesWindow(cfg, now);
        BucketHolds(cfg, now);
      }
      var count := 1;
      var ttl := -1;
      if key in counters {
        count := counters[key].value + 1;
        ttl := Recount(id, now, count, counters[key].deadline);
      } else if cfg.Ttl() > 0 {
        ttl := Recount(id, now, 1, now + cfg.Ttl());
      }
      log := log + [Request(id, now)];
      // Without a key there is no time left to report.
      r := Ok((count, if ttl < 0 then cfg.window else ttl));
    }

    /** Stores the counter and reads its time to live; the caller's log entry follows. */
    method Recount(id: Identity, now: Time, count: int, deadline: Time) returns (ttl: Time)
      requires cfg.window > 0 && now == clock >= 0 && Agree(cfg, counters, log, clock)
      requires count == Hits(cfg, log, id, cfg.Bucket(now)) + 1
      requires cfg.End(cfg.Bucket(now)) <= deadline <= now + cfg.Ttl()
      modifies this`counters
      ensures Agree(cfg, counters, log + [Request(id, now)], clock)
      ensures ttl % SECOND == 0 && 0 <= ttl <= cfg.Ttl() && cfg.End(cfg.Bucket(now)) <= now + ttl + SECOND / 2
    {
      CountingAgrees(cfg, counters, log, Request(id, now), deadline);
      RestLeavesTheWindow(cfg, now, deadline);
      counters := counters[(id, cfg.Bucket(now)) := Redis.Entry(count, deadline)];
      ttl := SecondsLeft(deadline, now) * SECOND;
    }
  }

  lemma FullWidth(cfg: Config, bucket: int)
    ensures cfg.End(bucket) == cfg.End(bucket - 1) + cfg.Width() * SECOND
  {
    assert (bucket + 1) * cfg.Width() == bucket * cfg.Width() + cfg.Width();
  }

  function Max(a: int, b: int): int {
    if a < b then b else a
  }
}
