/** The per-client token-bucket rate limiter with lazy refill and pruning, over exact reals. */
module RateLimit {
  import opened ByteStrings

  datatype Class = Api | Login

  datatype Limit = Limit(refill: real, burst: nat)

  datatype Bucket = Bucket(tokens: real, last: real)

  type Table = map<string, Bucket>

  datatype Config = Config(enabled: bool, requestsPerMinute: nat, burst: nat, loginPerMinute: nat, loginBurst: nat)

  datatype Limits = Limits(enabled: bool, api: Limit, login: Limit, maxKeys: nat)

  function AtLeast(x: real, low: real): (r: real) {
    if x < low then low else x
  }

  /** `RateLimiter::new` */
  function LimitsOf(cfg: Config): (l: Limits)
    ensures Valid(l) && l.maxKeys == 50_000
  {
    Limits(cfg.enabled,
           Limit(AtLeast(cfg.requestsPerMinute as real / 60.0, 0.001), if cfg.burst == 0 then 1 else cfg.burst),
           Limit(AtLeast(cfg.loginPerMinute as real / 60.0, 0.001), if cfg.loginBurst == 0 then 1 else cfg.loginBurst),
           50_000)
  }

  predicate Valid(l: Limits) {
    l.api.refill > 0.0 && l.api.burst >= 1 && l.login.refill > 0.0 && l.login.burst >= 1
  }

  function LimitFor(l: Limits, c: Class): (r: Limit)
    requires Valid(l)
    ensures r.refill > 0.0 && r.burst >= 1
  {
    if c.Api? then l.api else l.login
  }

  /** How long an idle bucket takes to fill up from empty. */
  function Idle(l: Limits, c: Class): (r: real)
    requires Valid(l)
    ensures r > 0.0
  {
    LimitFor(l, c).burst as real / LimitFor(l, c).refill
  }

  function Key(c: Class, ip: string): (r: string) {
    (if c.Api? then "api" else "login") + ":" + ip
  }

  lemma KeyInjective(c: Class, ip: string, d: Class, jp: string)
    requires Key(c, ip) == Key(d, jp)
    ensures c == d && ip == jp
  {
    assert Key(c, ip)[0] == if c.Api? then 'a' else 'l';
    assert Key(d, jp)[0] == if d.Api? then 'a' else 'l';
    var n := if c.Api? then 4 else 6;
    assert Key(c, ip)[n..] == ip && Key(d, jp)[n..] == jp;
  }

  /** `Instant::duration_since`, which saturates at zero. */
  function Elapsed(now: real, last: real): (d: real)
    ensures d >= 0.0
  {
    if now > last then now - last else 0.0
  }

  function Min(x: real, y: real): (r: real) {
    if x <= y then x else y
  }

  function Refilled(lim: Limit, b: Bucket, now: real): (tokens: real) {
    Min(b.tokens + Elapsed(now, b.last) * lim.refill, lim.burst as real)
  }

  /** Drop the keys idle for at least the checked class's fill time, if the table is too large. */
  function Pruned(l: Limits, t: Table, c: Class, now: real): (r: Table)
    requires Valid(l)
  {
    if |t| > l.maxKeys then map k | k in t && Elapsed(now, t[k].last) < Idle(l, c) :: t[k] else t
  }

  /** The bucket a key is judged by: a new key starts with a full one. */
  function Held(lim: Limit, t: Table, key: string, now: real): (b: Bucket) {
    if key in t then t[key] else Bucket(lim.burst as real, now)
  }

  /** Refill, cap and consume one bucket. */
  function Spent(lim: Limit, b: Bucket, now: real): (r: (Bucket, bool)) {
    var tokens := Refilled(lim, b, now);
    if tokens >= 1.0 then (Bucket(tokens - 1.0, now), true) else (Bucket(tokens, now), false)
  }

  function Consumed(lim: Limit, t: Table, key: string, now: real): (r: (Table, bool)) {
    var (b, ok) := Spent(lim, Held(lim, t, key, now), now);
    (t[key := b], ok)
  }

  /** `check_at` on values. */
  function Checked(l: Limits, t: Table, c: Class, ip: string, now: real): (r: (Table, bool))
    requires Valid(l)
  {
    if !l.enabled then (t, true) else Consumed(LimitFor(l, c), Pruned(l, t, c, now), Key(c, ip), now)
  }

  class RateLimiter {
    const limits: Limits
    var buckets: Table

    predicate IsValid() {
      Valid(limits)
    }

    constructor (cfg: Config)
      ensures IsValid() && limits == LimitsOf(cfg) && buckets == map[]
    {
      limits := LimitsOf(cfg);
      buckets := map[];
    }

    /** Bound the table: drop the keys that have been idle. */
    method Prune(c: Class, now: real)
      requires IsValid()
      modifies this
      ensures buckets == Pruned(limits, old(buckets), c, now)
    {
      if |buckets| > limits.maxKeys {
        var idleSecs := Idle(limits, c);
        buckets := map k | k in buckets && Elapsed(now, buckets[k].last) < idleSecs :: buckets[k];
      }
    }

    method Consume(lim: Limit, key: string, now: real) returns (allowed: bool)
      modifies this
      ensures (buckets, allowed) == Consumed(lim, old(buckets), key, now)
    {
      if key !in buckets {
        buckets := buckets[key := Bucket(lim.burst as real, now)];
      }
      var tokens := Refilled(lim, buckets[key], now);
      allowed := tokens >= 1.0;
      buckets := buckets[key := Bucket(if allowed then tokens - 1.0 else tokens, now)];
      assert buckets == old(buckets)[key := buckets[key]];
    }

    method CheckAt(c: Class, ip: string, now: real) returns (allowed: bool)
      requires IsValid()
      modifies this
      ensures (buckets, allowed) == Checked(limits, old(buckets), c, ip, now)
    {
      if !limits.enabled {
        return true;
      }
      Prune(c, now);
      allowed := Consume(LimitFor(limits, c), Key(c, ip), now);
    }
  }

  // ---- Runs ----

  datatype Request = Request(class_: Class, ip: string, now: real)

  function After(l: Limits, t: Table, reqs: seq<Request>): (r: Table)
    requires Valid(l)
    decreases |reqs|
  {
    if reqs == [] then t
    else After(l, Checked(l, t, reqs[0].class_, reqs[0].ip, reqs[0].now).0, reqs[1..])
  }

  predicate Mine(req: Request, c: Class, ip: string) {
    req.class_ == c && req.ip == ip
  }

  /** What a run decides about one client's requests of one class, in order. */
  function Decisions(l: Limits, t: Table, c: Class, ip: string, reqs: seq<Request>): (ds: seq<bool>)
    requires Valid(l)
    decreases |reqs|
  {
    if reqs == [] then []
    else
      var (t', ok) := Checked(l, t, reqs[0].class_, reqs[0].ip, reqs[0].now);
      (if Mine(reqs[0], c, ip) then [ok] else []) + Decisions(l, t', c, ip, reqs[1..])
  }

  /** When that client made those requests. */
  function Times(c: Class, ip: string, reqs: seq<Request>): (ts: seq<real>)
    decreases |reqs|
  {
    if reqs == [] then []
    else (if Mine(reqs[0], c, ip) then [reqs[0].now] else []) + Times(c, ip, reqs[1..])
  }

  function Count(ds: seq<bool>): (n: nat)
    decreases |ds|
  {
    if ds == [] then 0 else (if ds[0] then 1 else 0) + Count(ds[1..])
  }

  /** The clock does not run backwards. */
  ghost predicate OrderedFrom(start: real, reqs: seq<Request>)
    decreases |reqs|
  {
    reqs != [] ==> start <= reqs[0].now && OrderedFrom(reqs[0].now, reqs[1..])
  }

  ghost predicate Within(start: real, end: real, reqs: seq<Request>) {
    forall i :: 0 <= i < |reqs| ==> start <= reqs[i].now <= end
  }

  // ---- The reference: one client with a bucket of its own that is never dropped ----

  function Private(lim: Limit, b: Bucket, times: seq<real>): (ds: seq<bool>)
    decreases |times|
  {
    if times == [] then []
    else
      var (b', ok) := Spent(lim, b, times[0]);
      [ok] + Private(lim, b', times[1..])
  }

  function PrivateAfter(lim: Limit, b: Bucket, times: seq<real>): (r: Bucket)
    decreases |times|
  {
    if times == [] then b else PrivateAfter(lim, Spent(lim, b, times[0]).0, times[1..])
  }

  /** Each client of the class is served as by a private bucket: other clients, the other class
      and pruning do not matter. */
  ghost predicate Isolated(l: Limits, c: Class)
    requires Valid(l)
  {
    forall ip, start, reqs :: ServedPrivately(l, c, ip, start, reqs)
  }

  ghost predicate ServedPrivately(l: Limits, c: Class, ip: string, start: real, reqs: seq<Request>)
    requires Valid(l)
  {
    OrderedFrom(start, reqs) ==>
      Decisions(l, map[], c, ip, reqs) == Private(LimitFor(l, c), Bucket(LimitFor(l, c).burst as real, start), Times(c, ip, reqs))
  }

  ghost predicate Ordered(reqs: seq<Request>) {
    reqs != [] ==> OrderedFrom(reqs[0].now, reqs)
  }

  /** The burst plus the refill of a duration. */
  function Quota(lim: Limit, d: real): (r: real) {
    lim.burst as real + d * lim.refill
  }

  /** In every window of every run a client gets at most the burst plus the refill of the window. */
  ghost predicate WithinRate(l: Limits, c: Class)
    requires Valid(l)
  {
    forall ip, before, window, start, end ::
      Ordered(before + window) && Within(start, end, window) && start <= end ==>
        WindowBound(l, c, ip, before, window, start, end)
  }

  ghost predicate WindowBound(l: Limits, c: Class, ip: string, before: seq<Request>, window: seq<Request>, start: real, end: real)
    requires Valid(l)
  {
    Count(Decisions(l, After(l, map[], before), c, ip, window)) as real <= Quota(LimitFor(l, c), end - start)
  }

  // ---- Arithmetic of one bucket ----

  lemma ScaledSum(x: real, y: real, r: real)
    ensures (x + y) * r == x * r + y * r
  {
  }

  lemma ScaledPositive(x: real, r: real)
    requires x >= 0.0 && r >= 0.0
    ensures x * r >= 0.0
  {
  }

  ghost predicate Sane(lim: Limit, b: Bucket, now: real) {
    0.0 <= b.tokens <= lim.burst as real && b.last <= now
  }

  /** Waiting adds the refill of the wait, capped; when the refill is computed does not matter. */
  lemma RefilledLater(lim: Limit, b: Bucket, now: real, later: real)
    requires Sane(lim, b, now) && now <= later && lim.refill > 0.0
    ensures Refilled(lim, b, later) == Min(Refilled(lim, b, now) + (later - now) * lim.refill, lim.burst as real)
    ensures 0.0 <= Refilled(lim, b, now) <= lim.burst as real
  {
    ScaledPositive(later - now, lim.refill);
    ScaledPositive(now - b.last, lim.refill);
    ScaledSum(now - b.last, later - now, lim.refill);
    assert (now - b.last) + (later - now) == later - b.last;
    assert Elapsed(now, b.last) == now - b.last && Elapsed(later, b.last) == later - b.last;
  }

  /** Two buckets that hold as much now are spent alike now, and hold as much later. */
  lemma SpentAlike(lim: Limit, a: Bucket, b: Bucket, now: real)
    requires Sane(lim, a, now) && Sane(lim, b, now) && lim.refill > 0.0
    requires Refilled(lim, a, now) == Refilled(lim, b, now)
    ensures Spent(lim, a, now) == Spent(lim, b, now) && Sane(lim, Spent(lim, a, now).0, now)
    ensures forall later :: now <= later ==> Refilled(lim, a, later) == Refilled(lim, b, later)
  {
    RefilledLater(lim, a, now, now);
    forall later | now <= later
      ensures Refilled(lim, a, later) == Refilled(lim, b, later)
    {
      RefilledLater(lim, a, now, later);
      RefilledLater(lim, b, now, later);
    }
  }

  lemma FillTime(lim: Limit, d: real)
    requires lim.refill > 0.0 && d >= lim.burst as real / lim.refill
    ensures d * lim.refill >= lim.burst as real
  {
    var x := lim.burst as real / lim.refill;
    assert x * lim.refill == lim.burst as real;
    ScaledPositive(d - x, lim.refill);
    ScaledSum(d - x, x, lim.refill);
    assert (d - x) + x == d;
  }

  lemma IdleIsFull(lim: Limit, b: Bucket, now: real)
    requires lim.refill > 0.0 && b.tokens >= 0.0 && Elapsed(now, b.last) >= lim.burst as real / lim.refill
    ensures Refilled(lim, b, now) == lim.burst as real
  {
    FillTime(lim, Elapsed(now, b.last));
  }

  // ---- Isolation ----

  /** The table agrees with a private bucket on what the key can spend. */
  ghost predicate Matches(lim: Limit, t: Table, key: string, b: Bucket, now: real) {
    Sane(lim, Held(lim, t, key, now), now) && Sane(lim, b, now) && Refilled(lim, Held(lim, t, key, now), now) == Refilled(lim, b, now)
  }

  lemma MatchesLater(lim: Limit, t: Table, key: string, b: Bucket, now: real, later: real)
    requires lim.refill > 0.0 && now <= later && Matches(lim, t, key, b, now)
    ensures Matches(lim, t, key, b, later)
  {
    SpentAlike(lim, Held(lim, t, key, now), b, now);
    RefilledLater(lim, b, now, later);
    if key !in t {
      FullStays(lim, now, later);
      FullStays(lim, later, later);
    }
  }

  lemma FullStays(lim: Limit, now: real, later: real)
    requires lim.refill > 0.0
    ensures Refilled(lim, Bucket(lim.burst as real, now), later) == lim.burst as real
  {
    ScaledPositive(Elapsed(later, now), lim.refill);
  }

  function Other(c: Class): (d: Class) {
    if c.Api? then Login else Api
  }

  /** An empty bucket of class `c` is full again no later than one of the other class. */
  predicate FillsFaster(l: Limits, c: Class)
    requires Valid(l)
  {
    Idle(l, c) <= Idle(l, Other(c))
  }

  /** A check of class `trigger` forgets no bucket of class `c` that is not full again. */
  predicate PrunesSafely(l: Limits, trigger: Class, c: Class)
    requires Valid(l)
  {
    Idle(l, c) <= Idle(l, trigger)
  }

  /** Every request of a run prunes safely for class `c`. */
  ghost predicate AllPruneSafely(l: Limits, reqs: seq<Request>, c: Class)
    requires Valid(l)
  {
    forall i :: 0 <= i < |reqs| ==> PrunesSafely(l, reqs[i].class_, c)
  }

  /** Pruning in a check of class `trigger` does not change what a key of class `c` can spend, if
      buckets of `c` fill up at least as fast. */
  lemma PruneHarmless(l: Limits, t: Table, trigger: Class, c: Class, key: string, b: Bucket, now: real)
    requires Valid(l) && PrunesSafely(l, trigger, c)
    requires Matches(LimitFor(l, c), t, key, b, now)
    ensures Matches(LimitFor(l, c), Pruned(l, t, trigger, now), key, b, now)
  {
    var lim := LimitFor(l, c);
    if key in t && key !in Pruned(l, t, trigger, now) {
      IdleIsFull(lim, t[key], now);
      FullStays(lim, now, now);
    }
  }

  /** One request, seen from one client. */
  lemma StepMatches(l: Limits, t: Table, req: Request, c: Class, ip: string, b: Bucket)
    requires Valid(l) && l.enabled && PrunesSafely(l, req.class_, c)
    requires Matches(LimitFor(l, c), t, Key(c, ip), b, req.now)
    ensures var (t', ok) := Checked(l, t, req.class_, req.ip, req.now);
            var (b', own) := Spent(LimitFor(l, c), b, req.now);
            if Mine(req, c, ip) then ok == own && Matches(LimitFor(l, c), t', Key(c, ip), b', req.now)
            else Matches(LimitFor(l, c), t', Key(c, ip), b, req.now)
  {
    var lim, p := LimitFor(l, c), Pruned(l, t, req.class_, req.now);
    PruneHarmless(l, t, req.class_, c, Key(c, ip), b, req.now);
    if Mine(req, c, ip) {
      SpentAlike(lim, Held(lim, p, Key(c, ip), req.now), b, req.now);
    } else if Key(req.class_, req.ip) == Key(c, ip) {
      KeyInjective(req.class_, req.ip, c, ip);
    }
  }

  lemma {:induction false} RunMatches(l: Limits, t: Table, c: Class, ip: string, b: Bucket, now: real, reqs: seq<Request>)
    requires Valid(l) && l.enabled && AllPruneSafely(l, reqs, c)
    requires OrderedFrom(now, reqs) && Matches(LimitFor(l, c), t, Key(c, ip), b, now)
    ensures Decisions(l, t, c, ip, reqs) == Private(LimitFor(l, c), b, Times(c, ip, reqs))
    decreases |reqs|
  {
    if reqs != [] {
      var req := reqs[0];
      MatchesLater(LimitFor(l, c), t, Key(c, ip), b, now, req.now);
      StepMatches(l, t, req, c, ip, b);
      var (t', ok) := Checked(l, t, req.class_, req.ip, req.now);
      if Mine(req, c, ip) {
        var b' := Spent(LimitFor(l, c), b, req.now).0;
        RunMatches(l, t', c, ip, b', req.now, reqs[1..]);
        assert Times(c, ip, reqs) == [req.now] + Times(c, ip, reqs[1..]);
      } else {
        RunMatches(l, t', c, ip, b, req.now, reqs[1..]);
        assert Times(c, ip, reqs) == Times(c, ip, reqs[1..]);
      }
    }
  }

  /** As long as only requests of its own class arrive, every class is served privately. */
  lemma SingleClassServedPrivately(l: Limits, c: Class, ip: string, start: real, reqs: seq<Request>)
    requires Valid(l) && l.enabled && forall i :: 0 <= i < |reqs| ==> reqs[i].class_ == c
    ensures ServedPrivately(l, c, ip, start, reqs)
  {
    if OrderedFrom(start, reqs) {
      RunMatches(l, map[], c, ip, Bucket(LimitFor(l, c).burst as real, start), start, reqs);
    }
  }

  /** Isolation holds for a class whose idle buckets fill up no slower than those of the other class. */
  lemma FastClassIsolated(l: Limits, c: Class)
    requires Valid(l) && l.enabled && FillsFaster(l, c)
    ensures Isolated(l, c)
  {
    forall ip, start, reqs
      ensures ServedPrivately(l, c, ip, start, reqs)
    {
      if OrderedFrom(start, reqs) {
        RunMatches(l, map[], c, ip, Bucket(LimitFor(l, c).burst as real, start), start, reqs);
      }
    }
  }

  // ---- Isolation bounds the rate ----

  ghost predicate RisesTo(times: seq<real>, first: real, last: real)
    decreases |times|
  {
    if times == [] then first <= last else first <= times[0] && RisesTo(times[1..], times[0], last)
  }

  /** A number of requests that some tokens and a time of refilling pay for. */
  ghost predicate FitsIn(n: nat, tokens: real, refill: real, d: real) {
    n as real <= tokens + d * refill
  }

  /** A private bucket hands out at most what it holds plus the refill. */
  lemma {:induction false} PrivateBound(lim: Limit, b: Bucket, times: seq<real>, now: real, end: real)
    requires lim.refill > 0.0 && lim.burst >= 1 && Sane(lim, b, now) && RisesTo(times, now, end)
    ensures now <= end && FitsIn(Count(Private(lim, b, times)), Refilled(lim, b, now), lim.refill, end - now)
    decreases |times|
  {
    RefilledLater(lim, b, now, now);
    if times == [] {
      ScaledPositive(end - now, lim.refill);
    } else {
      var t := times[0];
      RefilledLater(lim, b, now, t);
      RefilledLater(lim, b, t, t);
      var b' := Spent(lim, b, t).0;
      FreshlySpent(lim, b, t);
      PrivateBound(lim, b', times[1..], t, end);
      ScaledSum(t - now, end - t, lim.refill);
      assert (t - now) + (end - t) == end - now;
      assert Private(lim, b, times)[1..] == Private(lim, b', times[1..]);
    }
  }

  lemma BurstBound(lim: Limit, b: Bucket, times: seq<real>, now: real, end: real)
    requires lim.refill > 0.0 && lim.burst >= 1 && Sane(lim, b, now) && RisesTo(times, now, end)
    ensures Count(Private(lim, b, times)) as real <= Quota(lim, end - now)
  {
    PrivateBound(lim, b, times, now, end);
    Capped(Count(Private(lim, b, times)), lim, b, now, end - now);
  }

  lemma Capped(n: nat, lim: Limit, b: Bucket, now: real, d: real)
    requires FitsIn(n, Refilled(lim, b, now), lim.refill, d)
    ensures n as real <= Quota(lim, d)
  {
  }

  lemma FreshlySpent(lim: Limit, b: Bucket, now: real)
    requires Sane(lim, b, now) && lim.refill > 0.0
    ensures var (b', ok) := Spent(lim, b, now);
            Sane(lim, b', now) && Refilled(lim, b', now) == Refilled(lim, b, now) - (if ok then 1.0 else 0.0)
  {
    RefilledLater(lim, b, now, now);
  }

  lemma {:induction false} SaneAfter(lim: Limit, b: Bucket, times: seq<real>, now: real, end: real)
    requires lim.refill > 0.0 && Sane(lim, b, now) && RisesTo(times, now, end)
    ensures Sane(lim, PrivateAfter(lim, b, times), end)
    decreases |times|
  {
    if times != [] {
      FreshlySpent(lim, b, times[0]);
      SaneAfter(lim, Spent(lim, b, times[0]).0, times[1..], times[0], end);
    }
  }

  ghost predicate OrderedTo(start: real, reqs: seq<Request>, end: real)
    decreases |reqs|
  {
    if reqs == [] then start <= end else start <= reqs[0].now && OrderedTo(reqs[0].now, reqs[1..], end)
  }

  lemma {:induction false} SplitOrdered(start: real, a: seq<Request>, b: seq<Request>)
    requires OrderedFrom(start, a + b) && b != []
    ensures OrderedTo(start, a, b[0].now) && OrderedFrom(b[0].now, b)
    decreases |a|
  {
    if a == [] {
      assert a + b == b;
    } else {
      assert (a + b)[1..] == a[1..] + b;
      SplitOrdered(a[0].now, a[1..], b);
    }
  }

  lemma {:induction false} EndsBy(start: real, reqs: seq<Request>, from: real, end: real)
    requires OrderedFrom(start, reqs) && Within(from, end, reqs) && start <= end
    ensures OrderedTo(start, reqs, end)
    decreases |reqs|
  {
    if reqs != [] {
      EndsBy(reqs[0].now, reqs[1..], from, end);
    }
  }

  lemma {:induction false} TimesRise(c: Class, ip: string, start: real, reqs: seq<Request>, end: real)
    requires OrderedTo(start, reqs, end)
    ensures start <= end && RisesTo(Times(c, ip, reqs), start, end)
    decreases |reqs|
  {
    if reqs != [] {
      TimesRise(c, ip, reqs[0].now, reqs[1..], end);
      var rest := Times(c, ip, reqs[1..]);
      assert ([reqs[0].now] + rest)[1..] == rest;
      assert [] + rest == rest;
    }
  }

  lemma {:induction false} AfterAppend(l: Limits, t: Table, a: seq<Request>, b: seq<Request>)
    requires Valid(l)
    ensures After(l, t, a + b) == After(l, After(l, t, a), b)
    decreases |a|
  {
    if a == [] {
      assert a + b == b;
    } else {
      assert (a + b)[1..] == a[1..] + b;
      AfterAppend(l, Checked(l, t, a[0].class_, a[0].ip, a[0].now).0, a[1..], b);
    }
  }

  /** The decision on the first request of a run, if it is the client's. */
  function Own(l: Limits, t: Table, c: Class, ip: string, req: Request): (ds: seq<bool>)
    requires Valid(l)
  {
    if Mine(req, c, ip) then [Checked(l, t, req.class_, req.ip, req.now).1] else []
  }

  lemma FirstDecision(l: Limits, t: Table, c: Class, ip: string, reqs: seq<Request>)
    requires Valid(l) && reqs != []
    ensures Decisions(l, t, c, ip, reqs) == Own(l, t, c, ip, reqs[0]) + Decisions(l, Checked(l, t, reqs[0].class_, reqs[0].ip, reqs[0].now).0, c, ip, reqs[1..])
  {
  }

  lemma {:induction false} DecisionsAppend(l: Limits, t: Table, c: Class, ip: string, a: seq<Request>, b: seq<Request>)
    requires Valid(l)
    ensures Decisions(l, t, c, ip, a + b) == Decisions(l, t, c, ip, a) + Decisions(l, After(l, t, a), c, ip, b)
    decreases |a|
  {
    if a == [] {
      assert a + b == b;
    } else {
      assert (a + b)[1..] == a[1..] + b;
      var t' := Checked(l, t, a[0].class_, a[0].ip, a[0].now).0;
      DecisionsAppend(l, t', c, ip, a[1..], b);
      FirstDecision(l, t, c, ip, a);
      FirstDecision(l, t, c, ip, a + b);
      assert After(l, t, a) == After(l, t', a[1..]);
    }
  }

  lemma {:induction false} TimesAppend(c: Class, ip: string, a: seq<Request>, b: seq<Request>)
    ensures Times(c, ip, a + b) == Times(c, ip, a) + Times(c, ip, b)
    decreases |a|
  {
    if a == [] {
      assert a + b == b;
    } else {
      assert (a + b)[1..] == a[1..] + b;
      TimesAppend(c, ip, a[1..], b);
      var own := if Mine(a[0], c, ip) then [a[0].now] else [];
      assert Times(c, ip, a) == own + Times(c, ip, a[1..]);
      assert Times(c, ip, a + b) == own + Times(c, ip, a[1..] + b);
    }
  }

  lemma {:induction false} OneDecisionEach(l: Limits, t: Table, c: Class, ip: string, reqs: seq<Request>)
    requires Valid(l)
    ensures |Decisions(l, t, c, ip, reqs)| == |Times(c, ip, reqs)|
    decreases |reqs|
  {
    if reqs != [] {
      OneDecisionEach(l, Checked(l, t, reqs[0].class_, reqs[0].ip, reqs[0].now).0, c, ip, reqs[1..]);
    }
  }

  lemma {:induction false} PrivateAppend(lim: Limit, b: Bucket, xs: seq<real>, ys: seq<real>)
    ensures Private(lim, b, xs + ys) == Private(lim, b, xs) + Private(lim, PrivateAfter(lim, b, xs), ys)
    ensures |Private(lim, b, xs)| == |xs|
    decreases |xs|
  {
    if xs == [] {
      assert xs + ys == ys;
    } else {
      assert (xs + ys)[1..] == xs[1..] + ys;
      PrivateAppend(lim, Spent(lim, b, xs[0]).0, xs[1..], ys);
    }
  }

  /** In an isolated class a window is decided by a private bucket. */
  lemma WindowIsPrivate(l: Limits, c: Class, ip: string, start: real, before: seq<Request>, window: seq<Request>)
    requires Valid(l) && Isolated(l, c) && OrderedFrom(start, before + window)
    ensures Decisions(l, After(l, map[], before), c, ip, window)
         == Private(LimitFor(l, c),
                    PrivateAfter(LimitFor(l, c), Bucket(LimitFor(l, c).burst as real, start), Times(c, ip, before)),
                    Times(c, ip, window))
  {
    var lim, full := LimitFor(l, c), Bucket(LimitFor(l, c).burst as real, start);
    assert ServedPrivately(l, c, ip, start, before + window);
    DecisionsAppend(l, map[], c, ip, before, window);
    TimesAppend(c, ip, before, window);
    PrivateAppend(lim, full, Times(c, ip, before), Times(c, ip, window));
    OneDecisionEach(l, map[], c, ip, before);
    var n := |Times(c, ip, before)|;
    assert Decisions(l, map[], c, ip, before + window)[n..] == Decisions(l, After(l, map[], before), c, ip, window);
  }

  /** Whatever a client did before, its private bucket keeps to the rate in a window. */
  lemma PrivateWindow(lim: Limit, start: real, done: seq<real>, first: real, times: seq<real>, end: real)
    requires lim.refill > 0.0 && lim.burst >= 1 && RisesTo(done, start, first) && RisesTo(times, first, end)
    ensures Count(Private(lim, PrivateAfter(lim, Bucket(lim.burst as real, start), done), times)) as real
         <= Quota(lim, end - first)
  {
    var full := Bucket(lim.burst as real, start);
    SaneAfter(lim, full, done, start, first);
    BurstBound(lim, PrivateAfter(lim, full, done), times, first, end);
  }

  lemma WindowWithinRate(l: Limits, c: Class, ip: string, before: seq<Request>, window: seq<Request>, start: real, end: real)
    requires Valid(l) && Isolated(l, c) && window != []
    requires Ordered(before + window) && Within(start, end, window)
    ensures WindowBound(l, c, ip, before, window, start, end)
  {
    var born, first := (before + window)[0].now, window[0].now;
    SplitOrdered(born, before, window);
    EndsBy(first, window, start, end);
    TimesRise(c, ip, born, before, first);
    TimesRise(c, ip, first, window, end);
    PrivateWindow(LimitFor(l, c), born, Times(c, ip, before), first, Times(c, ip, window), end);
    WindowIsPrivate(l, c, ip, born, before, window);
    LongerWindow(Count(Decisions(l, After(l, map[], before), c, ip, window)), LimitFor(l, c), start, first, end);
  }

  lemma LongerWindow(n: nat, lim: Limit, start: real, first: real, end: real)
    requires lim.refill >= 0.0 && start <= first && n as real <= Quota(lim, end - first)
    ensures n as real <= Quota(lim, end - start)
  {
    ScaledSum(first - start, end - first, lim.refill);
    ScaledPositive(first - start, lim.refill);
    assert (first - start) + (end - first) == end - start;
  }

  lemma IsolatedWithinRate(l: Limits, c: Class)
    requires Valid(l) && Isolated(l, c)
    ensures WithinRate(l, c)
  {
    forall ip, before, window, start, end | Ordered(before + window) && Within(start, end, window) && start <= end
      ensures WindowBound(l, c, ip, before, window, start, end)
    {
      if window == [] {
        ScaledPositive(end - start, LimitFor(l, c).refill);
      } else {
        WindowWithinRate(l, c, ip, before, window, start, end);
      }
    }
  }

  // ---- The condition is exact ----

  /** `n` requests of one client at one moment. */
  function Burst(c: Class, ip: string, now: real, n: nat): (reqs: seq<Request>)
    ensures |reqs| == n && forall i :: 0 <= i < n ==> reqs[i].now == now
  {
    if n == 0 then [] else [Request(c, ip, now)] + Burst(c, ip, now, n - 1)
  }

  /** The addresses of a client and of a crowd. */
  datatype Clients = Clients(own: string, others: nat -> string)

  ghost predicate Different(k: Clients) {
    forall i: nat, j: nat :: k.others(i) == k.others(j) ==> i == j
  }

  /** One request from each of `n` clients at one moment. */
  function Crowd(c: Class, k: Clients, now: real, n: nat): (reqs: seq<Request>)
    ensures |reqs| == n && forall i :: 0 <= i < n ==> reqs[i].now == now
  {
    if n == 0 then [] else Crowd(c, k, now, n - 1) + [Request(c, k.others(n - 1), now)]
  }

  ghost predicate AllAt(t: Table, now: real) {
    forall k :: k in t ==> t[k].last == now
  }

  /** At one moment nothing is refilled or dropped, so a check takes the token if there is one. */
  lemma CheckedAtOnce(l: Limits, t: Table, c: Class, ip: string, now: real)
    requires Valid(l) && l.enabled && AllAt(t, now)
    requires Held(LimitFor(l, c), t, Key(c, ip), now).tokens <= LimitFor(l, c).burst as real
    ensures var held := Held(LimitFor(l, c), t, Key(c, ip), now).tokens;
            var (u, ok) := Checked(l, t, c, ip, now);
            AllAt(u, now) && ok == (held >= 1.0) && u == t[Key(c, ip) := Bucket(if ok then held - 1.0 else held, now)]
  {
    assert Pruned(l, t, c, now) == t;
    var held := Held(LimitFor(l, c), t, Key(c, ip), now);
    assert Refilled(LimitFor(l, c), held, now) == held.tokens;
  }

  lemma {:induction false} BurstServed(l: Limits, t: Table, c: Class, ip: string, now: real, n: nat)
    requires Valid(l) && l.enabled && AllAt(t, now) && CanSpend(l, t, c, ip, now, n)
    ensures Count(Decisions(l, t, c, ip, Burst(c, ip, now, n))) == n
    decreases n
  {
    if n > 0 {
      SpendOne(l, t, c, ip, now, n);
      var (t', ok) := Checked(l, t, c, ip, now);
      BurstServed(l, t', c, ip, now, n - 1);
      assert Burst(c, ip, now, n)[1..] == Burst(c, ip, now, n - 1);
      assert Decisions(l, t, c, ip, Burst(c, ip, now, n)) == [ok] + Decisions(l, t', c, ip, Burst(c, ip, now, n - 1));
    }
  }

  lemma {:induction false} BurstKeys(l: Limits, t: Table, c: Class, ip: string, now: real, n: nat)
    requires Valid(l) && l.enabled && AllAt(t, now) && CanSpend(l, t, c, ip, now, n)
    ensures AllAt(After(l, t, Burst(c, ip, now, n)), now)
    ensures After(l, t, Burst(c, ip, now, n)).Keys == if n == 0 then t.Keys else t.Keys + {Key(c, ip)}
    decreases n
  {
    if n > 0 {
      SpendOne(l, t, c, ip, now, n);
      BurstKeys(l, Checked(l, t, c, ip, now).0, c, ip, now, n - 1);
      assert Burst(c, ip, now, n)[1..] == Burst(c, ip, now, n - 1);
    }
  }

  ghost predicate CanSpend(l: Limits, t: Table, c: Class, ip: string, now: real, n: nat)
    requires Valid(l)
  {
    n as real <= Held(LimitFor(l, c), t, Key(c, ip), now).tokens <= LimitFor(l, c).burst as real
  }

  lemma SpendOne(l: Limits, t: Table, c: Class, ip: string, now: real, n: nat)
    requires Valid(l) && l.enabled && AllAt(t, now) && n > 0 && CanSpend(l, t, c, ip, now, n)
    ensures var (u, ok) := Checked(l, t, c, ip, now);
            ok && AllAt(u, now) && u.Keys == t.Keys + {Key(c, ip)} && CanSpend(l, u, c, ip, now, n - 1)
  {
    CheckedAtOnce(l, t, c, ip, now);
  }

  lemma {:induction false} CrowdFills(l: Limits, t: Table, c: Class, k: Clients, now: real, n: nat)
    requires Valid(l) && l.enabled && AllAt(t, now) && Different(k) && NoneFrom(t, c, k, 0)
    ensures AllAt(After(l, t, Crowd(c, k, now, n)), now)
    ensures |After(l, t, Crowd(c, k, now, n))| == |t| + n && NoneFrom(After(l, t, Crowd(c, k, now, n)), c, k, n)
    decreases n
  {
    if n > 0 {
      CrowdFills(l, t, c, k, now, n - 1);
      var u := After(l, t, Crowd(c, k, now, n - 1));
      AfterAppend(l, t, Crowd(c, k, now, n - 1), [Request(c, k.others(n - 1), now)]);
      CheckedAtOnce(l, u, c, k.others(n - 1), now);
      NewKey(u, c, k, n - 1, Checked(l, u, c, k.others(n - 1), now).0[Key(c, k.others(n - 1))]);
    }
  }

  ghost predicate NoneFrom(t: Table, c: Class, k: Clients, n: nat) {
    forall i: nat :: n <= i ==> Key(c, k.others(i)) !in t
  }

  lemma NewKey(t: Table, c: Class, k: Clients, n: nat, b: Bucket)
    requires Different(k) && NoneFrom(t, c, k, n)
    ensures var u := t[Key(c, k.others(n)) := b]; |u| == |t| + 1 && NoneFrom(u, c, k, n + 1)
  {
    var u := t[Key(c, k.others(n)) := b];
    assert u.Keys == t.Keys + {Key(c, k.others(n))};
    forall i: nat | n + 1 <= i
      ensures Key(c, k.others(i)) !in u
    {
      if Key(c, k.others(i)) == Key(c, k.others(n)) {
        KeyInjective(c, k.others(i), c, k.others(n));
      }
    }
  }

  /** Everything is idle by the time a bucket of the checked class fills up. */
  lemma AllPruned(l: Limits, t: Table, c: Class, ip: string)
    requires Valid(l) && l.enabled && AllAt(t, 0.0) && |t| > l.maxKeys
    ensures var u := Checked(l, t, c, ip, Idle(l, c)).0;
            AllAt(u, Idle(l, c)) && u.Keys == {Key(c, ip)}
  {
    assert Pruned(l, t, c, Idle(l, c)) == map[];
  }

  /** A client spends its burst, a crowd of the other class fills the table, a late request of that
      class prunes it, and the client spends a full burst again. */
  function Revisit(l: Limits, c: Class, k: Clients): (reqs: seq<Request>)
    requires Valid(l)
  {
    var n, t := LimitFor(l, c).burst, Idle(l, Other(c));
    Burst(c, k.own, 0.0, n) + (Crowd(Other(c), k, 0.0, l.maxKeys) + ([Request(Other(c), k.own, t)] + Burst(c, k.own, t, n)))
  }

  lemma {:induction false} SteadyOrdered(now: real, reqs: seq<Request>, rest: seq<Request>)
    requires (forall i :: 0 <= i < |reqs| ==> reqs[i].now == now) && OrderedFrom(now, rest)
    ensures OrderedFrom(now, reqs + rest)
    decreases |reqs|
  {
    if reqs == [] {
      assert reqs + rest == rest;
    } else {
      assert (reqs + rest)[1..] == reqs[1..] + rest;
      SteadyOrdered(now, reqs[1..], rest);
    }
  }

  lemma RevisitOrdered(l: Limits, c: Class, k: Clients)
    requires Valid(l)
    ensures OrderedFrom(0.0, Revisit(l, c, k)) && Within(0.0, Idle(l, Other(c)), Revisit(l, c, k))
  {
    var n, t, o := LimitFor(l, c).burst, Idle(l, Other(c)), Other(c);
    var late := [Request(o, k.own, t)] + Burst(c, k.own, t, n);
    SteadyOrdered(t, late, []);
    assert late + [] == late;
    assert OrderedFrom(0.0, late);
    SteadyOrdered(0.0, Crowd(o, k, 0.0, l.maxKeys), late);
    SteadyOrdered(0.0, Burst(c, k.own, 0.0, n), Crowd(o, k, 0.0, l.maxKeys) + late);
  }

  lemma {:induction false} CountAppend(a: seq<bool>, b: seq<bool>)
    ensures Count(a + b) == Count(a) + Count(b)
    decreases |a|
  {
    if a == [] {
      assert a + b == b;
    } else {
      assert (a + b)[1..] == a[1..] + b;
      CountAppend(a[1..], b);
    }
  }

  lemma CountRun(l: Limits, t: Table, c: Class, ip: string, a: seq<Request>, b: seq<Request>)
    requires Valid(l)
    ensures Count(Decisions(l, t, c, ip, a + b)) == Count(Decisions(l, t, c, ip, a)) + Count(Decisions(l, After(l, t, a), c, ip, b))
  {
    DecisionsAppend(l, t, c, ip, a, b);
    CountAppend(Decisions(l, t, c, ip, a), Decisions(l, After(l, t, a), c, ip, b));
  }

  /** After the client's burst and the crowd, the table is too large. */
  lemma CrowdedOut(l: Limits, c: Class, k: Clients)
    requires Valid(l) && l.enabled && Different(k)
    ensures var t := After(l, After(l, map[], Burst(c, k.own, 0.0, LimitFor(l, c).burst)), Crowd(Other(c), k, 0.0, l.maxKeys));
            AllAt(t, 0.0) && |t| > l.maxKeys
  {
    var n := LimitFor(l, c).burst;
    BurstKeys(l, map[], c, k.own, 0.0, n);
    OnlyKey(After(l, map[], Burst(c, k.own, 0.0, n)), c, k);
    CrowdFills(l, After(l, map[], Burst(c, k.own, 0.0, n)), Other(c), k, 0.0, l.maxKeys);
  }

  /** Once the table is too large, the late request gives the client a full bucket again. */
  lemma ServedAgain(l: Limits, t: Table, c: Class, k: Clients)
    requires Valid(l) && l.enabled && AllAt(t, 0.0) && |t| > l.maxKeys
    ensures var late := Idle(l, Other(c));
            Count(Decisions(l, After(l, t, [Request(Other(c), k.own, late)]), c, k.own, Burst(c, k.own, late, LimitFor(l, c).burst))) == LimitFor(l, c).burst
  {
    var late := Idle(l, Other(c));
    AllPruned(l, t, Other(c), k.own);
    var u := Checked(l, t, Other(c), k.own, late).0;
    assert After(l, t, [Request(Other(c), k.own, late)]) == After(l, u, []);
    OtherKey(c, k);
    BurstServed(l, u, c, k.own, late, LimitFor(l, c).burst);
  }

  lemma RevisitServed(l: Limits, c: Class, k: Clients)
    requires Valid(l) && l.enabled && Different(k)
    ensures Count(Decisions(l, map[], c, k.own, Revisit(l, c, k))) >= 2 * LimitFor(l, c).burst
  {
    var n, t, o := LimitFor(l, c).burst, Idle(l, Other(c)), Other(c);
    var first, crowd, last, again := Burst(c, k.own, 0.0, n), Crowd(o, k, 0.0, l.maxKeys), [Request(o, k.own, t)], Burst(c, k.own, t, n);
    BurstServed(l, map[], c, k.own, 0.0, n);
    CrowdedOut(l, c, k);
    var t1 := After(l, map[], first);
    var t2 := After(l, t1, crowd);
    ServedAgain(l, t2, c, k);
    CountRun(l, map[], c, k.own, first, crowd + (last + again));
    CountRun(l, t1, c, k.own, crowd, last + again);
    CountRun(l, t2, c, k.own, last, again);
  }

  lemma OtherKey(c: Class, k: Clients)
    ensures Key(c, k.own) != Key(Other(c), k.own)
  {
    if Key(c, k.own) == Key(Other(c), k.own) {
      KeyInjective(c, k.own, Other(c), k.own);
    }
  }

  lemma OnlyKey(t: Table, c: Class, k: Clients)
    requires t.Keys == {Key(c, k.own)}
    ensures |t| == 1 && NoneFrom(t, Other(c), k, 0)
  {
    forall i: nat
      ensures Key(Other(c), k.others(i)) !in t
    {
      if Key(Other(c), k.others(i)) == Key(c, k.own) {
        KeyInjective(Other(c), k.others(i), c, k.own);
      }
    }
    assert |t.Keys| == 1;
  }

  /** A slower class: with any client and any crowd of different clients that run exceeds the rate. */
  lemma RevisitExceeds(l: Limits, c: Class, k: Clients)
    requires Valid(l) && l.enabled && !FillsFaster(l, c) && Different(k)
    ensures OrderedFrom(0.0, Revisit(l, c, k)) && Within(0.0, Idle(l, Other(c)), Revisit(l, c, k))
    ensures !WindowBound(l, c, k.own, [], Revisit(l, c, k), 0.0, Idle(l, Other(c)))
  {
    RevisitOrdered(l, c, k);
    RevisitServed(l, c, k);
    NotRefilled(LimitFor(l, c), Idle(l, Other(c)));
  }

  lemma SlowClassExceeds(l: Limits, c: Class, k: Clients)
    requires Valid(l) && l.enabled && !FillsFaster(l, c) && Different(k)
    ensures !WithinRate(l, c)
  {
    RevisitExceeds(l, c, k);
    assert [] + Revisit(l, c, k) == Revisit(l, c, k);
  }

  lemma NotRefilled(lim: Limit, d: real)
    requires lim.refill > 0.0 && d < lim.burst as real / lim.refill
    ensures Quota(lim, d) < 2.0 * lim.burst as real
  {
    var x := lim.burst as real / lim.refill;
    assert x * lim.refill == lim.burst as real;
    assert (x - d) * lim.refill > 0.0;
    ScaledSum(x - d, d, lim.refill);
    assert (x - d) + d == x;
  }

  lemma {:induction false} AllServed(l: Limits, t: Table, c: Class, ip: string, now: real, n: nat)
    requires Valid(l) && !l.enabled
    ensures Count(Decisions(l, t, c, ip, Burst(c, ip, now, n))) == n
  {
    if n > 0 {
      AllServed(l, t, c, ip, now, n - 1);
      assert Burst(c, ip, now, n)[1..] == Burst(c, ip, now, n - 1);
      assert Decisions(l, t, c, ip, Burst(c, ip, now, n)) == [true] + Decisions(l, t, c, ip, Burst(c, ip, now, n - 1));
    }
  }

  lemma DisabledExceeds(l: Limits, c: Class, ip: string)
    requires Valid(l) && !l.enabled
    ensures !WithinRate(l, c)
  {
    var n := LimitFor(l, c).burst + 1;
    var reqs := Burst(c, ip, 0.0, n);
    AllServed(l, map[], c, ip, 0.0, n);
    SteadyOrdered(0.0, reqs, []);
    assert reqs + [] == reqs && [] + reqs == reqs;
    assert !WindowBound(l, c, ip, [], reqs, 0.0, 0.0);
  }

  /** Clients that are told apart by number. */
  function Numbered(): (k: Clients)
    ensures Different(k)
  {
    var k := Clients("", (i: nat) => Decimal(i));
    NumberedDifferent(k);
    k
  }

  lemma NumberedDifferent(k: Clients)
    requires forall i: nat :: k.others(i) == Decimal(i)
    ensures Different(k)
  {
    forall i: nat, j: nat | k.others(i) == k.others(j)
      ensures i == j
    {
      DecimalInjective(i, j);
    }
  }

  /** The rate law and isolation hold of exactly the same configurations: the limiter is on and
      the class's buckets fill up no slower than the other's. */
  lemma RateLaw(l: Limits, c: Class)
    requires Valid(l)
    ensures Isolated(l, c) <==> l.enabled && FillsFaster(l, c)
    ensures WithinRate(l, c) <==> l.enabled && FillsFaster(l, c)
  {
    if Isolated(l, c) {
      IsolatedWithinRate(l, c);
    }
    if !l.enabled {
      DisabledExceeds(l, c, "");
    } else if FillsFaster(l, c) {
      FastClassIsolated(l, c);
    } else {
      SlowClassExceeds(l, c, Numbered());
    }
  }

  /** The shipped default keeps the law for the API and breaks it for logins: login buckets take 20
      seconds to fill up, but API requests prune them after 12. */
  lemma ShippedDefaults()
    ensures var l := LimitsOf(Config(true, 1200, 240, 30, 10)); WithinRate(l, Api) && !WithinRate(l, Login)
  {
    var l := LimitsOf(Config(true, 1200, 240, 30, 10));
    DefaultFillTimes();
    RateLaw(l, Api);
    RateLaw(l, Login);
  }

  lemma DefaultFillTimes()
    ensures var l := LimitsOf(Config(true, 1200, 240, 30, 10)); FillsFaster(l, Api) && !FillsFaster(l, Login)
  {
    var l := LimitsOf(Config(true, 1200, 240, 30, 10));
    assert l.api == Limit(20.0, 240) && l.login == Limit(0.5, 10);
    assert Idle(l, Api) == 12.0 && Idle(l, Login) == 20.0;
  }
}
