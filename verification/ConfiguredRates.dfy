/** What a client is granted, in the numbers of the configuration: requests a minute and a burst. */
module ConfiguredRates {
  import opened RateLimit

  // ---- The configuration's numbers ----

  function PerMinute(cfg: Config, c: Class): (n: nat) {
    if c.Api? then cfg.requestsPerMinute else cfg.loginPerMinute
  }

  /** Requests a second; a budget of none leaves one in a thousand seconds. */
  function PerSecond(cfg: Config, c: Class): (r: real)
    ensures r > 0.0
  {
    if PerMinute(cfg, c) == 0 then 0.001 else PerMinute(cfg, c) as real / 60.0
  }

  /** Requests at once: the configured burst, but at least one. */
  function AtOnce(cfg: Config, c: Class): (n: nat)
    ensures n >= 1
  {
    var burst := if c.Api? then cfg.burst else cfg.loginBurst;
    if burst == 0 then 1 else burst
  }

  /** Seconds until an empty bucket is full. */
  function FillSeconds(cfg: Config, c: Class): (r: real) {
    AtOnce(cfg, c) as real / PerSecond(cfg, c)
  }

  lemma ConfiguredLimits(cfg: Config, c: Class)
    ensures LimitFor(LimitsOf(cfg), c) == Limit(PerSecond(cfg, c), AtOnce(cfg, c)) && LimitsOf(cfg).enabled == cfg.enabled
    ensures Idle(LimitsOf(cfg), c) == FillSeconds(cfg, c)
  {
    var n := PerMinute(cfg, c);
    assert n >= 1 ==> n as real / 60.0 >= 1.0 / 60.0 > 0.001;
  }

  /** The burst and the budget of `d` seconds pay for `n` requests. */
  ghost predicate Affordable(cfg: Config, c: Class, n: nat, d: real) {
    n as real <= AtOnce(cfg, c) as real + d * PerSecond(cfg, c)
  }

  lemma AffordableIsQuota(cfg: Config, c: Class, n: nat, d: real)
    ensures Affordable(cfg, c, n, d) <==> n as real <= Quota(LimitFor(LimitsOf(cfg), c), d)
  {
    ConfiguredLimits(cfg, c);
  }

  /** In every window of every run, at most the burst and the budget of the window's seconds. */
  ghost predicate KeepsBudget(cfg: Config, c: Class) {
    forall ip, before, window, start, end ::
      Ordered(before + window) && Within(start, end, window) && start <= end ==>
        BudgetKept(cfg, c, ip, before, window, start, end)
  }

  ghost predicate BudgetKept(cfg: Config, c: Class, ip: string, before: seq<Request>, window: seq<Request>, start: real, end: real) {
    Affordable(cfg, c, Count(Decisions(LimitsOf(cfg), After(LimitsOf(cfg), map[], before), c, ip, window)), end - start)
  }

  lemma BudgetIsBound(cfg: Config, c: Class, ip: string, before: seq<Request>, window: seq<Request>, start: real, end: real)
    ensures BudgetKept(cfg, c, ip, before, window, start, end) <==> WindowBound(LimitsOf(cfg), c, ip, before, window, start, end)
  {
    AffordableIsQuota(cfg, c, Count(Decisions(LimitsOf(cfg), After(LimitsOf(cfg), map[], before), c, ip, window)), end - start);
  }

  /** The configured budget is kept exactly when the limiter is on and the class's buckets fill no slower. */
  lemma BudgetKeptExactly(cfg: Config, c: Class)
    ensures KeepsBudget(cfg, c) <==> cfg.enabled && FillSeconds(cfg, c) <= FillSeconds(cfg, Other(c))
  {
    hide BudgetKept;
    hide WindowBound;
    hide LimitsOf;
    hide Idle;
    hide FillSeconds;
    ConfiguredLimits(cfg, c);
    ConfiguredLimits(cfg, Other(c));
    RateLaw(LimitsOf(cfg), c);
    forall ip, before, window, start, end
      ensures BudgetKept(cfg, c, ip, before, window, start, end) <==> WindowBound(LimitsOf(cfg), c, ip, before, window, start, end)
    {
      BudgetIsBound(cfg, c, ip, before, window, start, end);
    }
  }

  // ---- Each request ----

  /** What a client may still ask for at request `n`, by the window that request `i` opened. */
  function Room(lim: Limit, ts: seq<real>, ds: seq<bool>, i: int, n: int): (r: real)
    requires 0 <= i <= n < |ts| && |ds| == |ts|
  {
    Quota(lim, ts[n] - ts[i]) - Count(ds[i..n]) as real
  }

  /** Granting request `n` keeps every window that ends with it within the quota. */
  ghost predicate Fits(lim: Limit, ts: seq<real>, ds: seq<bool>, n: int)
    requires 0 <= n < |ts| && |ds| == |ts|
  {
    forall i :: 0 <= i <= n ==> Room(lim, ts, ds, i, n) >= 1.0
  }

  /** The tokens at request `n` are the room that the tightest window leaves. */
  ghost predicate Tightest(lim: Limit, ts: seq<real>, ds: seq<bool>, n: int, tokens: real)
    requires 0 <= n < |ts| && |ds| == |ts|
  {
    && (forall i :: 0 <= i <= n ==> tokens <= Room(lim, ts, ds, i, n))
    && (exists i :: 0 <= i <= n && tokens == Room(lim, ts, ds, i, n))
  }

  ghost predicate Rising(ts: seq<real>) {
    forall n :: 0 < n < |ts| ==> ts[n - 1] <= ts[n]
  }

  lemma RoomAhead(lim: Limit, ts: seq<real>, ds: seq<bool>, i: int, n: int)
    requires 0 <= i <= n && n + 1 < |ts| && |ds| == |ts|
    ensures Room(lim, ts, ds, i, n + 1) == Room(lim, ts, ds, i, n) - (if ds[n] then 1.0 else 0.0) + (ts[n + 1] - ts[n]) * lim.refill
  {
    assert ds[i..n + 1] == ds[i..n] + [ds[n]];
    CountAppend(ds[i..n], [ds[n]]);
    ScaledSum(ts[n] - ts[i], ts[n + 1] - ts[n], lim.refill);
    assert (ts[n] - ts[i]) + (ts[n + 1] - ts[n]) == ts[n + 1] - ts[i];
  }

  /** What is left of the tokens at the next request. */
  function Ahead(lim: Limit, tokens: real, ok: bool, d: real): (r: real) {
    Min(tokens - (if ok then 1.0 else 0.0) + d * lim.refill, lim.burst as real)
  }

  lemma RoomToStart(lim: Limit, ts: seq<real>, ds: seq<bool>, n: int)
    requires 0 <= n < |ts| && |ds| == |ts|
    ensures Room(lim, ts, ds, n, n) == lim.burst as real
  {
  }

  lemma TightestAhead(lim: Limit, ts: seq<real>, ds: seq<bool>, n: int, tokens: real)
    requires 0 <= n && n + 1 < |ts| && |ds| == |ts| && Tightest(lim, ts, ds, n, tokens)
    ensures Tightest(lim, ts, ds, n + 1, Ahead(lim, tokens, ds[n], ts[n + 1] - ts[n]))
  {
    hide Room;
    var m, gain := n + 1, (ts[n + 1] - ts[n]) * lim.refill;
    var left := Ahead(lim, tokens, ds[n], ts[m] - ts[n]);
    RoomToStart(lim, ts, ds, m);
    forall i | 0 <= i <= n
      ensures Room(lim, ts, ds, i, m) == Room(lim, ts, ds, i, n) - (if ds[n] then 1.0 else 0.0) + gain
    {
      RoomAhead(lim, ts, ds, i, n);
    }
    var k :| 0 <= k <= n && tokens == Room(lim, ts, ds, k, n);
    assert left == Room(lim, ts, ds, k, m) || left == Room(lim, ts, ds, m, m);
  }

  lemma RefilledAhead(lim: Limit, b: Bucket, now: real, later: real)
    requires now <= later
    ensures var (b', ok) := Spent(lim, b, now);
            && ok == (Refilled(lim, b, now) >= 1.0)
            && Refilled(lim, b', later) == Ahead(lim, Refilled(lim, b, now), ok, later - now)
  {
    assert Elapsed(later, now) == later - now;
  }

  lemma TightestFits(lim: Limit, ts: seq<real>, ds: seq<bool>, n: int, tokens: real)
    requires 0 <= n < |ts| && |ds| == |ts| && Tightest(lim, ts, ds, n, tokens)
    ensures tokens >= 1.0 <==> Fits(lim, ts, ds, n)
  {
    hide Room;
    var k :| 0 <= k <= n && tokens == Room(lim, ts, ds, k, n);
  }

  /** A private bucket grants exactly the requests that fit. */
  lemma {:induction false} GrantsWhatFits(lim: Limit, b: Bucket, ts: seq<real>, ds: seq<bool>, n: int)
    requires 0 <= n < |ts| && |ds| == |ts| && Rising(ts) && ds[n..] == Private(lim, b, ts[n..])
    requires Tightest(lim, ts, ds, n, Refilled(lim, b, ts[n]))
    ensures forall k :: n <= k < |ts| ==> (ds[k] <==> Fits(lim, ts, ds, k))
    decreases |ts| - n
  {
    hide Tightest;
    hide Fits;
    hide Refilled;
    hide Ahead;
    var (b', ok) := Spent(lim, b, ts[n]);
    assert ds[n] == ds[n..][0] == ok;
    TightestFits(lim, ts, ds, n, Refilled(lim, b, ts[n]));
    if n + 1 < |ts| {
      assert ts[n..][1..] == ts[n + 1..] && ds[n..][1..] == ds[n + 1..];
      TightestAhead(lim, ts, ds, n, Refilled(lim, b, ts[n]));
      RefilledAhead(lim, b, ts[n], ts[n + 1]);
      GrantsWhatFits(lim, b', ts, ds, n + 1);
    }
  }

  lemma {:induction false} TimesRising(c: Class, ip: string, start: real, reqs: seq<Request>)
    requires OrderedFrom(start, reqs)
    ensures var ts := Times(c, ip, reqs); Rising(ts) && (ts != [] ==> start <= ts[0])
    decreases |reqs|
  {
    if reqs != [] {
      TimesRising(c, ip, reqs[0].now, reqs[1..]);
    }
  }

  lemma FromFull(lim: Limit, start: real, ts: seq<real>, ds: seq<bool>)
    requires lim.refill > 0.0 && Rising(ts) && ds == Private(lim, Bucket(lim.burst as real, start), ts) && |ds| == |ts|
    ensures forall k :: 0 <= k < |ts| ==> (ds[k] <==> Fits(lim, ts, ds, k))
  {
    if ts != [] {
      FullStays(lim, start, ts[0]);
      assert Room(lim, ts, ds, 0, 0) == lim.burst as real;
      assert ts[0..] == ts && ds[0..] == ds;
      GrantsWhatFits(lim, Bucket(lim.burst as real, start), ts, ds, 0);
    }
  }

  /** The request, with those granted since any earlier one, is paid for by the burst and the
      budget of the seconds passed. */
  ghost predicate InBudget(cfg: Config, c: Class, ts: seq<real>, ds: seq<bool>, n: int)
    requires 0 <= n < |ts| && |ds| == |ts|
  {
    forall i :: 0 <= i <= n ==> Paid(cfg, c, ts, ds, i, n)
  }

  ghost predicate Paid(cfg: Config, c: Class, ts: seq<real>, ds: seq<bool>, i: int, n: int)
    requires 0 <= i <= n < |ts| && |ds| == |ts|
  {
    Affordable(cfg, c, Count(ds[i..n]) + 1, ts[n] - ts[i])
  }

  /** Each request of a client is granted if and only if that keeps the client within its budget. */
  lemma GrantedExactly(cfg: Config, c: Class, ip: string, reqs: seq<Request>)
    requires cfg.enabled && FillSeconds(cfg, c) <= FillSeconds(cfg, Other(c)) && Ordered(reqs)
    ensures var ds, ts := Decisions(LimitsOf(cfg), map[], c, ip, reqs), Times(c, ip, reqs);
            |ds| == |ts| && forall k :: 0 <= k < |ts| ==> (ds[k] <==> InBudget(cfg, c, ts, ds, k))
  {
    var l := LimitsOf(cfg);
    var ds, ts := Decisions(l, map[], c, ip, reqs), Times(c, ip, reqs);
    ConfiguredLimits(cfg, c);
    ConfiguredLimits(cfg, Other(c));
    OneDecisionEach(l, map[], c, ip, reqs);
    if reqs != [] {
      var start, lim := reqs[0].now, LimitFor(l, c);
      FastClassIsolated(l, c);
      assert ServedPrivately(l, c, ip, start, reqs);
      TimesRising(c, ip, start, reqs);
      FromFull(lim, start, ts, ds);
      forall k | 0 <= k < |ts|
        ensures ds[k] <==> InBudget(cfg, c, ts, ds, k)
      {
        BudgetIsRoom(cfg, c, ts, ds, k);
      }
    }
  }

  lemma BudgetIsRoom(cfg: Config, c: Class, ts: seq<real>, ds: seq<bool>, n: int)
    requires 0 <= n < |ts| && |ds| == |ts|
    ensures InBudget(cfg, c, ts, ds, n) <==> Fits(LimitFor(LimitsOf(cfg), c), ts, ds, n)
  {
    hide Room;
    hide Paid;
    forall i | 0 <= i <= n
      ensures Paid(cfg, c, ts, ds, i, n) <==> Room(LimitFor(LimitsOf(cfg), c), ts, ds, i, n) >= 1.0
    {
      PaidIsRoom(cfg, c, ts, ds, i, n);
    }
  }

  lemma PaidIsRoom(cfg: Config, c: Class, ts: seq<real>, ds: seq<bool>, i: int, n: int)
    requires 0 <= i <= n < |ts| && |ds| == |ts|
    ensures Paid(cfg, c, ts, ds, i, n) <==> Room(LimitFor(LimitsOf(cfg), c), ts, ds, i, n) >= 1.0
  {
    AffordableIsQuota(cfg, c, Count(ds[i..n]) + 1, ts[n] - ts[i]);
  }

  /** The requests themselves exceed the budget in no window. */
  ghost predicate Conforms(cfg: Config, c: Class, ts: seq<real>) {
    forall i, n :: 0 <= i <= n < |ts| ==> Asked(cfg, c, ts, i, n)
  }

  ghost predicate Asked(cfg: Config, c: Class, ts: seq<real>, i: int, n: int)
    requires 0 <= i <= n < |ts|
  {
    Affordable(cfg, c, n - i + 1, ts[n] - ts[i])
  }

  lemma {:induction false} CountAll(ds: seq<bool>)
    ensures Count(ds) <= |ds| && (Count(ds) == |ds| <==> forall i :: 0 <= i < |ds| ==> ds[i])
    decreases |ds|
  {
    if ds != [] {
      CountAll(ds[1..]);
      assert forall i :: 0 < i < |ds| ==> ds[i] == ds[1..][i - 1];
    }
  }

  /** A client is refused nothing if and only if it asks for no more than its budget in any window. */
  lemma ConformingNeverRefused(cfg: Config, c: Class, ip: string, reqs: seq<Request>)
    requires cfg.enabled && FillSeconds(cfg, c) <= FillSeconds(cfg, Other(c)) && Ordered(reqs)
    ensures var ds := Decisions(LimitsOf(cfg), map[], c, ip, reqs);
            (forall k :: 0 <= k < |ds| ==> ds[k]) <==> Conforms(cfg, c, Times(c, ip, reqs))
  {
    var ds, ts := Decisions(LimitsOf(cfg), map[], c, ip, reqs), Times(c, ip, reqs);
    GrantedExactly(cfg, c, ip, reqs);
    GrantedWhenAsked(cfg, c, ts, ds);
  }

  lemma GrantedWhenAsked(cfg: Config, c: Class, ts: seq<real>, ds: seq<bool>)
    requires |ds| == |ts| && forall k :: 0 <= k < |ts| ==> (ds[k] <==> InBudget(cfg, c, ts, ds, k))
    ensures (forall k :: 0 <= k < |ds| ==> ds[k]) <==> Conforms(cfg, c, ts)
  {
    hide Asked;
    hide Paid;
    if Conforms(cfg, c, ts) {
      forall k | 0 <= k < |ds|
        ensures ds[k]
      {
        forall i | 0 <= i <= k
          ensures Paid(cfg, c, ts, ds, i, k)
        {
          AskedIsPaid(cfg, c, ts, ds, i, k);
        }
      }
    }
    if forall k :: 0 <= k < |ds| ==> ds[k] {
      forall i, n | 0 <= i <= n < |ts|
        ensures Asked(cfg, c, ts, i, n)
      {
        assert InBudget(cfg, c, ts, ds, n);
        AskedIsPaid(cfg, c, ts, ds, i, n);
      }
    }
  }

  lemma AskedIsPaid(cfg: Config, c: Class, ts: seq<real>, ds: seq<bool>, i: int, n: int)
    requires 0 <= i <= n < |ts| && |ds| == |ts|
    ensures Asked(cfg, c, ts, i, n) ==> Paid(cfg, c, ts, ds, i, n)
    ensures (forall k :: 0 <= k < |ds| ==> ds[k]) && Paid(cfg, c, ts, ds, i, n) ==> Asked(cfg, c, ts, i, n)
  {
    CountAll(ds[i..n]);
  }

  // ---- Memory ----

  /** A check forgets another key exactly when more than 50000 are held and that key has been idle
      for the checked class's fill time; what it remembers it does not change. */
  lemma KeysRemembered(cfg: Config, t: Table, c: Class, ip: string, now: real, k: string)
    requires cfg.enabled && k != Key(c, ip)
    ensures var after := Checked(LimitsOf(cfg), t, c, ip, now).0;
            && (k in after <==> k in t && (|t| <= 50_000 || now - t[k].last < FillSeconds(cfg, c)))
            && (k in after ==> after[k] == t[k])
  {
    ConfiguredLimits(cfg, c);
  }

  /** After every run at most 50001 keys are held, or all were used within the last fill time. */
  lemma KeysBounded(cfg: Config, reqs: seq<Request>, last: Request)
    requires cfg.enabled
    ensures var after := After(LimitsOf(cfg), map[], reqs + [last]);
            || |after| <= 50_001
            || forall k :: k in after ==> last.now - after[k].last < FillSeconds(cfg, last.class_)
  {
    var l, c := LimitsOf(cfg), last.class_;
    var t := After(l, map[], reqs);
    AfterAppend(l, map[], reqs, [last]);
    var after := Checked(l, t, c, last.ip, last.now).0;
    if |t| <= 50_000 {
      assert after.Keys == t.Keys + {Key(c, last.ip)};
    } else {
      ConfiguredLimits(cfg, c);
      FillPositive(cfg, c);
    }
  }

  lemma FillPositive(cfg: Config, c: Class)
    ensures FillSeconds(cfg, c) > 0.0
  {
    ConfiguredLimits(cfg, c);
  }
}
