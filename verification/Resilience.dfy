/** The per-provider circuit breaker and the retry loop of the proxy's data path. */
module Resilience {
  import opened Options
  import opened Powers

  datatype CircuitState = Closed | Open | HalfOpen

  datatype Breaker = Breaker(failures: nat, state: CircuitState, openUntil: Option<int>)

  datatype Tuning = Tuning(threshold: nat, cooldown: nat)

  const FRESH := Breaker(0, Closed, None)

  /** `allow_at` */
  function Asked(b: Breaker, now: int): (r: (Breaker, bool)) {
    if !b.state.Open? || b.openUntil.None? then (b, true)
    else if now >= b.openUntil.value then (b.(state := HalfOpen), true)
    else (b, false)
  }

  /** `record_failure_at` */
  function Failed(t: Tuning, b: Breaker, now: int): (r: Breaker) {
    var n := b.failures + 1;
    if b.state == HalfOpen || n >= t.threshold then Breaker(n, Open, Some(now + t.cooldown)) else b.(failures := n)
  }

  class CircuitBreaker {
    const tuning: Tuning
    var failures: nat
    var state: CircuitState
    var openUntil: Option<int>

    constructor (threshold: nat, cooldown: nat)
      ensures tuning == Tuning(if threshold == 0 then 1 else threshold, cooldown) && State() == FRESH
    {
      tuning := Tuning(if threshold == 0 then 1 else threshold, cooldown);
      failures, state, openUntil := 0, Closed, None;
    }

    function State(): (b: Breaker)
      reads this
    {
      Breaker(failures, state, openUntil)
    }

    method AllowAt(now: int) returns (allowed: bool)
      modifies this`state
      ensures (State(), allowed) == Asked(old(State()), now)
    {
      match state {
        case Closed => return true;
        case HalfOpen => return true;
        case Open =>
          if openUntil.None? {
            return true;
          }
          if now >= openUntil.value {
            state := HalfOpen;
            return true;
          }
          return false;
      }
    }

    method RecordSuccess()
      modifies this
      ensures State() == FRESH
    {
      failures, state, openUntil := 0, Closed, None;
    }

    method RecordFailureAt(now: int)
      modifies this
      ensures State() == Failed(tuning, old(State()), now)
    {
      failures := failures + 1;
      if state == HalfOpen || failures >= tuning.threshold {
        state := Open;
        openUntil := Some(now + tuning.cooldown);
      }
    }
  }

  // ---- Runs of a breaker ----

  datatype Event = Ask(now: int) | Success(now: int) | Failure(now: int)

  function Next(t: Tuning, b: Breaker, e: Event): (r: Breaker) {
    match e
    case Ask(now) => Asked(b, now).0
    case Success(_) => FRESH
    case Failure(now) => Failed(t, b, now)
  }

  function After(t: Tuning, run: seq<Event>): (b: Breaker)
    decreases |run|
  {
    if run == [] then FRESH else Next(t, After(t, run[..|run| - 1]), run[|run| - 1])
  }

  ghost predicate Ordered(run: seq<Event>) {
    forall i, j :: 0 <= i < j < |run| ==> run[i].now <= run[j].now
  }

  /** Failures since the last success. */
  function Streak(run: seq<Event>): (n: nat)
    decreases |run|
  {
    if run == [] || run[|run| - 1].Success? then 0
    else (if run[|run| - 1].Failure? then 1 else 0) + Streak(run[..|run| - 1])
  }

  /** When the last failure was; only asked for when there was one. */
  function LastFailure(run: seq<Event>): (now: int)
    decreases |run|
  {
    if run == [] then 0
    else if run[|run| - 1].Failure? then run[|run| - 1].now
    else LastFailure(run[..|run| - 1])
  }

  /** The upstream failed too often in a row, and the last failure is too recent. */
  ghost predicate CoolingDown(t: Tuning, run: seq<Event>, now: int) {
    Streak(run) >= t.threshold && now < LastFailure(run) + t.cooldown
  }

  /** Since the last outcome a request came at the end of the cooldown or later. */
  ghost predicate Probed(t: Tuning, run: seq<Event>)
    decreases |run|
  {
    run != [] && run[|run| - 1].Ask?
    && (run[|run| - 1].now >= LastFailure(run) + t.cooldown || Probed(t, run[..|run| - 1]))
  }

  /** The breaker's fields, read off the history. */
  ghost predicate Reflects(t: Tuning, run: seq<Event>, b: Breaker) {
    && b.failures == Streak(run)
    && (b.state.Closed? <==> Streak(run) < t.threshold)
    && (!b.state.Closed? ==> b.openUntil == Some(LastFailure(run) + t.cooldown))
    && (b.state.HalfOpen? <==> Streak(run) >= t.threshold && Probed(t, run))
    && (b.state.HalfOpen? ==> run != [] && run[|run| - 1].now >= LastFailure(run) + t.cooldown)
  }

  lemma {:induction false} BreakerReflects(t: Tuning, run: seq<Event>)
    requires t.threshold >= 1 && Ordered(run)
    ensures Reflects(t, run, After(t, run))
    decreases |run|
  {
    if run != [] {
      BreakerReflects(t, run[..|run| - 1]);
    }
  }

  /** In every run the breaker refuses a request exactly while it is cooling down. */
  lemma RefusesExactlyWhileCoolingDown(t: Tuning, run: seq<Event>, now: int)
    requires t.threshold >= 1 && Ordered(run + [Ask(now)])
    ensures Asked(After(t, run), now).1 <==> !CoolingDown(t, run, now)
    ensures After(t, run).state.Open? ==> After(t, run).openUntil.Some?
  {
    var asked := run + [Ask(now)];
    assert forall i :: 0 <= i < |run| ==> run[i] == asked[i];
    assert asked[|run|].now == now;
    BreakerReflects(t, run);
  }

  function Asks(now: int, n: nat): (run: seq<Event>)
    ensures |run| == n && forall i :: 0 <= i < n ==> run[i] == Ask(now)
  {
    seq(n, _ => Ask(now))
  }

  lemma {:induction false} AsksChangeNothing(run: seq<Event>, now: int, n: nat)
    ensures Streak(run + Asks(now, n)) == Streak(run) && LastFailure(run + Asks(now, n)) == LastFailure(run)
  {
    if n == 0 {
      assert run + Asks(now, n) == run;
    } else {
      AsksChangeNothing(run, now, n - 1);
      var longer := run + Asks(now, n);
      assert longer[..|longer| - 1] == run + Asks(now, n - 1);
    }
  }

  /** Once the cooldown is over any number of requests go through before an outcome is recorded,
      not a single probe. */
  lemma ManyProbes(t: Tuning, run: seq<Event>, now: int, n: nat)
    requires t.threshold >= 1 && Ordered(run + Asks(now, n + 1)) && !CoolingDown(t, run, now)
    ensures Asked(After(t, run + Asks(now, n)), now).1
  {
    AsksChangeNothing(run, now, n);
    assert (run + Asks(now, n)) + [Ask(now)] == run + Asks(now, n + 1);
    RefusesExactlyWhileCoolingDown(t, run + Asks(now, n), now);
  }

  // ---- Retries ----

  datatype Attempt = Response(status: nat) | Error(connect: bool, timeout: bool)

  datatype RetryConfig = RetryConfig(maxRetries: nat, backoffMs: nat, retryOnTimeout: bool)

  /** A failure that may be tried again. */
  predicate Retryable(cfg: RetryConfig, a: Attempt) {
    a.Error? && (a.connect || (cfg.retryOnTimeout && a.timeout))
  }

  const MAX: nat := 0xFFFF_FFFF_FFFF_FFFF

  /** The wait before retry `attempt`: a shift by the low six bits, and a saturating product. */
  function Backoff(cfg: RetryConfig, attempt: nat): (ms: nat) {
    var product := cfg.backoffMs * Power(attempt % 64);
    if product > MAX then MAX else product
  }

  lemma BackoffBound(cfg: RetryConfig, attempt: nat)
    ensures Backoff(cfg, attempt) <= cfg.backoffMs * Power(attempt)
  {
    PowerGrows(attempt % 64, attempt);
    ScaledUp(cfg.backoffMs, Power(attempt % 64), Power(attempt));
  }

  /** The waits before the first `n` retries, added up. */
  function Waited(cfg: RetryConfig, n: nat): (ms: nat) {
    if n == 0 then 0 else Waited(cfg, n - 1) + Backoff(cfg, n - 1)
  }

  /** Up to 64 retries and while no product saturates, each wait is twice the one before, and
      together they make the next wait less one backoff. */
  lemma {:induction false} WaitsDouble(cfg: RetryConfig, n: nat)
    requires n <= 64 && (n > 0 ==> cfg.backoffMs * Power(n - 1) <= MAX)
    ensures n > 0 ==> Backoff(cfg, n - 1) == cfg.backoffMs * Power(n - 1)
    ensures Waited(cfg, n) == cfg.backoffMs * (Power(n) - 1)
    ensures n > 0 ==> Power(n) == 2 * Power(n - 1)
  {
    if n > 0 {
      if n > 1 {
        PowerGrows(n - 2, n - 1);
        ScaledUp(cfg.backoffMs, Power(n - 2), Power(n - 1));
      }
      WaitsDouble(cfg, n - 1);
      Doubled(cfg.backoffMs, Power(n - 1));
    }
  }

  lemma WaitsExact(cfg: RetryConfig, n: nat)
    ensures 0 < n <= 64 && cfg.backoffMs * Power(n - 1) <= MAX ==> Waited(cfg, n) == cfg.backoffMs * (Power(n) - 1)
  {
    if 0 < n <= 64 && cfg.backoffMs * Power(n - 1) <= MAX {
      WaitsDouble(cfg, n);
    }
  }

  lemma Doubled(a: nat, p: nat)
    ensures a * (p - 1) + a * p == a * (2 * p - 1)
  {
  }

  lemma ScaledUp(a: nat, x: nat, y: nat)
    requires x <= y
    ensures a * x <= a * y
  {
  }

  /** After `n` retries the loop is done: all but the last attempt may be retried, the last may not be, or not again. */
  ghost predicate Settles(cfg: RetryConfig, clonable: bool, upstream: nat -> Attempt, n: nat) {
    && n <= cfg.maxRetries && (forall k: nat :: k < n ==> Retryable(cfg, upstream(k)))
    && if clonable then !Retryable(cfg, upstream(n)) || n == cfg.maxRetries else n == 0
  }

  /** The send loop against a given behaviour of the upstream, attempt by attempt. Every attempt but
      the last is retryable, the last is not or has no retries left, its result is returned, and the
      waits add up to less than the doubled backoff. */
  method SendWithRetry(cfg: RetryConfig, clonable: bool, upstream: nat -> Attempt) returns (r: Attempt, retries: nat, slept: nat)
    ensures r == upstream(retries) && Settles(cfg, clonable, upstream, retries)
    ensures slept <= cfg.backoffMs * (Power(retries) - 1)
    ensures slept == Waited(cfg, retries)
    ensures 0 < retries <= 64 && cfg.backoffMs * Power(retries - 1) <= MAX ==> slept == cfg.backoffMs * (Power(retries) - 1)
  {
    hide Power;
    hide Backoff;
    retries, slept := 0, 0;
    while true
      invariant retries <= cfg.maxRetries && (retries > 0 ==> clonable)
      invariant forall k: nat :: k < retries ==> Retryable(cfg, upstream(k))
      invariant slept == Waited(cfg, retries)
      decreases cfg.maxRetries - retries
    {
      WaitsExact(cfg, retries);
      WaitedBound(cfg, retries);
      r := upstream(retries);
      if !clonable || r.Response? {
        return;
      }
      if !(Retryable(cfg, r) && retries < cfg.maxRetries) {
        return;
      }
      slept := slept + Backoff(cfg, retries);
      retries := retries + 1;
    }
  }

  lemma DoubledBackoff(cfg: RetryConfig, n: nat, slept: nat)
    requires slept <= cfg.backoffMs * (Power(n) - 1)
    ensures slept + cfg.backoffMs * Power(n) <= cfg.backoffMs * (Power(n + 1) - 1)
  {
    assert Power(n + 1) - 1 == (Power(n) - 1) + Power(n);
    var x, y := Power(n) - 1, Power(n);
    assert cfg.backoffMs * (x + y) == cfg.backoffMs * x + cfg.backoffMs * y;
  }

  lemma {:induction false} WaitedBound(cfg: RetryConfig, n: nat)
    ensures Waited(cfg, n) <= cfg.backoffMs * (Power(n) - 1)
  {
    if n > 0 {
      hide Power;
      hide Backoff;
      var k := n - 1;
      WaitedBound(cfg, k);
      BackoffBound(cfg, k);
      DoubledBackoff(cfg, k, Waited(cfg, k));
      assert Waited(cfg, n) == Waited(cfg, k) + Backoff(cfg, k);
    }
  }

  /** The loop's contract leaves it no choice: it settles the number of retries and the result. */
  lemma RetriesDetermined(cfg: RetryConfig, clonable: bool, upstream: nat -> Attempt, m: nat, n: nat)
    requires Settles(cfg, clonable, upstream, m) && Settles(cfg, clonable, upstream, n)
    ensures m == n
  {
    assert m < n ==> Retryable(cfg, upstream(m));
    assert n < m ==> Retryable(cfg, upstream(n));
  }

  /** The attempt may have reached the upstream: it did not fail to connect. */
  predicate GotThrough(a: Attempt) {
    !(a.Error? && a.connect)
  }

  /** Whatever the upstream does, at most one attempt of a request got past connecting. */
  ghost predicate NeverDuplicates(cfg: RetryConfig, clonable: bool) {
    forall upstream: nat -> Attempt, n: nat :: Settles(cfg, clonable, upstream, n) ==> ThroughOnce(upstream, n)
  }

  ghost predicate ThroughOnce(upstream: nat -> Attempt, n: nat) {
    forall j: nat, k: nat :: j < k <= n ==> !(GotThrough(upstream(j)) && GotThrough(upstream(k)))
  }

  /** An upstream that always times out after connecting. */
  function TimesOut(): (upstream: nat -> Attempt) {
    (k: nat) => Error(false, true)
  }

  lemma TimedOutTwice(cfg: RetryConfig)
    requires cfg.retryOnTimeout && cfg.maxRetries > 0
    ensures Settles(cfg, true, TimesOut(), cfg.maxRetries) && !ThroughOnce(TimesOut(), cfg.maxRetries)
  {
    assert GotThrough(TimesOut()(0)) && GotThrough(TimesOut()(1));
  }

  /** A request is never duplicated if and only if timeouts are not retried, or nothing is. */
  lemma NeverDuplicatesExactly(cfg: RetryConfig, clonable: bool)
    ensures NeverDuplicates(cfg, clonable) <==> !clonable || !cfg.retryOnTimeout || cfg.maxRetries == 0
  {
    if clonable && cfg.retryOnTimeout && cfg.maxRetries > 0 {
      TimedOutTwice(cfg);
    } else {
      forall upstream: nat -> Attempt, n: nat | Settles(cfg, clonable, upstream, n)
        ensures ThroughOnce(upstream, n)
      {
        forall j: nat | j < n
          ensures !GotThrough(upstream(j))
        {
          assert Retryable(cfg, upstream(j));
        }
      }
    }
  }
}
