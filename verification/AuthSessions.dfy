/** Idle timeout, throttled refresh and rejection of sessions, over every run. */
module AuthSessions {
  import opened Auth
  import opened AuthRuns
  import opened Options

  ghost predicate Ordered(run: seq<Event>) {
    forall i, j :: 0 <= i < j < |run| ==> run[i].now <= run[j].now
  }

  /** The key under which an event issues a session. */
  function GrantedKey(s: Setting, st: Store, e: Event): (r: Option<string>) {
    match e.step
    case Login(u, pw, token) => if LoginResult(s, st, u, pw, token, e.now).1.Granted? then Some(s.p.tokenHash(token)) else None
    case External(u, role, org, token) => Some(s.p.tokenHash(token))
    case VerifyTotp(pt, code, token) => if VerifyResult(s, st, pt, code, token, e.now).1.Granted? then Some(s.p.tokenHash(token)) else None
    case Confirm(pt, code, codes, token) => if ConfirmResult(s, st, pt, code, codes, token, e.now).1.Some? then Some(s.p.tokenHash(token)) else None
    case _ => None
  }

  /** The event presents the session's token to `validate`. */
  predicate Uses(s: Setting, e: Event, key: string) {
    e.step.Validate? && s.p.tokenHash(e.step.credential) == key
  }

  predicate AcceptedUse(s: Setting, st: Store, e: Event, key: string) {
    Uses(s, e, key) && key in st.sessions && ValidateResult(s, st, e.step.credential, e.now).1.Some?
  }

  /** When the session was last issued or accepted. */
  function LastUse(s: Setting, init: Store, run: seq<Event>, n: nat, key: string): (r: Option<int>)
    requires n <= |run|
  {
    if n == 0 then None
    else
      var st, e := StateAt(s, init, run, n - 1), run[n - 1];
      if GrantedKey(s, st, e) == Some(key) || AcceptedUse(s, st, e, key) then Some(e.now) else LastUse(s, init, run, n - 1, key)
  }

  /** How far the stored last use may lag behind the real one. */
  function Slack(cfg: Config): (d: int) {
    (if 0 < cfg.idleTimeoutSecs < 60 then cfg.idleTimeoutSecs else 60) * SECOND
  }

  // ---- What an event does to one session ----

  /** A session as it was when issued. */
  predicate IssuedAt(cfg: Config, x: Session, now: int) {
    x.lastUsed == now && x.expiresAt == now + cfg.sessionTtlSecs * SECOND
  }

  lemma GrantSession(s: Setting, st: Store, e: Event, key: string)
    requires GrantedKey(s, st, e) == Some(key)
    ensures key in Next(s, st, e).sessions && IssuedAt(s.cfg, Next(s, st, e).sessions[key], e.now)
  {
    if e.step.Login? {
      GrantLogin(s, st, e);
    } else if e.step.VerifyTotp? {
      GrantVerify(s, st, e);
    } else if e.step.Confirm? {
      GrantConfirm(s, st, e);
    }
  }

  lemma GrantLogin(s: Setting, st: Store, e: Event)
    requires e.step.Login? && GrantedKey(s, st, e).Some?
    ensures var key, r := s.p.tokenHash(e.step.token), Next(s, st, e).sessions; key in r && IssuedAt(s.cfg, r[key], e.now)
  {
    hide Next;
    StepIsOperation(s, st, e);
  }

  lemma GrantVerify(s: Setting, st: Store, e: Event)
    requires e.step.VerifyTotp? && GrantedKey(s, st, e).Some?
    ensures var key, r := s.p.tokenHash(e.step.token), Next(s, st, e).sessions; key in r && IssuedAt(s.cfg, r[key], e.now)
  {
    hide Next;
    StepIsOperation(s, st, e);
  }

  lemma GrantConfirm(s: Setting, st: Store, e: Event)
    requires e.step.Confirm? && GrantedKey(s, st, e).Some?
    ensures var key, r := s.p.tokenHash(e.step.token), Next(s, st, e).sessions; key in r && IssuedAt(s.cfg, r[key], e.now)
  {
    hide Next;
    StepIsOperation(s, st, e);
  }

  lemma UseSession(s: Setting, st: Store, e: Event, key: string)
    requires Uses(s, e, key) && key in st.sessions
    ensures var r := Next(s, st, e).sessions;
            if AcceptedUse(s, st, e, key) then key in r && r[key] == Touched(st.sessions[key], e.now) else key !in r
    ensures AcceptedUse(s, st, e, key) <==> !Expired(st.sessions[key], e.now) && !IdledOut(s.cfg, st.sessions[key], e.now)
  {
    hide Next;
    StepIsOperation(s, st, e);
  }

  /** The event takes the session away by name. */
  predicate Revokes(s: Setting, e: Event, key: string) {
    || (e.step.Logout? && s.p.tokenHash(e.step.token) == key)
    || (e.step.Edit? && key in e.step.revoked)
  }

  /** Other events leave the session as it is, or remove it, or leave it missing. */
  lemma LeaveSession(s: Setting, st: Store, e: Event, key: string)
    requires GrantedKey(s, st, e) != Some(key) && !Uses(s, e, key)
    ensures var r := Next(s, st, e).sessions; key in r ==> key in st.sessions && r[key] == st.sessions[key]
  {
    if e.step.Login? {
      LeaveLogin(s, st, e, key);
    } else if e.step.VerifyTotp? {
      LeaveVerify(s, st, e, key);
    } else if e.step.Confirm? {
      LeaveConfirm(s, st, e, key);
    }
  }

  lemma LeaveLogin(s: Setting, st: Store, e: Event, key: string)
    requires e.step.Login? && GrantedKey(s, st, e) != Some(key)
    ensures var r := Next(s, st, e).sessions; (key in r <==> key in st.sessions) && (key in r ==> r[key] == st.sessions[key])
  {
    hide Next;
    StepIsOperation(s, st, e);
  }

  lemma LeaveVerify(s: Setting, st: Store, e: Event, key: string)
    requires e.step.VerifyTotp? && GrantedKey(s, st, e) != Some(key)
    ensures var r := Next(s, st, e).sessions; (key in r <==> key in st.sessions) && (key in r ==> r[key] == st.sessions[key])
  {
    hide Next;
    StepIsOperation(s, st, e);
  }

  lemma LeaveConfirm(s: Setting, st: Store, e: Event, key: string)
    requires e.step.Confirm? && GrantedKey(s, st, e) != Some(key)
    ensures var r := Next(s, st, e).sessions; (key in r <==> key in st.sessions) && (key in r ==> r[key] == st.sessions[key])
  {
    hide Next;
    StepIsOperation(s, st, e);
  }

  /** A session that is not expired, used or revoked by an event stays. */
  lemma KeepSession(s: Setting, st: Store, e: Event, key: string)
    requires GrantedKey(s, st, e) != Some(key) && !Uses(s, e, key) && !Revokes(s, e, key)
    requires key in st.sessions && !Expired(st.sessions[key], e.now)
    ensures var r := Next(s, st, e).sessions; key in r && r[key] == st.sessions[key]
  {
    if e.step.Login? {
      LeaveLogin(s, st, e, key);
    } else if e.step.VerifyTotp? {
      LeaveVerify(s, st, e, key);
    } else if e.step.Confirm? {
      LeaveConfirm(s, st, e, key);
    }
  }

  // ---- The stored last use lags by at most a minute ----

  /** The stored last use is not after the real one, and lags behind it by at most the slack. */
  ghost predicate Lags(cfg: Config, x: Session, used: Option<int>) {
    used.Some? && x.lastUsed <= used.value <= x.lastUsed + Slack(cfg)
  }

  lemma {:induction false} LastUsedLags(s: Setting, init: Store, run: seq<Event>, n: nat, key: string)
    requires n <= |run| && Ordered(run) && init.sessions == map[]
    requires key in StateAt(s, init, run, n).sessions
    ensures Lags(s.cfg, StateAt(s, init, run, n).sessions[key], LastUse(s, init, run, n, key))
    ensures n > 0 && LastUse(s, init, run, n, key).value <= run[n - 1].now
    decreases n
  {
    if n > 0 {
      var st, e := StateAt(s, init, run, n - 1), run[n - 1];
      if GrantedKey(s, st, e) == Some(key) {
        GrantSession(s, st, e, key);
      } else {
        if key !in st.sessions {
          StaysAbsent(s, st, e, key);
        }
        LastUsedLags(s, init, run, n - 1, key);
        if Uses(s, e, key) {
          UseSession(s, st, e, key);
        } else {
          LeaveSession(s, st, e, key);
        }
      }
    }
  }

  lemma StaysAbsent(s: Setting, st: Store, e: Event, key: string)
    requires GrantedKey(s, st, e) != Some(key) && key !in st.sessions
    ensures key !in Next(s, st, e).sessions
  {
    if !Uses(s, e, key) {
      LeaveSession(s, st, e, key);
    }
  }

  /** The stored last use is not before the issue. */
  lemma {:induction false} UsedSinceIssue(s: Setting, init: Store, run: seq<Event>, n: nat, key: string)
    requires n <= |run| && init.sessions == map[] && key in StateAt(s, init, run, n).sessions
    ensures var x := StateAt(s, init, run, n).sessions[key]; x.expiresAt <= x.lastUsed + s.cfg.sessionTtlSecs * SECOND
    decreases n
  {
    if n > 0 {
      var st, e := StateAt(s, init, run, n - 1), run[n - 1];
      if GrantedKey(s, st, e) == Some(key) {
        GrantSession(s, st, e, key);
      } else {
        if key !in st.sessions {
          StaysAbsent(s, st, e, key);
        }
        UsedSinceIssue(s, init, run, n - 1, key);
        if Uses(s, e, key) {
          UseSession(s, st, e, key);
        } else {
          LeaveSession(s, st, e, key);
        }
      }
    }
  }

  /** A session not used for longer than the idle timeout is rejected, and removed. */
  lemma IdleIsRejected(s: Setting, init: Store, run: seq<Event>, n: nat, credential: string, now: int)
    requires n <= |run| && Ordered(run) && init.sessions == map[] && s.cfg.idleTimeoutSecs > 0
    requires s.p.tokenHash(credential) in StateAt(s, init, run, n).sessions
    requires LastUse(s, init, run, n, s.p.tokenHash(credential)).Some?
    requires now - LastUse(s, init, run, n, s.p.tokenHash(credential)).value > s.cfg.idleTimeoutSecs * SECOND
    ensures var (st, r) := ValidateResult(s, StateAt(s, init, run, n), credential, now); r.None? && s.p.tokenHash(credential) !in st.sessions
  {
    LastUsedLags(s, init, run, n, s.p.tokenHash(credential));
  }

  /** The gap since the last use is short enough for any lag. */
  ghost predicate SafelyRecent(cfg: Config, gap: int) {
    cfg.idleTimeoutSecs == 0 || gap + Slack(cfg) <= cfg.idleTimeoutSecs * SECOND
  }

  lemma RecentIsAccepted(s: Setting, init: Store, run: seq<Event>, n: nat, credential: string, now: int)
    requires n <= |run| && Ordered(run) && init.sessions == map[]
    requires s.p.tokenHash(credential) in StateAt(s, init, run, n).sessions
    requires !Expired(StateAt(s, init, run, n).sessions[s.p.tokenHash(credential)], now)
    requires LastUse(s, init, run, n, s.p.tokenHash(credential)).Some?
    requires SafelyRecent(s.cfg, now - LastUse(s, init, run, n, s.p.tokenHash(credential)).value)
    ensures ValidateResult(s, StateAt(s, init, run, n), credential, now).1.Some?
  {
    LastUsedLags(s, init, run, n, s.p.tokenHash(credential));
  }

  // ---- A session in use lives until its expiry ----

  /** An event that neither revokes nor reissues the session, comes before its expiry, and if it uses
      the session does so soon enough after the last use. */
  ghost predicate Considerate(s: Setting, init: Store, run: seq<Event>, j: nat, key: string, expiresAt: int)
    requires j < |run|
  {
    var st := StateAt(s, init, run, j);
    && GrantedKey(s, st, run[j]) != Some(key) && !Revokes(s, run[j], key) && run[j].now < expiresAt
    && (Uses(s, run[j], key) && LastUse(s, init, run, j, key).Some? ==> SafelyRecent(s.cfg, run[j].now - LastUse(s, init, run, j, key).value))
  }

  /** If the event uses the session, the use is accepted. */
  ghost predicate ServedAt(s: Setting, init: Store, run: seq<Event>, j: nat, key: string)
    requires j < |run|
  {
    Uses(s, run[j], key) ==> AcceptedUse(s, StateAt(s, init, run, j), run[j], key)
  }

  /** A considerate event keeps a live session, and is served if it uses it. */
  lemma ConsiderateKeeps(s: Setting, st: Store, e: Event, key: string, used: int)
    requires key in st.sessions && Lags(s.cfg, st.sessions[key], Some(used))
    requires GrantedKey(s, st, e) != Some(key) && !Revokes(s, e, key) && !Expired(st.sessions[key], e.now)
    requires Uses(s, e, key) ==> SafelyRecent(s.cfg, e.now - used)
    ensures var r := Next(s, st, e).sessions; key in r && SameGrant(r[key], st.sessions[key])
    ensures Uses(s, e, key) ==> AcceptedUse(s, st, e, key)
  {
    if Uses(s, e, key) {
      UseSession(s, st, e, key);
    } else {
      KeepSession(s, st, e, key);
    }
  }

  /** The session granted as `x` is still there after `n` events. */
  ghost predicate Alive(s: Setting, init: Store, run: seq<Event>, n: nat, key: string, x: Session)
    requires n <= |run|
  {
    key in StateAt(s, init, run, n).sessions && SameGrant(StateAt(s, init, run, n).sessions[key], x)
  }

  lemma KeptAt(s: Setting, init: Store, run: seq<Event>, n: nat, key: string, x: Session)
    requires 0 < n <= |run| && Ordered(run) && init.sessions == map[]
    requires Alive(s, init, run, n - 1, key, x) && Considerate(s, init, run, n - 1, key, x.expiresAt)
    ensures Alive(s, init, run, n, key, x) && ServedAt(s, init, run, n - 1, key)
  {
    LastUsedLags(s, init, run, n - 1, key);
    ConsiderateKeeps(s, StateAt(s, init, run, n - 1), run[n - 1], key, LastUse(s, init, run, n - 1, key).value);
  }

  /** From its issue on, a session that is used soon enough and not revoked stays until it expires. */
  lemma {:induction false} SessionInUseLives(s: Setting, init: Store, run: seq<Event>, i: nat, n: nat, key: string, x: Session)
    requires i <= n <= |run| && Ordered(run) && init.sessions == map[] && Alive(s, init, run, i, key, x)
    requires forall j: nat :: i <= j < n ==> Considerate(s, init, run, j, key, x.expiresAt)
    ensures Alive(s, init, run, n, key, x)
    decreases n
  {
    hide *;
    if i < n {
      SessionInUseLives(s, init, run, i, n - 1, key, x);
      KeptAt(s, init, run, n, key, x);
    }
  }

  /** And every use of it is accepted. */
  lemma SessionInUseServed(s: Setting, init: Store, run: seq<Event>, i: nat, n: nat, key: string, x: Session)
    requires i <= n < |run| && Ordered(run) && init.sessions == map[] && Alive(s, init, run, i, key, x)
    requires forall j: nat :: i <= j <= n ==> Considerate(s, init, run, j, key, x.expiresAt)
    ensures ServedAt(s, init, run, n, key)
  {
    SessionInUseLives(s, init, run, i, n, key, x);
    KeptAt(s, init, run, n + 1, key, x);
  }

  // ---- The safe gap is exact ----

  /** In no run does a gap of at most `gap` since the last use get a live session of this token rejected. */
  ghost predicate SafeGap(s: Setting, credential: string, gap: int) {
    forall run, now :: SafeIn(s, run, credential, now, gap)
  }

  const NOTHING := Store(map[], map[], map[], map[])

  /** A session that is not expired, and was last used at most `gap` ago. */
  ghost predicate LiveWithin(s: Setting, run: seq<Event>, key: string, now: int, gap: int) {
    && Ordered(run) && key in StateAt(s, NOTHING, run, |run|).sessions && !Expired(StateAt(s, NOTHING, run, |run|).sessions[key], now)
    && LastUse(s, NOTHING, run, |run|, key).Some?
    && LastUse(s, NOTHING, run, |run|, key).value <= now <= LastUse(s, NOTHING, run, |run|, key).value + gap
  }

  ghost predicate SafeIn(s: Setting, run: seq<Event>, credential: string, now: int, gap: int) {
    LiveWithin(s, run, s.p.tokenHash(credential), now, gap) ==>
      ValidateResult(s, StateAt(s, NOTHING, run, |run|), credential, now).1.Some?
  }

  /** No idle timeout, or one no shorter than a session's lifetime, or room for the slack. */
  predicate GapAllowed(cfg: Config, gap: int) {
    || cfg.idleTimeoutSecs == 0 || cfg.sessionTtlSecs <= cfg.idleTimeoutSecs
    || gap + Slack(cfg) <= cfg.idleTimeoutSecs * SECOND
  }

  /** Issued at 0 and used once so soon that the use is not recorded. */
  function UnrecordedUse(x: Session, token: string, late: int): (run: seq<Event>) {
    [Event(External(x.username, x.role, x.org, token), 0), Event(Validate(token), late)]
  }

  lemma UnrecordedUseLags(s: Setting, x: Session, token: string, late: int)
    requires 0 <= late <= Slack(s.cfg) && late < s.cfg.sessionTtlSecs * SECOND
    requires IssuedAt(s.cfg, x, 0)
    ensures var key := s.p.tokenHash(token);
            && StateAt(s, NOTHING, UnrecordedUse(x, token, late), 2).sessions == map[key := x]
            && LastUse(s, NOTHING, UnrecordedUse(x, token, late), 2, key) == Some(late)
  {
    var key, run := s.p.tokenHash(token), UnrecordedUse(x, token, late);
    var st := StateAt(s, NOTHING, run, 1);
    assert StateAt(s, NOTHING, run, 0) == NOTHING;
    assert st == Next(s, NOTHING, run[0]);
    assert st.sessions == map[key := x];
    UseSession(s, st, run[1], key);
    assert AcceptedUse(s, st, run[1], key);
    assert StateAt(s, NOTHING, run, 2) == Next(s, st, run[1]);
  }

  /** A gap that leaves no room for the slack: some run gets the session rejected before its expiry. */
  lemma UnsafeGap(s: Setting, x: Session, token: string, gap: nat)
    requires !GapAllowed(s.cfg, gap) && IssuedAt(s.cfg, x, 0)
    ensures !SafeGap(s, token, gap)
  {
    var idle := s.cfg.idleTimeoutSecs * SECOND;
    var late := if idle < gap then 0 else idle - gap + 1;
    UnrecordedUseLags(s, x, token, late);
    assert !SafeIn(s, UnrecordedUse(x, token, late), token, idle + 1, gap);
  }

  lemma SafeRun(s: Setting, run: seq<Event>, credential: string, now: int, gap: nat)
    requires GapAllowed(s.cfg, gap)
    ensures SafeIn(s, run, credential, now, gap)
  {
    var key := s.p.tokenHash(credential);
    if LiveWithin(s, run, key, now, gap) {
      LastUsedLags(s, NOTHING, run, |run|, key);
      UsedSinceIssue(s, NOTHING, run, |run|, key);
      var x := StateAt(s, NOTHING, run, |run|).sessions[key];
      assert !IdledOut(s.cfg, x, now);
    }
  }

  /** A gap is safe in all runs if and only if there is no idle timeout within a session's lifetime,
      or it leaves room for the slack. */
  lemma SafeGapExactly(s: Setting, credential: string, gap: nat)
    ensures SafeGap(s, credential, gap) <==> GapAllowed(s.cfg, gap)
  {
    if GapAllowed(s.cfg, gap) {
      forall run, now
        ensures SafeIn(s, run, credential, now, gap)
      {
        SafeRun(s, run, credential, now, gap);
      }
    } else {
      UnsafeGap(s, Session("", Viewer, "", s.cfg.sessionTtlSecs * SECOND, 0), credential, gap);
    }
  }

  // ---- Rejection is final ----

  ghost predicate IssuesAt(s: Setting, init: Store, run: seq<Event>, j: nat, key: string)
    requires j < |run|
  {
    GrantedKey(s, StateAt(s, init, run, j), run[j]) == Some(key)
  }

  lemma AbsentAfter(s: Setting, init: Store, run: seq<Event>, n: nat, key: string)
    requires 0 < n <= |run| && key !in StateAt(s, init, run, n - 1).sessions && !IssuesAt(s, init, run, n - 1, key)
    ensures key !in StateAt(s, init, run, n).sessions
  {
    StaysAbsent(s, StateAt(s, init, run, n - 1), run[n - 1], key);
  }

  lemma {:induction false} AbsentStays(s: Setting, init: Store, run: seq<Event>, m: nat, n: nat, key: string)
    requires m <= n <= |run| && key !in StateAt(s, init, run, m).sessions
    requires forall j: nat :: m <= j < n ==> !IssuesAt(s, init, run, j, key)
    ensures key !in StateAt(s, init, run, n).sessions
    decreases n
  {
    hide *;
    if m < n {
      AbsentStays(s, init, run, m, n - 1, key);
      assert !IssuesAt(s, init, run, n - 1, key);
      AbsentAfter(s, init, run, n, key);
    }
  }

  /** A token that was rejected, and under whose hash no session was issued since, is accepted
      again if and only if the configuration lists its hash as an API key. */
  lemma RejectedStaysRejected(s: Setting, init: Store, run: seq<Event>, i: nat, n: nat, credential: string, now: int)
    requires i < n <= |run| && run[i].step == Validate(credential)
    requires ValidateResult(s, StateAt(s, init, run, i), credential, run[i].now).1.None?
    requires forall j: nat :: i < j < n ==> !IssuesAt(s, init, run, j, s.p.tokenHash(credential))
    ensures s.p.tokenHash(credential) !in StateAt(s, init, run, n).sessions
    ensures ValidateResult(s, StateAt(s, init, run, n), credential, now).1.Some? <==> FindKey(s.cfg.apiKeys, s.p.tokenHash(credential)).Some?
  {
    hide Next;
    hide StateAt;
    var key := s.p.tokenHash(credential);
    RejectedIsAbsent(s, init, run, i, credential);
    AbsentStays(s, init, run, i + 1, n, key);
  }

  lemma RejectedIsAbsent(s: Setting, init: Store, run: seq<Event>, i: nat, credential: string)
    requires i < |run| && run[i].step == Validate(credential)
    requires ValidateResult(s, StateAt(s, init, run, i), credential, run[i].now).1.None?
    ensures s.p.tokenHash(credential) !in StateAt(s, init, run, i + 1).sessions
  {
    hide Next;
    StepIsOperation(s, StateAt(s, init, run, i), run[i]);
  }
}
