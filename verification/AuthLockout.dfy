/** How many wrong passwords the lockout lets through. */
module AuthLockout {
  import opened Auth
  import opened AuthRuns
  import opened Options

  /** A login that got as far as checking the password, and failed. */
  predicate WrongPassword(s: Setting, st: Store, e: Event, username: string) {
    && e.step.Login? && e.step.username == username && !IsLocked(s.cfg, st, username, e.now)
    && !PasswordRight(s, st, username, e.step.password)
  }

  /** A login that got as far as checking the password, and passed. */
  predicate RightPassword(s: Setting, st: Store, e: Event, username: string) {
    && e.step.Login? && e.step.username == username && !IsLocked(s.cfg, st, username, e.now)
    && PasswordRight(s, st, username, e.step.password)
  }

  function WrongPasswords(s: Setting, st: Store, events: seq<Event>, username: string): (n: nat)
    decreases |events|
  {
    if events == [] then 0
    else (if WrongPassword(s, st, events[0], username) then 1 else 0) + WrongPasswords(s, Next(s, st, events[0]), events[1..], username)
  }

  ghost predicate NoRightPassword(s: Setting, st: Store, events: seq<Event>, username: string)
    decreases |events|
  {
    events != [] ==> !RightPassword(s, st, events[0], username) && NoRightPassword(s, Next(s, st, events[0]), events[1..], username)
  }

  /** How many wrong passwords are left until `end`, given a lock set now outlasts `end`. */
  function Budget(cfg: Config, lockouts: map<string, Lockout>, username: string, end: int): (n: int) {
    if username !in lockouts then cfg.maxFailedLogins
    else
      var l := lockouts[username];
      if l.lockedUntil.Some? then if l.lockedUntil.value > end then 0 else cfg.maxFailedLogins
      else if l.failures < cfg.maxFailedLogins then cfg.maxFailedLogins - l.failures
      else 1
  }

  /** A recorded failure never raises the budget, and takes one from it unless a lock is running. */
  lemma FailureSpends(cfg: Config, st: Store, username: string, now: int, end: int)
    requires cfg.maxFailedLogins > 0 && now <= end < now + cfg.lockoutSecs * SECOND
    ensures var left := Budget(cfg, Failed(cfg, st, username, now).lockouts, username, end);
            && 0 <= left <= Budget(cfg, st.lockouts, username, end)
            && (!IsLocked(cfg, st, username, now) ==> left + 1 <= Budget(cfg, st.lockouts, username, end))
  {
  }

  lemma LoginRow(s: Setting, st: Store, e: Event, username: string)
    requires e.step.Login? && !RightPassword(s, st, e, username)
    ensures Row(Next(s, st, e), username) == Row(if WrongPassword(s, st, e, username) then Failed(s.cfg, st, username, e.now) else st, username)
  {
    if e.step.username == username {
      assert Next(s, st, e) == if WrongPassword(s, st, e, username) then Failed(s.cfg, st, username, e.now) else st;
    }
  }

  lemma VerifyRow(s: Setting, st: Store, e: Event, username: string)
    requires e.step.VerifyTotp?
    ensures var r := Next(s, st, e);
            || Row(r, username) == Row(st, username)
            || Row(r, username) == Row(Failed(s.cfg, st, username, e.now), username)
  {
    hide Next;
    StepIsOperation(s, st, e);
  }

  lemma OtherRow(s: Setting, st: Store, e: Event, username: string)
    requires !e.step.Login? && !e.step.VerifyTotp?
    ensures Row(Next(s, st, e), username) == Row(st, username)
  {
    match e.step
    case External(u, role, org, token) =>
    case Setup(u, pw, hashed, token) =>
    case Begin(pt, secret, urlOk, token) =>
    case Confirm(pt, code, codes, token) =>
    case Logout(token) =>
    case Validate(credential) =>
    case Purge =>
    case Edit(users, revoked) =>
  }

  /** Apart from recorded failures and right passwords no event touches a user's lockout row. */
  lemma RowUntouched(s: Setting, st: Store, e: Event, username: string)
    requires !RightPassword(s, st, e, username)
    ensures var r := Next(s, st, e);
            || (Row(r, username) == Row(st, username) && !WrongPassword(s, st, e, username))
            || Row(r, username) == Row(Failed(s.cfg, st, username, e.now), username)
  {
    if e.step.Login? {
      LoginRow(s, st, e, username);
    } else if e.step.VerifyTotp? {
      VerifyRow(s, st, e, username);
    } else {
      OtherRow(s, st, e, username);
    }
  }

  function Row(st: Store, username: string): (r: Option<Lockout>) {
    if username in st.lockouts then Some(st.lockouts[username]) else None
  }

  lemma BudgetOfRow(cfg: Config, a: Store, b: Store, username: string, end: int)
    requires Row(a, username) == Row(b, username)
    ensures Budget(cfg, a.lockouts, username, end) == Budget(cfg, b.lockouts, username, end)
  {
  }

  lemma EventSpends(s: Setting, st: Store, e: Event, username: string, end: int)
    requires s.cfg.maxFailedLogins > 0 && e.now <= end < e.now + s.cfg.lockoutSecs * SECOND
    requires !RightPassword(s, st, e, username)
    ensures var left := Budget(s.cfg, Next(s, st, e).lockouts, username, end);
            left + (if WrongPassword(s, st, e, username) then 1 else 0) <= Budget(s.cfg, st.lockouts, username, end)
  {
    var failed, r := Failed(s.cfg, st, username, e.now), Next(s, st, e);
    FailureSpends(s.cfg, st, username, e.now, end);
    RowUntouched(s, st, e, username);
    if Row(r, username) == Row(failed, username) {
      BudgetOfRow(s.cfg, r, failed, username, end);
    } else {
      BudgetOfRow(s.cfg, r, st, username, end);
    }
  }

  lemma {:induction false} EventsSpend(s: Setting, st: Store, events: seq<Event>, username: string, start: int, end: int)
    requires s.cfg.maxFailedLogins > 0 && end < start + s.cfg.lockoutSecs * SECOND
    requires forall i :: 0 <= i < |events| ==> start <= events[i].now <= end
    requires NoRightPassword(s, st, events, username)
    ensures WrongPasswords(s, st, events, username) <= Budget(s.cfg, st.lockouts, username, end)
    decreases |events|
  {
    if events != [] {
      EventSpends(s, st, events[0], username, end);
      EventsSpend(s, Next(s, st, events[0]), events[1..], username, start, end);
    }
  }

  /** From any state, in any window shorter than the lockout without a right password, at most
      `max_failed_logins` logins get as far as failing a password check. */
  lemma LockoutBound(s: Setting, st: Store, events: seq<Event>, username: string, start: int, end: int)
    requires s.cfg.maxFailedLogins > 0 && end < start + s.cfg.lockoutSecs * SECOND
    requires forall i :: 0 <= i < |events| ==> start <= events[i].now <= end
    requires NoRightPassword(s, st, events, username)
    ensures WrongPasswords(s, st, events, username) <= s.cfg.maxFailedLogins
  {
    EventsSpend(s, st, events, username, start, end);
  }

  // ---- A lock holds ----

  ghost predicate LockedTo(st: Store, username: string, until: int) {
    username in st.lockouts && st.lockouts[username].lockedUntil.Some? && until <= st.lockouts[username].lockedUntil.value
  }

  /** While a lock runs, every login of the user is refused, and the lock is not cut short. */
  lemma {:induction false} LockHolds(s: Setting, st: Store, events: seq<Event>, username: string, until: int)
    requires s.cfg.maxFailedLogins > 0 && LockedTo(st, username, until)
    requires forall i :: 0 <= i < |events| ==> until - s.cfg.lockoutSecs * SECOND <= events[i].now < until
    ensures AllRefused(s, st, events, username) && LockedTo(AfterAll(s, st, events), username, until)
    decreases |events|
  {
    if events != [] {
      var e := events[0];
      RowUntouched(s, st, e, username);
      assert LockedTo(Next(s, st, e), username, until);
      LockHolds(s, Next(s, st, e), events[1..], username, until);
    }
  }

  ghost predicate AllRefused(s: Setting, st: Store, events: seq<Event>, username: string)
    decreases |events|
  {
    events != [] ==> Refused(s, st, events[0], username) && AllRefused(s, Next(s, st, events[0]), events[1..], username)
  }

  ghost predicate Refused(s: Setting, st: Store, e: Event, username: string) {
    e.step.Login? && e.step.username == username ==>
      LoginResult(s, st, username, e.step.password, e.step.token, e.now).1.LockedOut? && Next(s, st, e) == st
  }

  // ---- The bound is reached ----

  function Guesses(username: string, password: string, token: string, now: int, n: nat): (events: seq<Event>)
    ensures |events| == n && forall i :: 0 <= i < n ==> events[i].now == now
  {
    if n == 0 then [] else [Event(Login(username, password, token), now)] + Guesses(username, password, token, now, n - 1)
  }

  /** From a clean row exactly `max_failed_logins` wrong guesses are checked, and then the lock is on. */
  lemma {:induction false} GuessesLock(s: Setting, st: Store, username: string, password: string, token: string, now: int, n: nat)
    requires 0 < n <= s.cfg.maxFailedLogins && s.cfg.lockoutSecs > 0 && !PasswordRight(s, st, username, password)
    requires var l := Streak(st, username, now); l.failures + n == s.cfg.maxFailedLogins && l.lockedUntil.None?
    ensures WrongPasswords(s, st, Guesses(username, password, token, now, n), username) == n
    ensures IsLocked(s.cfg, AfterAll(s, st, Guesses(username, password, token, now, n)), username, now)
    decreases n
  {
    var rest := Guesses(username, password, token, now, n - 1);
    var e := Event(Login(username, password, token), now);
    assert Guesses(username, password, token, now, n)[1..] == rest;
    assert !IsLocked(s.cfg, st, username, now);
    assert Next(s, st, e) == Failed(s.cfg, st, username, now);
    if n > 1 {
      GuessesLock(s, Next(s, st, e), username, password, token, now, n - 1);
    }
  }

  // ---- Codes are bounded by the challenges, not by the lockout ----

  /** A code that was checked against a live challenge of the user, and failed. */
  ghost predicate WrongCode(s: Setting, st: Store, e: Event, username: string) {
    && e.step.VerifyTotp? && Holds(s, st, e.step.pendingToken, Verify, username, e.now)
    && !CodeRight(s, st.users[username], username, e.step.code, e.now)
  }

  ghost function WrongCodes(s: Setting, st: Store, events: seq<Event>, username: string): (n: nat)
    decreases |events|
  {
    if events == [] then 0
    else (if WrongCode(s, st, events[0], username) then 1 else 0) + WrongCodes(s, Next(s, st, events[0]), events[1..], username)
  }

  /** What somebody who knows the password and not the code presents. */
  datatype Guess = Guess(username: string, password: string, pending: string, code: string, token: string, now: int)

  ghost predicate KnowsPasswordOnly(s: Setting, st: Store, g: Guess) {
    && FindUser(s.cfg.users, g.username).None? && g.username in st.users && st.users[g.username].totpEnabled
    && s.p.passwordMatches(g.password, st.users[g.username].passwordHash)
    && !CodeRight(s, st.users[g.username], g.username, g.code, g.now)
  }

  /** Log in and present the wrong code, `n` times. */
  function Rounds(g: Guess, n: nat): (events: seq<Event>) {
    if n == 0 then []
    else [Event(Login(g.username, g.password, g.pending), g.now), Event(VerifyTotp(g.pending, g.code, g.token), g.now)] + Rounds(g, n - 1)
  }

  /** One failure is enough for a lock. */
  predicate LocksAtOnce(cfg: Config) {
    cfg.maxFailedLogins == 1 && cfg.lockoutSecs > 0
  }

  lemma LoginStepChallenges(s: Setting, st: Store, g: Guess)
    requires KnowsPasswordOnly(s, st, g) && !IsLocked(s.cfg, st, g.username, g.now)
    ensures var r := Next(s, st, Event(Login(g.username, g.password, g.pending), g.now));
            && r.users == st.users && Row(r, g.username) == None && Holds(s, r, g.pending, Verify, g.username, g.now)
  {
  }

  lemma CodeStepFails(s: Setting, st: Store, g: Guess)
    requires KnowsPasswordOnly(s, st, g) && Row(st, g.username) == None && Holds(s, st, g.pending, Verify, g.username, g.now)
    ensures var r := Next(s, st, Event(VerifyTotp(g.pending, g.code, g.token), g.now));
            && r.users == st.users && (IsLocked(s.cfg, r, g.username, g.now) <==> LocksAtOnce(s.cfg)) && s.p.tokenHash(g.pending) !in r.pending
  {
  }

  /** Under a lock, and without a challenge left, nothing is checked any more. */
  lemma {:induction false} LockedRounds(s: Setting, st: Store, g: Guess, n: nat)
    requires IsLocked(s.cfg, st, g.username, g.now) && s.p.tokenHash(g.pending) !in st.pending
    ensures WrongCodes(s, st, Rounds(g, n), g.username) == 0
    decreases n
  {
    if n > 0 {
      var login, code := Event(Login(g.username, g.password, g.pending), g.now), Event(VerifyTotp(g.pending, g.code, g.token), g.now);
      assert Next(s, st, login) == st;
      TwoEvents(s, st, login, code, Rounds(g, n - 1), g.username);
      assert IsLocked(s.cfg, Next(s, st, code), g.username, g.now) && s.p.tokenHash(g.pending) !in Next(s, st, code).pending;
      LockedRounds(s, Next(s, st, code), g, n - 1);
    }
  }

  lemma TwoEvents(s: Setting, st: Store, a: Event, b: Event, rest: seq<Event>, username: string)
    ensures WrongCodes(s, st, [a, b] + rest, username) ==
            (if WrongCode(s, st, a, username) then 1 else 0) + (if WrongCode(s, Next(s, st, a), b, username) then 1 else 0)
            + WrongCodes(s, Next(s, Next(s, st, a), b), rest, username)
  {
    hide Next;
    assert ([a, b] + rest)[1..] == [b] + rest && ([b] + rest)[1..] == rest;
  }

  /** Logging in again for every code: a right password clears the row before the code is checked, so
      all codes are checked, unless the first failure locks the next login out. */
  lemma {:induction false} CodesGuessed(s: Setting, st: Store, g: Guess, n: nat)
    requires KnowsPasswordOnly(s, st, g) && !IsLocked(s.cfg, st, g.username, g.now)
    ensures WrongCodes(s, st, Rounds(g, n), g.username) == if LocksAtOnce(s.cfg) && n > 0 then 1 else n
    decreases n
  {
    if n > 0 {
      hide Next;
      var login, code := Event(Login(g.username, g.password, g.pending), g.now), Event(VerifyTotp(g.pending, g.code, g.token), g.now);
      LoginStepChallenges(s, st, g);
      var challenged := Next(s, st, login);
      CodeStepFails(s, challenged, g);
      var failed := Next(s, challenged, code);
      TwoEvents(s, st, login, code, Rounds(g, n - 1), g.username);
      if LocksAtOnce(s.cfg) {
        LockedRounds(s, failed, g, n - 1);
      } else {
        CodesGuessed(s, failed, g, n - 1);
      }
    }
  }

  // ---- Every checked code uses up a challenge ----

  /** The keys of the user's challenges that wait for a code. */
  ghost function Open(st: Store, username: string): (keys: set<string>) {
    set key | key in st.pending && st.pending[key].kind == Verify && st.pending[key].username == username
  }

  ghost function RightPasswords(s: Setting, st: Store, events: seq<Event>, username: string): (n: nat)
    decreases |events|
  {
    if events == [] then 0
    else (if RightPassword(s, st, events[0], username) then 1 else 0) + RightPasswords(s, Next(s, st, events[0]), events[1..], username)
  }

  lemma {:induction false} SubsetSize<T>(a: set<T>, b: set<T>)
    requires a <= b
    ensures |a| <= |b|
  {
    if a != {} {
      var x :| x in a;
      SubsetSize(a - {x}, b - {x});
    }
  }

  /** A login that does not get past the password changes no challenge. */
  lemma RefusedLogin(s: Setting, st: Store, e: Event, username: string)
    requires e.step.Login? && e.step.username == username && !RightPassword(s, st, e, username)
    ensures Next(s, st, e).pending == st.pending
  {
    hide Next;
    StepIsOperation(s, st, e);
  }

  /** A challenge that waits for a code is handed out for a right password only. */
  lemma OpensForPassword(s: Setting, st: Store, e: Event, username: string, key: string)
    requires key in Open(Next(s, st, e), username) && key !in Open(st, username)
    ensures e.step.Login? && RightPassword(s, st, e, username) && key == s.p.tokenHash(e.step.token)
  {
    hide Next;
    hide RightPassword;
    NewChallenge(s, st, e, key);
    if !RightPassword(s, st, e, username) {
      RefusedLogin(s, st, e, username);
    }
  }

  lemma OpenGrowsBy(s: Setting, st: Store, e: Event, username: string)
    ensures |Open(Next(s, st, e), username)| <= |Open(st, username)| + if RightPassword(s, st, e, username) then 1 else 0
  {
    hide Next;
    hide RightPassword;
    var a, b := Open(st, username), Open(Next(s, st, e), username);
    var more := if RightPassword(s, st, e, username) && e.step.Login? then {s.p.tokenHash(e.step.token)} else {};
    forall key | key in b
      ensures key in a + more
    {
      if key !in a {
        OpensForPassword(s, st, e, username, key);
      }
    }
    SubsetSize(b, a + more);
  }

  lemma CodeCloses(s: Setting, st: Store, e: Event, username: string)
    requires WrongCode(s, st, e, username)
    ensures |Open(Next(s, st, e), username)| + 1 <= |Open(st, username)|
  {
    hide Next;
    var key, a, b := s.p.tokenHash(e.step.pendingToken), Open(st, username), Open(Next(s, st, e), username);
    VerifyChallenge(s, st, e);
    SpentChallenge(s, st, e);
    SubsetSize(b, a - {key});
  }

  /** From any state, over any events, no more wrong codes of a user are checked than challenges were
      waiting and right passwords came in. */
  lemma {:induction false} CodesBound(s: Setting, st: Store, events: seq<Event>, username: string)
    ensures WrongCodes(s, st, events, username) <= |Open(st, username)| + RightPasswords(s, st, events, username)
    decreases |events|
  {
    hide Next;
    hide WrongCode;
    hide RightPassword;
    hide Open;
    if events != [] {
      CodesBound(s, Next(s, st, events[0]), events[1..], username);
      OpenGrowsBy(s, st, events[0], username);
      if WrongCode(s, st, events[0], username) {
        CodeCloses(s, st, events[0], username);
      }
    }
  }

  // ---- No setting does better ----

  /** One login per token. */
  function Logins(g: Guess, tokens: seq<string>): (events: seq<Event>)
    decreases |tokens|
  {
    if tokens == [] then [] else [Event(Login(g.username, g.password, tokens[0]), g.now)] + Logins(g, tokens[1..])
  }

  /** One wrong code per token. */
  function Codes(g: Guess, tokens: seq<string>): (events: seq<Event>)
    decreases |tokens|
  {
    if tokens == [] then [] else [Event(VerifyTotp(tokens[0], g.code, g.token), g.now)] + Codes(g, tokens[1..])
  }

  ghost predicate DifferentHashes(s: Setting, tokens: seq<string>) {
    forall i, j :: 0 <= i < j < |tokens| ==> s.p.tokenHash(tokens[i]) != s.p.tokenHash(tokens[j])
  }

  ghost predicate AllHeld(s: Setting, st: Store, g: Guess, tokens: seq<string>) {
    forall i :: 0 <= i < |tokens| ==> Holds(s, st, tokens[i], Verify, g.username, g.now)
  }

  /** A login adds its challenge and leaves the others live. */
  lemma LoginKeepsHeld(s: Setting, st: Store, g: Guess, token: string, other: string)
    requires KnowsPasswordOnly(s, st, g) && !IsLocked(s.cfg, st, g.username, g.now)
    requires other == token || Holds(s, st, other, Verify, g.username, g.now)
    ensures var r := Next(s, st, Event(Login(g.username, g.password, token), g.now));
            && r.users == st.users && Row(r, g.username) == None && Holds(s, r, other, Verify, g.username, g.now)
  {
    hide Next;
    StepIsOperation(s, st, Event(Login(g.username, g.password, token), g.now));
  }

  lemma {:induction false} Collected(s: Setting, st: Store, g: Guess, tokens: seq<string>, held: seq<string>)
    requires KnowsPasswordOnly(s, st, g) && !IsLocked(s.cfg, st, g.username, g.now) && AllHeld(s, st, g, held)
    ensures AfterAll(s, st, Logins(g, tokens)).users == st.users && AllHeld(s, AfterAll(s, st, Logins(g, tokens)), g, held + tokens)
    ensures WrongCodes(s, st, Logins(g, tokens), g.username) == 0
    decreases |tokens|
  {
    hide Next;
    if tokens == [] {
      assert held + tokens == held;
    } else {
      var e := Event(Login(g.username, g.password, tokens[0]), g.now);
      LoginKeepsHeld(s, st, g, tokens[0], tokens[0]);
      var r, now := Next(s, st, e), held + [tokens[0]];
      forall i | 0 <= i < |now|
        ensures Holds(s, r, now[i], Verify, g.username, g.now)
      {
        LoginKeepsHeld(s, st, g, tokens[0], now[i]);
      }
      Collected(s, r, g, tokens[1..], now);
      assert now + tokens[1..] == held + tokens;
      assert Logins(g, tokens)[1..] == Logins(g, tokens[1..]);
    }
  }

  /** A wrong code uses up its own challenge only, lock or no lock. */
  lemma CodeKeepsHeld(s: Setting, st: Store, g: Guess, token: string, other: string)
    requires KnowsPasswordOnly(s, st, g) && Holds(s, st, token, Verify, g.username, g.now)
    requires Holds(s, st, other, Verify, g.username, g.now) && s.p.tokenHash(other) != s.p.tokenHash(token)
    ensures Holds(s, Next(s, st, Event(VerifyTotp(token, g.code, g.token), g.now)), other, Verify, g.username, g.now)
  {
    hide Next;
    StepIsOperation(s, st, Event(VerifyTotp(token, g.code, g.token), g.now));
  }

  lemma CodeKeepsUsers(s: Setting, st: Store, g: Guess, token: string)
    requires KnowsPasswordOnly(s, st, g) && Holds(s, st, token, Verify, g.username, g.now)
    ensures Next(s, st, Event(VerifyTotp(token, g.code, g.token), g.now)).users == st.users
  {
    hide Next;
    StepIsOperation(s, st, Event(VerifyTotp(token, g.code, g.token), g.now));
  }

  lemma {:induction false} AllChecked(s: Setting, st: Store, g: Guess, tokens: seq<string>)
    requires KnowsPasswordOnly(s, st, g) && AllHeld(s, st, g, tokens) && DifferentHashes(s, tokens)
    ensures WrongCodes(s, st, Codes(g, tokens), g.username) == |tokens|
    decreases |tokens|
  {
    hide Next;
    if tokens != [] {
      var e, rest := Event(VerifyTotp(tokens[0], g.code, g.token), g.now), tokens[1..];
      var r := Next(s, st, e);
      assert Holds(s, st, tokens[0], Verify, g.username, g.now);
      CodeKeepsUsers(s, st, g, tokens[0]);
      forall i | 0 <= i < |rest|
        ensures Holds(s, r, rest[i], Verify, g.username, g.now)
      {
        assert rest[i] == tokens[i + 1];
        CodeKeepsHeld(s, st, g, tokens[0], rest[i]);
      }
      AllChecked(s, r, g, rest);
      assert Codes(g, tokens)[1..] == Codes(g, rest);
      assert WrongCode(s, st, e, g.username);
    }
  }

  lemma {:induction false} WrongCodesAppend(s: Setting, st: Store, a: seq<Event>, b: seq<Event>, username: string)
    ensures WrongCodes(s, st, a + b, username) == WrongCodes(s, st, a, username) + WrongCodes(s, AfterAll(s, st, a), b, username)
    decreases |a|
  {
    hide Next;
    hide WrongCode;
    if a == [] {
      assert a + b == b;
    } else {
      assert (a + b)[1..] == a[1..] + b && (a + b)[0] == a[0];
      WrongCodesAppend(s, Next(s, st, a[0]), a[1..], b, username);
    }
  }

  /** Challenges collected first: with any configuration, as many wrong codes are checked in one instant
      as challenges were collected, so no number of failed logins bounds the codes. */
  lemma CodesCollected(s: Setting, st: Store, g: Guess, tokens: seq<string>)
    requires KnowsPasswordOnly(s, st, g) && !IsLocked(s.cfg, st, g.username, g.now) && DifferentHashes(s, tokens)
    ensures WrongCodes(s, st, Logins(g, tokens) + Codes(g, tokens), g.username) == |tokens|
  {
    hide Next;
    hide WrongCodes;
    Collected(s, st, g, tokens, []);
    assert [] + tokens == tokens;
    AllChecked(s, AfterAll(s, st, Logins(g, tokens)), g, tokens);
    WrongCodesAppend(s, st, Logins(g, tokens), Codes(g, tokens), g.username);
  }
}
