/** Runs of the authentication machine: any interleaving of calls, with any tokens, and any edits
    of the user table from outside. */
module AuthRuns {
  import opened Auth
  import opened Options

  datatype Step =
    | Login(username: string, password: string, token: string)
    | External(username: string, role: Role, org: string, token: string)
    | Setup(username: string, password: string, hashed: Option<string>, token: string)
    | VerifyTotp(pendingToken: string, code: string, token: string)
    | Begin(pendingToken: string, secret: string, urlOk: bool, token: string)
    | Confirm(pendingToken: string, code: string, codes: seq<string>, token: string)
    | Logout(token: string)
    | Validate(credential: string)
    | Purge
    | Edit(users: map<string, User>, revoked: set<string>)

  datatype Event = Event(step: Step, now: int)

  function Next(s: Setting, st: Store, e: Event): (r: Store) {
    match e.step
    case Login(u, pw, token) => LoginResult(s, st, u, pw, token, e.now).0
    case External(u, role, org, token) => WithSession(s.cfg, st, s.p.tokenHash(token), u, role, org, e.now)
    case Setup(u, pw, hashed, token) => SetupResult(s, st, u, pw, hashed, token, e.now).0
    case VerifyTotp(pt, code, token) => VerifyResult(s, st, pt, code, token, e.now).0
    case Begin(pt, secret, urlOk, token) => BeginResult(s, st, pt, secret, urlOk, token, e.now).0
    case Confirm(pt, code, codes, token) => ConfirmResult(s, st, pt, code, codes, token, e.now).0
    case Logout(token) => WithoutSession(st, s.p.tokenHash(token))
    case Validate(credential) => ValidateResult(s, st, credential, e.now).0
    case Purge => Purged(st, e.now)
    case Edit(users, revoked) => st.(users := users, sessions := st.sessions - revoked)
  }

  /** A step is the operation it names. */
  lemma StepIsOperation(s: Setting, st: Store, e: Event)
    ensures e.step.Login? ==> Next(s, st, e) == LoginResult(s, st, e.step.username, e.step.password, e.step.token, e.now).0
    ensures e.step.Setup? ==> Next(s, st, e) == SetupResult(s, st, e.step.username, e.step.password, e.step.hashed, e.step.token, e.now).0
    ensures e.step.VerifyTotp? ==> Next(s, st, e) == VerifyResult(s, st, e.step.pendingToken, e.step.code, e.step.token, e.now).0
    ensures e.step.Begin? ==> Next(s, st, e) == BeginResult(s, st, e.step.pendingToken, e.step.secret, e.step.urlOk, e.step.token, e.now).0
    ensures e.step.Confirm? ==> Next(s, st, e) == ConfirmResult(s, st, e.step.pendingToken, e.step.code, e.step.codes, e.step.token, e.now).0
    ensures e.step.Validate? ==> Next(s, st, e) == ValidateResult(s, st, e.step.credential, e.now).0
  {
    hide LoginResult;
    hide SetupResult;
    hide VerifyResult;
    hide BeginResult;
    hide ConfirmResult;
    hide ValidateResult;
    hide WithSession;
    hide WithoutSession;
    hide Purged;
  }

  /** The store after the first `n` events. */
  function StateAt(s: Setting, init: Store, run: seq<Event>, n: nat): (r: Store)
    requires n <= |run|
  {
    if n == 0 then init else Next(s, StateAt(s, init, run, n - 1), run[n - 1])
  }

  /** The store after some events from a given one. */
  function AfterAll(s: Setting, st: Store, events: seq<Event>): (r: Store)
    decreases |events|
  {
    if events == [] then st else AfterAll(s, Next(s, st, events[0]), events[1..])
  }

  // ---- Where pending challenges come from ----

  /** A live challenge of a kind for a user under the hash of a token. */
  ghost predicate Holds(s: Setting, st: Store, token: string, kind: Kind, username: string, now: int) {
    var live := Live(st, s.p.tokenHash(token), kind, now);
    live.Some? && live.value.username == username && username in st.users
  }

  /** A password login of a stored user that got as far as the second factor. */
  ghost predicate PasswordStep(s: Setting, st: Store, e: Event, key: string, username: string, kind: Kind) {
    && e.step.Login? && e.step.username == username && s.p.tokenHash(e.step.token) == key
    && FindUser(s.cfg.users, username).None? && username in st.users
    && s.p.passwordMatches(e.step.password, st.users[username].passwordHash)
    && kind == (if st.users[username].totpEnabled then Verify else Enroll)
  }

  /** First-run setup, when there was no user at all. */
  ghost predicate SetupStep(s: Setting, st: Store, e: Event, key: string, username: string, kind: Kind) {
    && e.step.Setup? && s.p.trim(e.step.username) == username && s.p.tokenHash(e.step.token) == key
    && SetupRequired(s.cfg, st) && kind == Enroll
  }

  ghost predicate BeginStep(s: Setting, st: Store, e: Event, key: string, username: string, kind: Kind) {
    && e.step.Begin? && s.p.tokenHash(e.step.token) == key && kind == Enroll
    && Holds(s, st, e.step.pendingToken, Enroll, username, e.now)
  }

  /** Event `j` hands out the challenge: a correct password, first-run setup, or an enrollment step
      that used up a challenge which itself traces back. */
  ghost predicate HandsOut(s: Setting, init: Store, run: seq<Event>, j: nat, key: string, username: string, kind: Kind)
    requires j < |run|
    decreases j, 1
  {
    var st := StateAt(s, init, run, j);
    || PasswordStep(s, st, run[j], key, username, kind)
    || SetupStep(s, st, run[j], key, username, kind)
    || (BeginStep(s, st, run[j], key, username, kind) && Traced(s, init, run, j, s.p.tokenHash(run[j].step.pendingToken), username, Enroll))
  }

  ghost predicate Traced(s: Setting, init: Store, run: seq<Event>, n: nat, key: string, username: string, kind: Kind)
    requires n <= |run|
    decreases n, 0
  {
    exists j: nat :: j < n && HandsOut(s, init, run, j, key, username, kind)
  }

  // ---- Where sessions come from ----

  /** A session of a config-declared user after the right password. */
  ghost predicate DeclaredStep(s: Setting, e: Event, key: string, x: Session) {
    && e.step.Login? && e.step.username == x.username && s.p.tokenHash(e.step.token) == key
    && FindUser(s.cfg.users, x.username).Some?
    && s.p.passwordMatches(e.step.password, FindUser(s.cfg.users, x.username).value.passwordHash)
    && x.role == ParseRole(s.p, FindUser(s.cfg.users, x.username).value.role)
    && x.org == FindUser(s.cfg.users, x.username).value.org
  }

  /** An enrolled user's challenge is used up with the current code or with a backup code that is
      used up too. */
  ghost predicate SecondFactorStep(s: Setting, st: Store, e: Event, key: string, x: Session) {
    && e.step.VerifyTotp? && s.p.tokenHash(e.step.token) == key
    && Holds(s, st, e.step.pendingToken, Verify, x.username, e.now) && GrantsTo(s, st.users[x.username], x)
    && (|| s.p.totpMatches(SecretOf(st.users[x.username]), x.username, e.step.code, e.now)
        || BackupCodeUsed(s, st, Next(s, st, e), x.username, e.step.code))
  }

  ghost predicate BackupCodeUsed(s: Setting, before: Store, after: Store, username: string, code: string)
    requires username in before.users
  {
    && username in after.users && s.p.codeHash(code) in before.users[username].backupCodes
    && multiset(after.users[username].backupCodes) == multiset(before.users[username].backupCodes) - multiset{s.p.codeHash(code)}
  }

  /** An enrollment challenge is used up with the first code for the enrolled secret. */
  ghost predicate EnrolledStep(s: Setting, st: Store, e: Event, key: string, x: Session) {
    && e.step.Confirm? && s.p.tokenHash(e.step.token) == key
    && Holds(s, st, e.step.pendingToken, Enroll, x.username, e.now) && GrantsTo(s, st.users[x.username], x)
    && FirstCodeRight(s, st.users[x.username], x.username, e.step.code, e.now)
  }

  ghost predicate ExternalStep(s: Setting, e: Event, key: string, x: Session) {
    e.step.External? && s.p.tokenHash(e.step.token) == key && e.step.username == x.username && e.step.role == x.role && e.step.org == x.org
  }

  /** The session carries the stored user's role and tenant. */
  ghost predicate GrantsTo(s: Setting, u: User, x: Session) {
    x.role == ParseRole(s.p, u.role) && x.org == u.org
  }

  /** Event `i` issued the session (compared without its last use), and any challenge it used up
      was taken away and traces back to a correct password or first-run setup of the same user. */
  ghost predicate Issues(s: Setting, init: Store, run: seq<Event>, i: nat, key: string, x: Session)
    requires i < |run|
  {
    var st := StateAt(s, init, run, i);
    && x.expiresAt == run[i].now + s.cfg.sessionTtlSecs * SECOND
    && (|| DeclaredStep(s, run[i], key, x)
        || ExternalStep(s, run[i], key, x)
        || (SecondFactorStep(s, st, run[i], key, x) && UsesUp(s, init, run, i, run[i].step.pendingToken, x.username, Verify))
        || (EnrolledStep(s, st, run[i], key, x) && UsesUp(s, init, run, i, run[i].step.pendingToken, x.username, Enroll)))
  }

  ghost predicate UsesUp(s: Setting, init: Store, run: seq<Event>, i: nat, token: string, username: string, kind: Kind)
    requires i < |run|
  {
    && s.p.tokenHash(token) !in StateAt(s, init, run, i + 1).pending
    && Traced(s, init, run, i, s.p.tokenHash(token), username, kind)
  }

  ghost predicate Provenance(s: Setting, init: Store, run: seq<Event>, n: nat, key: string, x: Session)
    requires n <= |run|
  {
    exists i: nat :: i < n && Issues(s, init, run, i, key, x)
  }

  // ---- Every challenge traces back ----

  /** No challenge appears or changes, though some may go. */
  ghost predicate NoNewChallenge(st: Store, r: Store) {
    forall key :: key in r.pending ==> key in st.pending && r.pending[key] == st.pending[key]
  }

  /** At most the challenge under one key appears or changes. */
  ghost predicate OnlyChallenge(st: Store, r: Store, key: string, username: string, kind: Kind) {
    && key in r.pending && r.pending[key].username == username && r.pending[key].kind == kind
    && forall k :: k in r.pending && k != key ==> k in st.pending && r.pending[k] == st.pending[k]
  }

  lemma LoginChallenge(s: Setting, st: Store, e: Event)
    requires e.step.Login?
    ensures var r, key, u := Next(s, st, e), s.p.tokenHash(e.step.token), e.step.username;
            || NoNewChallenge(st, r)
            || (OnlyChallenge(st, r, key, u, Verify) && PasswordStep(s, st, e, key, u, Verify))
            || (OnlyChallenge(st, r, key, u, Enroll) && PasswordStep(s, st, e, key, u, Enroll))
  {
    hide Next;
    StepIsOperation(s, st, e);
  }

  lemma SetupChallenge(s: Setting, st: Store, e: Event)
    requires e.step.Setup?
    ensures var r, key, u := Next(s, st, e), s.p.tokenHash(e.step.token), s.p.trim(e.step.username);
            NoNewChallenge(st, r) || (OnlyChallenge(st, r, key, u, Enroll) && SetupStep(s, st, e, key, u, Enroll))
  {
    hide Next;
    StepIsOperation(s, st, e);
  }

  lemma BeginChallenge(s: Setting, st: Store, e: Event)
    requires e.step.Begin?
    ensures var r, key, used := Next(s, st, e), s.p.tokenHash(e.step.token), s.p.tokenHash(e.step.pendingToken);
            || NoNewChallenge(st, r)
            || (used in st.pending && OnlyChallenge(st, r, key, st.pending[used].username, Enroll) && BeginStep(s, st, e, key, st.pending[used].username, Enroll))
  {
    hide Next;
    StepIsOperation(s, st, e);
  }

  lemma VerifyChallenge(s: Setting, st: Store, e: Event)
    requires e.step.VerifyTotp?
    ensures NoNewChallenge(st, Next(s, st, e))
  {
    hide Next;
    StepIsOperation(s, st, e);
  }

  lemma ConfirmChallenge(s: Setting, st: Store, e: Event)
    requires e.step.Confirm?
    ensures NoNewChallenge(st, Next(s, st, e))
  {
    hide Next;
    StepIsOperation(s, st, e);
  }

  lemma OtherSteps(s: Setting, st: Store, e: Event)
    requires !e.step.Login? && !e.step.Setup? && !e.step.Begin?
    ensures NoNewChallenge(st, Next(s, st, e))
  {
    if e.step.VerifyTotp? {
      VerifyChallenge(s, st, e);
    } else if e.step.Confirm? {
      ConfirmChallenge(s, st, e);
    } else {
      assert Next(s, st, e).pending == st.pending;
    }
  }

  /** A challenge that was not there before this event was handed out by it. */
  lemma NewChallenge(s: Setting, st: Store, e: Event, key: string)
    requires key in Next(s, st, e).pending && !(key in st.pending && st.pending[key] == Next(s, st, e).pending[key])
    ensures var p := Next(s, st, e).pending[key];
            PasswordStep(s, st, e, key, p.username, p.kind) || SetupStep(s, st, e, key, p.username, p.kind) || BeginStep(s, st, e, key, p.username, p.kind)
  {
    if e.step.Login? {
      LoginChallenge(s, st, e);
    } else if e.step.Setup? {
      SetupChallenge(s, st, e);
    } else if e.step.Begin? {
      BeginChallenge(s, st, e);
    } else {
      OtherSteps(s, st, e);
    }
  }

  lemma TracedLonger(s: Setting, init: Store, run: seq<Event>, m: nat, n: nat, key: string, username: string, kind: Kind)
    requires m <= n <= |run| && Traced(s, init, run, m, key, username, kind)
    ensures Traced(s, init, run, n, key, username, kind)
  {
    var j: nat :| j < m && HandsOut(s, init, run, j, key, username, kind);
  }

  lemma {:induction false} ChallengesTraced(s: Setting, init: Store, run: seq<Event>, n: nat, key: string)
    requires n <= |run| && init.pending == map[] && key in StateAt(s, init, run, n).pending
    ensures var p := StateAt(s, init, run, n).pending[key]; Traced(s, init, run, n, key, p.username, p.kind)
    decreases n
  {
    if n > 0 {
      var st, e := StateAt(s, init, run, n - 1), run[n - 1];
      var p := Next(s, st, e).pending[key];
      if key in st.pending && st.pending[key] == p {
        ChallengesTraced(s, init, run, n - 1, key);
        TracedLonger(s, init, run, n - 1, n, key, p.username, p.kind);
      } else {
        NewChallenge(s, st, e, key);
        if BeginStep(s, st, e, key, p.username, p.kind) {
          ChallengesTraced(s, init, run, n - 1, s.p.tokenHash(e.step.pendingToken));
        }
        assert HandsOut(s, init, run, n - 1, key, p.username, p.kind);
      }
    }
  }

  // ---- Every session has a provenance ----

  ghost predicate SameGrant(x: Session, y: Session) {
    x.username == y.username && x.role == y.role && x.org == y.org && x.expiresAt == y.expiresAt
  }

  /** No session appears or is regranted, though some may go or be touched. */
  ghost predicate NoNewSession(st: Store, r: Store) {
    forall key :: key in r.sessions ==> key in st.sessions && SameGrant(r.sessions[key], st.sessions[key])
  }

  ghost predicate OnlySession(st: Store, r: Store, key: string) {
    key in r.sessions && forall k :: k in r.sessions && k != key ==> k in st.sessions && r.sessions[k] == st.sessions[k]
  }

  ghost predicate Granting(s: Setting, st: Store, e: Event, key: string, x: Session) {
    && x.expiresAt == e.now + s.cfg.sessionTtlSecs * SECOND
    && (DeclaredStep(s, e, key, x) || ExternalStep(s, e, key, x) || SecondFactorStep(s, st, e, key, x) || EnrolledStep(s, st, e, key, x))
  }

  /** Only a declared user's login touches the sessions. */
  lemma LoginSessionMap(s: Setting, st: Store, e: Event)
    requires e.step.Login?
    ensures var r, key := Next(s, st, e), s.p.tokenHash(e.step.token);
            || r.sessions == st.sessions
            || (key in r.sessions && r.sessions == st.sessions[key := r.sessions[key]] && Granting(s, st, e, key, r.sessions[key]))
  {
    hide Next;
    StepIsOperation(s, st, e);
  }

  lemma LoginSession(s: Setting, st: Store, e: Event)
    requires e.step.Login?
    ensures var r, key := Next(s, st, e), s.p.tokenHash(e.step.token);
            NoNewSession(st, r) || (OnlySession(st, r, key) && Granting(s, st, e, key, r.sessions[key]))
  {
    hide Next;
    hide Granting;
    LoginSessionMap(s, st, e);
  }

  lemma VerifySession(s: Setting, st: Store, e: Event)
    requires e.step.VerifyTotp?
    ensures var r, key := Next(s, st, e), s.p.tokenHash(e.step.token);
            NoNewSession(st, r) || (OnlySession(st, r, key) && Granting(s, st, e, key, r.sessions[key]))
  {
    hide Next;
    StepIsOperation(s, st, e);
  }

  lemma ConfirmSession(s: Setting, st: Store, e: Event)
    requires e.step.Confirm?
    ensures var r, key := Next(s, st, e), s.p.tokenHash(e.step.token);
            NoNewSession(st, r) || (OnlySession(st, r, key) && Granting(s, st, e, key, r.sessions[key]))
  {
    hide Next;
    StepIsOperation(s, st, e);
  }

  lemma ValidateSession(s: Setting, st: Store, e: Event)
    requires e.step.Validate?
    ensures NoNewSession(st, Next(s, st, e))
  {
    hide Next;
    StepIsOperation(s, st, e);
  }

  lemma SetupOrBeginSession(s: Setting, st: Store, e: Event)
    requires e.step.Setup? || e.step.Begin?
    ensures Next(s, st, e).sessions == st.sessions
  {
    hide Next;
    StepIsOperation(s, st, e);
  }

  lemma RemainingSteps(s: Setting, st: Store, e: Event)
    requires !e.step.Login? && !e.step.VerifyTotp? && !e.step.Confirm? && !e.step.External?
    ensures NoNewSession(st, Next(s, st, e))
  {
    if e.step.Validate? {
      ValidateSession(s, st, e);
    } else if e.step.Setup? || e.step.Begin? {
      SetupOrBeginSession(s, st, e);
    }
  }

  lemma NewSession(s: Setting, st: Store, e: Event, key: string)
    requires key in Next(s, st, e).sessions && !(key in st.sessions && SameGrant(st.sessions[key], Next(s, st, e).sessions[key]))
    ensures Granting(s, st, e, key, Next(s, st, e).sessions[key])
  {
    if e.step.Login? {
      LoginSession(s, st, e);
    } else if e.step.VerifyTotp? {
      VerifySession(s, st, e);
    } else if e.step.Confirm? {
      ConfirmSession(s, st, e);
    } else if !e.step.External? {
      RemainingSteps(s, st, e);
    }
  }

  lemma SpentChallenge(s: Setting, st: Store, e: Event)
    requires e.step.VerifyTotp? || e.step.Confirm?
    ensures s.p.tokenHash(e.step.pendingToken) !in Next(s, st, e).pending
  {
    hide Next;
    StepIsOperation(s, st, e);
  }

  /** What an event grants, it grants for a traced challenge that it uses up. */
  lemma GrantingIssues(s: Setting, init: Store, run: seq<Event>, i: nat, key: string, x: Session)
    requires i < |run| && init.pending == map[] && Granting(s, StateAt(s, init, run, i), run[i], key, x)
    ensures Issues(s, init, run, i, key, x)
  {
    var st, e := StateAt(s, init, run, i), run[i];
    if SecondFactorStep(s, st, e, key, x) || EnrolledStep(s, st, e, key, x) {
      ChallengesTraced(s, init, run, i, s.p.tokenHash(e.step.pendingToken));
      SpentChallenge(s, st, e);
    }
  }

  lemma SameProvenance(s: Setting, init: Store, run: seq<Event>, n: nat, key: string, x: Session, y: Session)
    requires 0 < n <= |run| && SameGrant(x, y) && Provenance(s, init, run, n - 1, key, x)
    ensures Provenance(s, init, run, n, key, y)
  {
    var i: nat :| i < n - 1 && Issues(s, init, run, i, key, x);
    assert Issues(s, init, run, i, key, y);
  }

  /** Over every run, every session was issued to its user by a config password, an external
      sign-in, or a second factor on a challenge that traces back to that user's password or setup. */
  lemma {:induction false} SessionsHaveProvenance(s: Setting, init: Store, run: seq<Event>, n: nat, key: string)
    requires n <= |run| && init.pending == map[] && init.sessions == map[] && key in StateAt(s, init, run, n).sessions
    ensures Provenance(s, init, run, n, key, StateAt(s, init, run, n).sessions[key])
    decreases n
  {
    if n > 0 {
      var st, e := StateAt(s, init, run, n - 1), run[n - 1];
      var x := Next(s, st, e).sessions[key];
      if key in st.sessions && SameGrant(st.sessions[key], x) {
        SessionsHaveProvenance(s, init, run, n - 1, key);
        SameProvenance(s, init, run, n, key, st.sessions[key], x);
      } else {
        NewSession(s, st, e, key);
        GrantingIssues(s, init, run, n - 1, key, x);
      }
    }
  }

  ghost predicate TwoFactor(s: Setting, init: Store, run: seq<Event>, i: nat, key: string, x: Session)
    requires i < |run|
  {
    var st := StateAt(s, init, run, i);
    || (SecondFactorStep(s, st, run[i], key, x) && UsesUp(s, init, run, i, run[i].step.pendingToken, x.username, Verify))
    || (EnrolledStep(s, st, run[i], key, x) && UsesUp(s, init, run, i, run[i].step.pendingToken, x.username, Enroll))
  }

  /** A user who is not declared in the configuration and never signed in externally has no
      session without a second factor. */
  lemma StoredUsersNeedSecondFactor(s: Setting, init: Store, run: seq<Event>, n: nat, key: string)
    requires n <= |run| && init.pending == map[] && init.sessions == map[] && key in StateAt(s, init, run, n).sessions
    requires FindUser(s.cfg.users, StateAt(s, init, run, n).sessions[key].username).None?
    requires forall i :: 0 <= i < n && run[i].step.External? ==> run[i].step.username != StateAt(s, init, run, n).sessions[key].username
    ensures exists i: nat :: i < n && TwoFactor(s, init, run, i, key, StateAt(s, init, run, n).sessions[key])
  {
    var x := StateAt(s, init, run, n).sessions[key];
    SessionsHaveProvenance(s, init, run, n, key);
    var i: nat :| i < n && Issues(s, init, run, i, key, x);
    assert TwoFactor(s, init, run, i, key, x);
  }

  // ---- Challenges are used once ----

  /** Where a property that starts false and ends true becomes true. */
  lemma {:induction false} Crossing(p: nat -> bool, m: nat, n: nat) returns (j: nat)
    requires m <= n && !p(m) && p(n)
    ensures m <= j < n && !p(j) && p(j + 1)
    decreases n
  {
    if p(n - 1) {
      j := Crossing(p, m, n - 1);
    } else {
      j := n - 1;
    }
  }

  lemma Reappears(s: Setting, init: Store, run: seq<Event>, m: nat, n: nat, key: string)
    returns (j: nat, username: string, kind: Kind)
    requires m <= n <= |run| && init.pending == map[]
    requires key !in StateAt(s, init, run, m).pending && key in StateAt(s, init, run, n).pending
    ensures m <= j < n && HandsOut(s, init, run, j, key, username, kind)
  {
    hide *;
    j := Crossing((i: nat) => i <= |run| && key in StateAt(s, init, run, i).pending, m, n);
    var p := StateAt(s, init, run, j + 1).pending[key];
    username, kind := p.username, p.kind;
    HandedOutAt(s, init, run, j, key);
  }

  /** A challenge that is new after event `j` was handed out by it. */
  lemma HandedOutAt(s: Setting, init: Store, run: seq<Event>, j: nat, key: string)
    requires j < |run| && init.pending == map[] && key in StateAt(s, init, run, j + 1).pending
    requires var p := StateAt(s, init, run, j + 1).pending[key]; !(key in StateAt(s, init, run, j).pending && StateAt(s, init, run, j).pending[key] == p)
    ensures var p := StateAt(s, init, run, j + 1).pending[key]; HandsOut(s, init, run, j, key, p.username, p.kind)
  {
    var st, e := StateAt(s, init, run, j), run[j];
    var p := StateAt(s, init, run, j + 1).pending[key];
    NewChallenge(s, st, e, key);
    if BeginStep(s, st, e, key, p.username, p.kind) {
      ChallengesTraced(s, init, run, j, s.p.tokenHash(e.step.pendingToken));
    }
  }

  ghost predicate Presents(s: Setting, e: Event, key: string) {
    (e.step.VerifyTotp? || e.step.Begin? || e.step.Confirm?) && s.p.tokenHash(e.step.pendingToken) == key
  }

  lemma BeginTakes(s: Setting, st: Store, e: Event, key: string)
    requires e.step.Begin? && s.p.tokenHash(e.step.pendingToken) == key && key in Next(s, st, e).pending
    ensures key in st.pending && st.pending[key].kind == Enroll && BeginStep(s, st, e, key, st.pending[key].username, Enroll)
  {
    hide Next;
    StepIsOperation(s, st, e);
  }

  /** An event that presents a challenge and leaves one under the same key handed out a new one. */
  lemma HandsBack(s: Setting, init: Store, run: seq<Event>, i: nat, key: string)
    requires i < |run| && init.pending == map[] && Presents(s, run[i], key) && key in StateAt(s, init, run, i + 1).pending
    ensures key in StateAt(s, init, run, i).pending
    ensures HandsOut(s, init, run, i, key, StateAt(s, init, run, i).pending[key].username, Enroll)
  {
    var st, e := StateAt(s, init, run, i), run[i];
    PresentedAgain(s, st, e, key);
    ChallengesTraced(s, init, run, i, key);
  }

  lemma PresentedAgain(s: Setting, st: Store, e: Event, key: string)
    requires Presents(s, e, key) && key in Next(s, st, e).pending
    ensures key in st.pending && st.pending[key].kind == Enroll && BeginStep(s, st, e, key, st.pending[key].username, Enroll)
  {
    if e.step.Begin? {
      BeginTakes(s, st, e, key);
    } else {
      SpentChallenge(s, st, e);
    }
  }

  /** A challenge found by an event that presented it is gone: whoever finds one under that key
      later, found another that was handed out in between. */
  lemma ChallengeUsedOnce(s: Setting, init: Store, run: seq<Event>, i: nat, n: nat, key: string)
    returns (j: nat, username: string, kind: Kind)
    requires i < n <= |run| && init.pending == map[] && Presents(s, run[i], key)
    requires key in StateAt(s, init, run, n).pending
    ensures i <= j < n && HandsOut(s, init, run, j, key, username, kind)
  {
    hide *;
    if key in StateAt(s, init, run, i + 1).pending {
      HandsBack(s, init, run, i, key);
      j, username, kind := i, StateAt(s, init, run, i).pending[key].username, Enroll;
    } else {
      j, username, kind := Reappears(s, init, run, i + 1, n, key);
    }
  }
}
