/** Whose identity `validate` returns, over every run: that of the event that issued the session. */
module AuthIdentity {
  import opened Auth
  import opened AuthFields
  import opened AuthRuns
  import opened AuthSessions
  import opened Options

  /** A password login of a declared user. */
  ghost predicate ByPassword(s: Setting, e: Event, x: Session, i: int) {
    && e.step.Login? && e.step.username == x.username && FirstUser(s.cfg.users, i, x.username)
    && s.p.passwordMatches(e.step.password, s.cfg.users[i].passwordHash)
    && IsFresh(s, x, x.username, s.cfg.users[i].role, s.cfg.users[i].org, e.now)
  }

  /** A sign-in that another system vouched for. */
  ghost predicate ByExternal(s: Setting, e: Event, x: Session) {
    e.step.External? && x == Session(e.step.username, e.step.role, e.step.org, e.now + Seconds(s.cfg.sessionTtlSecs), e.now)
  }

  /** A code of a stored user, as that user was stored at the time. */
  ghost predicate ByCode(s: Setting, st: Store, e: Event, x: Session) {
    && (e.step.VerifyTotp? || e.step.Confirm?)
    && Pends(s, st, e.step.pendingToken, if e.step.VerifyTotp? then Verify else Enroll, e.now)
    && NameOf(s, st, e.step.pendingToken) == x.username
    && IsFresh(s, x, x.username, st.users[x.username].role, st.users[x.username].org, e.now)
  }

  ghost predicate IssuedBy(s: Setting, st: Store, e: Event, x: Session) {
    (exists i :: ByPassword(s, e, x, i)) || ByExternal(s, e, x) || ByCode(s, st, e, x)
  }

  lemma IssueOfLogin(s: Setting, st: Store, e: Event, key: string)
    requires e.step.Login? && GrantedKey(s, st, e) == Some(key)
    ensures key in Next(s, st, e).sessions && IssuedBy(s, st, e, Next(s, st, e).sessions[key])
  {
    var name := e.step.username;
    var (after, answer) := LoginResult(s, st, name, e.step.password, e.step.token, e.now);
    GrantedToDeclared(s, st, e);
    var i := FindsFirstUser(s.cfg.users, name);
    hide LoginResult;
    hide Next;
    StepIsOperation(s, st, e);
    DeclaredLogin(s, st, name, e.step.password, e.step.token, e.now, i);
    assert ByPassword(s, e, after.sessions[key], i);
  }

  lemma GrantedToDeclared(s: Setting, st: Store, e: Event)
    requires e.step.Login? && GrantedKey(s, st, e).Some?
    ensures FindUser(s.cfg.users, e.step.username).Some? && !Locked(s.cfg, st, e.step.username, e.now)
  {
    LockedLogin(s, st, e.step.username, e.step.password, e.step.token, e.now);
    hide Failed;
  }

  lemma IssueOfCode(s: Setting, st: Store, e: Event, key: string)
    requires (e.step.VerifyTotp? || e.step.Confirm?) && GrantedKey(s, st, e) == Some(key)
    ensures key in Next(s, st, e).sessions && IssuedBy(s, st, e, Next(s, st, e).sessions[key])
  {
    hide VerifyResult;
    hide ConfirmResult;
    hide Next;
    StepIsOperation(s, st, e);
    if e.step.VerifyTotp? {
      VerifyExactly(s, st, e.step.pendingToken, e.step.code, e.step.token, e.now);
    } else {
      ConfirmExactly(s, st, e.step.pendingToken, e.step.code, e.step.codes, e.step.token, e.now);
    }
    assert ByCode(s, st, e, Next(s, st, e).sessions[key]);
  }

  lemma IssueOf(s: Setting, st: Store, e: Event, key: string)
    requires GrantedKey(s, st, e) == Some(key)
    ensures key in Next(s, st, e).sessions && IssuedBy(s, st, e, Next(s, st, e).sessions[key])
  {
    if e.step.Login? {
      IssueOfLogin(s, st, e, key);
    } else if e.step.VerifyTotp? || e.step.Confirm? {
      IssueOfCode(s, st, e, key);
    } else {
      assert ByExternal(s, e, Next(s, st, e).sessions[key]);
    }
  }

  /** Event `i` is the last one that answered with a grant for the token. */
  ghost predicate LastGrant(s: Setting, init: Store, run: seq<Event>, i: nat, n: nat, key: string)
    requires n <= |run|
  {
    && i < n && GrantedKey(s, StateAt(s, init, run, i), run[i]) == Some(key)
    && forall j: nat :: i < j < n ==> GrantedKey(s, StateAt(s, init, run, j), run[j]) != Some(key)
  }

  /** The session as event `i` left it. */
  ghost predicate LeftBy(s: Setting, init: Store, run: seq<Event>, i: nat, key: string, x: Session)
    requires i < |run|
  {
    var after := StateAt(s, init, run, i + 1);
    key in after.sessions && SameGrant(after.sessions[key], x) && IssuedBy(s, StateAt(s, init, run, i), run[i], after.sessions[key])
  }

  lemma StepKeepsGrant(s: Setting, st: Store, e: Event, key: string)
    requires GrantedKey(s, st, e) != Some(key) && key in Next(s, st, e).sessions
    ensures key in st.sessions && SameGrant(st.sessions[key], Next(s, st, e).sessions[key])
  {
    if key !in st.sessions {
      StaysAbsent(s, st, e, key);
    } else if Uses(s, e, key) {
      UseSession(s, st, e, key);
    } else {
      LeaveSession(s, st, e, key);
    }
  }

  lemma GrantedNow(s: Setting, init: Store, run: seq<Event>, n: nat, key: string)
    requires 0 < n <= |run| && GrantedKey(s, StateAt(s, init, run, n - 1), run[n - 1]) == Some(key)
    ensures key in StateAt(s, init, run, n).sessions
    ensures LastGrant(s, init, run, n - 1, n, key) && LeftBy(s, init, run, n - 1, key, StateAt(s, init, run, n).sessions[key])
  {
    hide GrantedKey;
    hide IssuedBy;
    hide Next;
    IssueOf(s, StateAt(s, init, run, n - 1), run[n - 1], key);
  }

  lemma GrantedBefore(s: Setting, init: Store, run: seq<Event>, i: nat, n: nat, key: string, x: Session, y: Session)
    requires 0 < n <= |run| && GrantedKey(s, StateAt(s, init, run, n - 1), run[n - 1]) != Some(key)
    requires LastGrant(s, init, run, i, n - 1, key) && LeftBy(s, init, run, i, key, x) && SameGrant(x, y)
    ensures LastGrant(s, init, run, i, n, key) && LeftBy(s, init, run, i, key, y)
  {
    hide GrantedKey;
    hide IssuedBy;
    hide StateAt;
  }

  lemma {:induction false} SessionIsLastGrant(s: Setting, init: Store, run: seq<Event>, n: nat, key: string) returns (i: nat)
    requires n <= |run| && init.sessions == map[] && key in StateAt(s, init, run, n).sessions
    ensures LastGrant(s, init, run, i, n, key) && LeftBy(s, init, run, i, key, StateAt(s, init, run, n).sessions[key])
    decreases n
  {
    hide GrantedKey;
    hide LastGrant;
    hide LeftBy;
    hide Next;
    var st, e := StateAt(s, init, run, n - 1), run[n - 1];
    if GrantedKey(s, st, e) == Some(key) {
      GrantedNow(s, init, run, n, key);
      i := n - 1;
    } else {
      StepKeepsGrant(s, st, e, key);
      i := SessionIsLastGrant(s, init, run, n - 1, key);
      GrantedBefore(s, init, run, i, n, key, st.sessions[key], StateAt(s, init, run, n).sessions[key]);
    }
  }

  /** Whenever `validate` accepts a credential that has a session, principal, role and tenant are
      those that the last grant of the token gave: a declared user's, an external sign-in's, or a
      stored user's at that time. */
  lemma AcceptedIdentity(s: Setting, init: Store, run: seq<Event>, n: nat, credential: string, now: int) returns (i: nat)
    requires n <= |run| && init.sessions == map[] && s.p.tokenHash(credential) in StateAt(s, init, run, n).sessions
    requires ValidateResult(s, StateAt(s, init, run, n), credential, now).1.Some?
    ensures LastGrant(s, init, run, i, n, s.p.tokenHash(credential))
    ensures var c := ValidateResult(s, StateAt(s, init, run, n), credential, now).1.value;
            c.bySession && Identity(s, StateAt(s, init, run, i), run[i], c)
    ensures now < run[i].now + Seconds(s.cfg.sessionTtlSecs)
  {
    hide StateAt;
    hide LastGrant;
    var st, key := StateAt(s, init, run, n), s.p.tokenHash(credential);
    i := SessionIsLastGrant(s, init, run, n, key);
    ValidateSessionExactly(s, st, credential, now);
    LastGrantBefore(s, init, run, i, n, key);
    hide ValidateResult;
    IssuedIdentity(s, StateAt(s, init, run, i), run[i], StateAt(s, init, run, i + 1).sessions[key], st.sessions[key]);
  }

  lemma LastGrantBefore(s: Setting, init: Store, run: seq<Event>, i: nat, n: nat, key: string)
    requires n <= |run| && LastGrant(s, init, run, i, n, key)
    ensures i < n
  {
  }

  /** The identity that an event vouched for, and how. */
  ghost predicate Identity(s: Setting, st: Store, e: Event, c: Context) {
    match e.step
    case Login(name, password, _) =>
      && c.principal == name
      && exists i :: FirstUser(s.cfg.users, i, name) && DeclaredAs(s, s.cfg.users[i], password, c)
    case External(name, role, org, _) => c.principal == name && c.role == role && c.org == org
    case VerifyTotp(pendingToken, _, _) => StoredAs(s, st, pendingToken, Verify, e.now, c)
    case Confirm(pendingToken, _, _, _) => StoredAs(s, st, pendingToken, Enroll, e.now, c)
    case _ => false
  }

  ghost predicate DeclaredAs(s: Setting, u: ConfigUser, password: string, c: Context) {
    s.p.passwordMatches(password, u.passwordHash) && RoleNamed(s.p, u.role, c.role) && c.org == u.org
  }

  ghost predicate StoredAs(s: Setting, st: Store, pendingToken: string, kind: Kind, now: int, c: Context) {
    && Pends(s, st, pendingToken, kind, now) && NameOf(s, st, pendingToken) == c.principal
    && RoleNamed(s.p, st.users[c.principal].role, c.role) && c.org == st.users[c.principal].org
  }

  lemma IssuedIdentity(s: Setting, st: Store, e: Event, x: Session, y: Session)
    requires IssuedBy(s, st, e, x) && SameGrant(x, y)
    ensures Identity(s, st, e, Context(y.username, y.role, y.org, true))
    ensures y.expiresAt == e.now + Seconds(s.cfg.sessionTtlSecs)
  {
    hide RoleNamed;
    if i :| ByPassword(s, e, x, i) {
      assert DeclaredAs(s, s.cfg.users[i], e.step.password, Context(y.username, y.role, y.org, true));
    }
  }
}
