/** The login, second-factor, lockout and session machine over the shared store. */
module Auth {
  import opened Options

  /** One second on the clock, which counts nanoseconds. */
  const SECOND: int := 1_000_000_000

  datatype Role = Viewer | Auditor | Operator | Admin

  datatype Session = Session(username: string, role: Role, org: string, expiresAt: int, lastUsed: int)

  datatype Kind = Verify | Enroll

  datatype Pending = Pending(username: string, kind: Kind, expiresAt: int)

  datatype User = User(role: string, org: string, passwordHash: string, totpSecret: Option<string>, totpEnabled: bool, backupCodes: seq<string>)

  datatype Lockout = Lockout(failures: nat, lockedUntil: Option<int>)

  datatype ConfigUser = ConfigUser(username: string, role: string, org: string, passwordHash: string)

  datatype ApiKey = ApiKey(name: string, role: string, org: string, keyHash: string)

  datatype Config = Config(users: seq<ConfigUser>, apiKeys: seq<ApiKey>, sessionTtlSecs: nat, idleTimeoutSecs: nat, maxFailedLogins: nat, lockoutSecs: nat)

  /** What the machine calls but does not define: hashing, password and code checks, text helpers. */
  datatype Primitives = Primitives(
    tokenHash: string -> string,
    lower: string -> string,
    trim: string -> string,
    passwordMatches: (string, string) -> bool,
    totpMatches: (string, string, string, int) -> bool,
    codeHash: string -> string)

  datatype Setting = Setting(cfg: Config, p: Primitives)

  datatype Store = Store(sessions: map<string, Session>, pending: map<string, Pending>, users: map<string, User>, lockouts: map<string, Lockout>)

  datatype Outcome = Granted(token: string, role: Role) | TotpRequired(pending: string) | EnrollmentRequired(pending: string) | BadCredentials | LockedOut(retryAfterSecs: int)

  datatype Context = Context(principal: string, role: Role, org: string, bySession: bool)

  function ParseRole(p: Primitives, s: string): (r: Role) {
    var t := p.lower(s);
    if t == "admin" then Admin else if t == "operator" then Operator else if t == "auditor" then Auditor else Viewer
  }

  // ---- Reading and writing the store ----

  function WithSession(cfg: Config, st: Store, key: string, username: string, role: Role, org: string, now: int): (r: Store) {
    st.(sessions := st.sessions[key := Session(username, role, org, now + cfg.sessionTtlSecs * SECOND, now)])
  }

  function WithPending(st: Store, key: string, username: string, kind: Kind, now: int): (r: Store) {
    st.(pending := st.pending[key := Pending(username, kind, now + 600 * SECOND)])
  }

  function WithUser(st: Store, username: string, user: User): (r: Store) {
    st.(users := st.users[username := user])
  }

  function WithoutPending(st: Store, key: string): (r: Store) {
    st.(pending := st.pending - {key})
  }

  /** The pending record under a key, if it is still live and of the wanted kind. */
  function Live(st: Store, key: string, kind: Kind, now: int): (r: Option<Pending>) {
    if key in st.pending && st.pending[key].expiresAt > now && st.pending[key].kind == kind then Some(st.pending[key]) else None
  }

  function FindUser(users: seq<ConfigUser>, username: string): (r: Option<ConfigUser>)
    ensures r.None? <==> forall i :: 0 <= i < |users| ==> users[i].username != username
    ensures r.Some? ==> r.value in users && r.value.username == username
  {
    if users == [] then None
    else if users[0].username == username then Some(users[0])
    else FindUser(users[1..], username)
  }

  function FindKey(keys: seq<ApiKey>, hash: string): (r: Option<ApiKey>)
    ensures r.None? <==> forall i :: 0 <= i < |keys| ==> keys[i].keyHash != hash
    ensures r.Some? ==> r.value in keys && r.value.keyHash == hash
  {
    if keys == [] then None
    else if keys[0].keyHash == hash then Some(keys[0])
    else FindKey(keys[1..], hash)
  }

  /** A list without the first occurrence of an element. */
  function Without(codes: seq<string>, c: string): (r: seq<string>)
    ensures multiset(r) == multiset(codes) - multiset{c}
  {
    if codes == [] then []
    else if codes[0] == c then
      assert codes == [codes[0]] + codes[1..];
      codes[1..]
    else
      assert codes == [codes[0]] + codes[1..];
      [codes[0]] + Without(codes[1..], c)
  }

  // ---- Lockout ----

  /** The state a failure is added to: a lapsed lock starts a new streak. */
  function Streak(st: Store, username: string, now: int): (l: Lockout) {
    if username in st.lockouts && !(st.lockouts[username].lockedUntil.Some? && st.lockouts[username].lockedUntil.value <= now)
    then st.lockouts[username] else Lockout(0, None)
  }

  /** `record_login_failure` */
  function Failed(cfg: Config, st: Store, username: string, now: int): (r: Store) {
    if cfg.maxFailedLogins == 0 then st
    else
      var l := Streak(st, username, now);
      var until := if l.failures + 1 >= cfg.maxFailedLogins then Some(now + cfg.lockoutSecs * SECOND) else l.lockedUntil;
      st.(lockouts := st.lockouts[username := Lockout(l.failures + 1, until)])
  }

  predicate IsLocked(cfg: Config, st: Store, username: string, now: int) {
    cfg.maxFailedLogins > 0 && username in st.lockouts && st.lockouts[username].lockedUntil.Some? && st.lockouts[username].lockedUntil.value > now
  }

  // ---- Login ----

  /** The right password of a config-declared user, or else of a stored user. */
  predicate PasswordRight(s: Setting, st: Store, username: string, password: string) {
    match FindUser(s.cfg.users, username)
    case Some(u) => s.p.passwordMatches(password, u.passwordHash)
    case None => username in st.users && s.p.passwordMatches(password, st.users[username].passwordHash)
  }

  /** What a correct password gives: a session for a config user, a pending challenge otherwise. */
  function LoggedIn(s: Setting, st: Store, username: string, token: string, now: int): (r: (Store, Outcome))
    requires FindUser(s.cfg.users, username).Some? || username in st.users
  {
    var cleared := st.(lockouts := st.lockouts - {username});
    var key := s.p.tokenHash(token);
    match FindUser(s.cfg.users, username)
    case Some(u) =>
      var role := ParseRole(s.p, u.role);
      (WithSession(s.cfg, cleared, key, username, role, u.org, now), Granted(token, role))
    case None =>
      if st.users[username].totpEnabled then (WithPending(cleared, key, username, Verify, now), TotpRequired(token))
      else (WithPending(cleared, key, username, Enroll, now), EnrollmentRequired(token))
  }

  /** `login` */
  function LoginResult(s: Setting, st: Store, username: string, password: string, token: string, now: int): (r: (Store, Outcome)) {
    if IsLocked(s.cfg, st, username, now) then (st, LockedOut((st.lockouts[username].lockedUntil.value - now) / SECOND))
    else if PasswordRight(s, st, username, password) then LoggedIn(s, st, username, token, now)
    else (Failed(s.cfg, st, username, now), BadCredentials)
  }

  // ---- Second factor ----

  function SecretOf(u: User): (secret: string) {
    if u.totpSecret.Some? then u.totpSecret.value else ""
  }

  /** The code is the user's current one, or one of the user's unused backup codes. */
  predicate CodeRight(s: Setting, u: User, username: string, code: string, now: int) {
    s.p.totpMatches(SecretOf(u), username, code, now) || s.p.codeHash(code) in u.backupCodes
  }

  /** A backup code is removed when the current code does not match. */
  function Spend(s: Setting, st: Store, username: string, code: string, now: int): (r: Store)
    requires username in st.users
  {
    var u := st.users[username];
    if s.p.totpMatches(SecretOf(u), username, code, now) then st
    else WithUser(st, username, u.(backupCodes := Without(u.backupCodes, s.p.codeHash(code))))
  }

  /** `verify_totp_login` */
  function VerifyResult(s: Setting, st: Store, pendingToken: string, code: string, token: string, now: int): (r: (Store, Outcome)) {
    var key := s.p.tokenHash(pendingToken);
    var live, rest := Live(st, key, Verify, now), WithoutPending(st, key);
    if live.None? || live.value.username !in st.users then (rest, BadCredentials)
    else
      var name, u := live.value.username, st.users[live.value.username];
      if !CodeRight(s, u, name, code, now) then (Failed(s.cfg, rest, name, now), BadCredentials)
      else
        var role := ParseRole(s.p, u.role);
        (WithSession(s.cfg, Spend(s, rest, name, code, now), s.p.tokenHash(token), name, role, u.org, now), Granted(token, role))
  }

  // ---- Setup and enrollment ----

  predicate SetupRequired(cfg: Config, st: Store) {
    cfg.users == [] && st.users == map[]
  }

  const TENANT := "default"

  /** `setup_admin`; `hashed` is what password hashing returned. */
  function SetupResult(s: Setting, st: Store, username: string, password: string, hashed: Option<string>, token: string, now: int): (r: (Store, Option<string>)) {
    var name := s.p.trim(username);
    if !SetupRequired(s.cfg, st) || name == "" || |password| < 12 || hashed.None? then (st, None)
    else (WithPending(WithUser(st, name, User("admin", TENANT, hashed.value, None, false, [])), s.p.tokenHash(token), name, Enroll, now), Some(token))
  }

  /** `begin_enrollment`; `secret` is the one generated if needed, `urlOk` whether its URL could be built. */
  function BeginResult(s: Setting, st: Store, pendingToken: string, secret: string, urlOk: bool, token: string, now: int): (r: (Store, Option<string>)) {
    var key := s.p.tokenHash(pendingToken);
    var live, rest := Live(st, key, Enroll, now), WithoutPending(st, key);
    if live.None? || live.value.username !in st.users || !urlOk then (rest, None)
    else
      var name, u := live.value.username, st.users[live.value.username];
      var kept := if u.totpSecret.Some? && !u.totpEnabled then u.totpSecret.value else secret;
      (WithPending(WithUser(rest, name, u.(totpSecret := Some(kept), totpEnabled := false)), s.p.tokenHash(token), name, Enroll, now), Some(token))
  }

  /** The first code confirms the secret that is being enrolled. */
  predicate FirstCodeRight(s: Setting, u: User, username: string, code: string, now: int) {
    u.totpSecret.Some? && s.p.totpMatches(u.totpSecret.value, username, code, now)
  }

  /** `confirm_enrollment`; `codes` are the hashes of the new backup codes. */
  function ConfirmResult(s: Setting, st: Store, pendingToken: string, code: string, codes: seq<string>, token: string, now: int): (r: (Store, Option<string>)) {
    var key := s.p.tokenHash(pendingToken);
    var live, rest := Live(st, key, Enroll, now), WithoutPending(st, key);
    if live.None? || live.value.username !in st.users || !FirstCodeRight(s, st.users[live.value.username], live.value.username, code, now) then (rest, None)
    else
      var name, u := live.value.username, st.users[live.value.username];
      (WithSession(s.cfg, WithUser(rest, name, u.(totpEnabled := true, backupCodes := codes)), s.p.tokenHash(token), name, ParseRole(s.p, u.role), u.org, now), Some(token))
  }

  // ---- Sessions ----

  function WithoutSession(st: Store, key: string): (r: Store) {
    st.(sessions := st.sessions - {key})
  }

  predicate Expired(x: Session, now: int) {
    x.expiresAt <= now
  }

  predicate IdledOut(cfg: Config, x: Session, now: int) {
    cfg.idleTimeoutSecs > 0 && now - x.lastUsed > cfg.idleTimeoutSecs * SECOND
  }

  function Touched(x: Session, now: int): (r: Session) {
    if now - x.lastUsed > 60 * SECOND then x.(lastUsed := now) else x
  }

  /** `validate` */
  function ValidateResult(s: Setting, st: Store, credential: string, now: int): (r: (Store, Option<Context>)) {
    var key := s.p.tokenHash(credential);
    if key in st.sessions then
      var x := st.sessions[key];
      if Expired(x, now) || IdledOut(s.cfg, x, now) then (WithoutSession(st, key), None)
      else (st.(sessions := st.sessions[key := Touched(x, now)]), Some(Context(x.username, x.role, x.org, true)))
    else
      match FindKey(s.cfg.apiKeys, key)
      case Some(k) => (st, Some(Context("apikey:" + k.name, ParseRole(s.p, k.role), k.org, false)))
      case None => (st, None)
  }

  /** `purge_expired`, which compares whole seconds. */
  function Purged(st: Store, now: int): (r: Store) {
    st.(sessions := map k | k in st.sessions && st.sessions[k].expiresAt / SECOND >= now / SECOND :: st.sessions[k])
  }

  // ---- The manager ----

  class AuthManager {
    const s: Setting
    var sessions: map<string, Session>
    var pending: map<string, Pending>
    var users: map<string, User>
    var lockouts: map<string, Lockout>

    constructor (s: Setting, st: Store)
      ensures this.s == s && State() == st
    {
      this.s := s;
      sessions, pending, users, lockouts := st.sessions, st.pending, st.users, st.lockouts;
    }

    function State(): (st: Store)
      reads this
    {
      Store(sessions, pending, users, lockouts)
    }

    method IssueSession(username: string, role: Role, org: string, token: string, now: int)
      modifies this`sessions
      ensures State() == WithSession(s.cfg, old(State()), s.p.tokenHash(token), username, role, org, now)
    {
      var expiresAt := now + s.cfg.sessionTtlSecs * SECOND;
      sessions := sessions[s.p.tokenHash(token) := Session(username, role, org, expiresAt, now)];
    }

    method IssuePending(username: string, kind: Kind, token: string, now: int)
      modifies this`pending
      ensures State() == WithPending(old(State()), s.p.tokenHash(token), username, kind, now)
    {
      pending := pending[s.p.tokenHash(token) := Pending(username, kind, now + 600 * SECOND)];
    }

    method ConsumePending(pendingToken: string, kind: Kind, now: int) returns (r: Option<Pending>)
      modifies this`pending
      ensures State() == WithoutPending(old(State()), s.p.tokenHash(pendingToken))
      ensures r == Live(old(State()), s.p.tokenHash(pendingToken), kind, now)
    {
      var key := s.p.tokenHash(pendingToken);
      r := if key in pending then Some(pending[key]) else None;
      pending := pending - {key};
      if r.Some? && !(r.value.expiresAt > now && r.value.kind == kind) {
        r := None;
      }
    }

    method RecordLoginFailure(username: string, now: int)
      modifies this`lockouts
      ensures State() == Failed(s.cfg, old(State()), username, now)
    {
      if s.cfg.maxFailedLogins == 0 {
        return;
      }
      var l := if username in lockouts then lockouts[username] else Lockout(0, None);
      if l.lockedUntil.Some? && l.lockedUntil.value <= now {
        l := Lockout(0, None);
      }
      l := l.(failures := l.failures + 1);
      if l.failures >= s.cfg.maxFailedLogins {
        l := l.(lockedUntil := Some(now + s.cfg.lockoutSecs * SECOND));
      }
      lockouts := lockouts[username := l];
    }

    method Login(username: string, password: string, token: string, now: int) returns (r: Outcome)
      modifies this
      ensures (State(), r) == LoginResult(s, old(State()), username, password, token, now)
    {
      if s.cfg.maxFailedLogins > 0 && username in lockouts {
        var until := lockouts[username].lockedUntil;
        if until.Some? && until.value > now {
          return LockedOut((until.value - now) / SECOND);
        }
      }
      var declared := FindUser(s.cfg.users, username);
      var passwordHash := "";
      if declared.Some? {
        passwordHash := declared.value.passwordHash;
      } else if username in users {
        passwordHash := users[username].passwordHash;
      } else {
        RecordLoginFailure(username, now);
        return BadCredentials;
      }
      if !s.p.passwordMatches(password, passwordHash) {
        RecordLoginFailure(username, now);
        return BadCredentials;
      }
      lockouts := lockouts - {username};
      if declared.Some? {
        var role := ParseRole(s.p, declared.value.role);
        IssueSession(username, role, declared.value.org, token, now);
        return Granted(token, role);
      }
      if users[username].totpEnabled {
        IssuePending(username, Verify, token, now);
        return TotpRequired(token);
      }
      IssuePending(username, Enroll, token, now);
      return EnrollmentRequired(token);
    }

    method SetupAdmin(username: string, password: string, hashed: Option<string>, token: string, now: int) returns (r: Option<string>)
      modifies this
      ensures (State(), r) == SetupResult(s, old(State()), username, password, hashed, token, now)
    {
      if s.cfg.users != [] || users != map[] {
        return None;
      }
      var name := s.p.trim(username);
      if name == "" || |password| < 12 || hashed.None? {
        return None;
      }
      users := users[name := User("admin", TENANT, hashed.value, None, false, [])];
      IssuePending(name, Enroll, token, now);
      return Some(token);
    }

    method ConsumeBackupCode(username: string, code: string) returns (ok: bool)
      requires username in users
      modifies this`users
      ensures ok == (s.p.codeHash(code) in old(users[username]).backupCodes)
      ensures users == if ok then old(users)[username := old(users[username]).(backupCodes := Without(old(users[username]).backupCodes, s.p.codeHash(code)))] else old(users)
    {
      var h := s.p.codeHash(code);
      ok := h in users[username].backupCodes;
      if ok {
        users := users[username := users[username].(backupCodes := Without(users[username].backupCodes, h))];
      }
    }

    method VerifyTotpLogin(pendingToken: string, code: string, token: string, now: int) returns (r: Outcome)
      modifies this
      ensures (State(), r) == VerifyResult(s, old(State()), pendingToken, code, token, now)
    {
      var p := ConsumePending(pendingToken, Verify, now);
      if p.None? || p.value.username !in users {
        return BadCredentials;
      }
      var name := p.value.username;
      var user := users[name];
      var ok := s.p.totpMatches(SecretOf(user), name, code, now);
      if !ok {
        ok := ConsumeBackupCode(name, code);
      }
      if !ok {
        RecordLoginFailure(name, now);
        return BadCredentials;
      }
      var role := ParseRole(s.p, user.role);
      IssueSession(name, role, user.org, token, now);
      return Granted(token, role);
    }

    method BeginEnrollment(pendingToken: string, secret: string, urlOk: bool, token: string, now: int) returns (r: Option<string>)
      modifies this
      ensures (State(), r) == BeginResult(s, old(State()), pendingToken, secret, urlOk, token, now)
    {
      var p := ConsumePending(pendingToken, Enroll, now);
      if p.None? || p.value.username !in users {
        return None;
      }
      var user := users[p.value.username];
      var kept := if user.totpSecret.Some? && !user.totpEnabled then user.totpSecret.value else secret;
      if !urlOk {
        return None;
      }
      users := users[p.value.username := user.(totpSecret := Some(kept), totpEnabled := false)];
      IssuePending(p.value.username, Enroll, token, now);
      return Some(token);
    }

    method ConfirmEnrollment(pendingToken: string, code: string, codes: seq<string>, token: string, now: int) returns (r: Option<string>)
      modifies this
      ensures (State(), r) == ConfirmResult(s, old(State()), pendingToken, code, codes, token, now)
    {
      var p := ConsumePending(pendingToken, Enroll, now);
      if p.None? || p.value.username !in users {
        return None;
      }
      var user := users[p.value.username];
      if user.totpSecret.None? || !s.p.totpMatches(user.totpSecret.value, p.value.username, code, now) {
        return None;
      }
      users := users[p.value.username := user.(totpEnabled := true, backupCodes := codes)];
      IssueSession(p.value.username, ParseRole(s.p, user.role), user.org, token, now);
      return Some(token);
    }

    method Logout(token: string)
      modifies this`sessions
      ensures State() == WithoutSession(old(State()), s.p.tokenHash(token))
    {
      sessions := sessions - {s.p.tokenHash(token)};
    }

    method Validate(credential: string, now: int) returns (r: Option<Context>)
      modifies this`sessions
      ensures (State(), r) == ValidateResult(s, old(State()), credential, now)
    {
      var key := s.p.tokenHash(credential);
      if key in sessions {
        var x := sessions[key];
        if x.expiresAt <= now {
          sessions := sessions - {key};
          return None;
        }
        if s.cfg.idleTimeoutSecs > 0 && now - x.lastUsed > s.cfg.idleTimeoutSecs * SECOND {
          sessions := sessions - {key};
          return None;
        }
        if now - x.lastUsed > 60 * SECOND {
          sessions := sessions[key := x.(lastUsed := now)];
        }
        assert sessions == old(sessions)[key := sessions[key]];
        return Some(Context(x.username, x.role, x.org, true));
      }
      var k := FindKey(s.cfg.apiKeys, key);
      if k.Some? {
        return Some(Context("apikey:" + k.value.name, ParseRole(s.p, k.value.role), k.value.org, false));
      }
      return None;
    }

    method PurgeExpired(now: int)
      modifies this`sessions
      ensures State() == Purged(old(State()), now)
    {
      sessions := map k | k in sessions && sessions[k].expiresAt / SECOND >= now / SECOND :: sessions[k];
    }
  }
}
