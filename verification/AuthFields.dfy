/** Each authentication call on the fields of the configuration and the store: when it succeeds,
    what it answers and what it leaves behind. */
module AuthFields {
  import opened Auth
  import opened Options

  // ---- Reading the configuration ----

  /** The role that a text names, whatever its case; an unknown text names a viewer. */
  ghost predicate RoleNamed(p: Primitives, text: string, role: Role) {
    && (role == Admin <==> p.lower(text) == "admin")
    && (role == Operator <==> p.lower(text) == "operator")
    && (role == Auditor <==> p.lower(text) == "auditor")
  }

  lemma RoleByName(p: Primitives, text: string)
    ensures RoleNamed(p, text, ParseRole(p, text))
  {
  }

  /** Entry `i` is the first one declared under a name. */
  ghost predicate FirstUser(users: seq<ConfigUser>, i: int, name: string) {
    0 <= i < |users| && users[i].username == name && forall j :: 0 <= j < i ==> users[j].username != name
  }

  ghost predicate FirstKey(keys: seq<ApiKey>, i: int, hash: string) {
    0 <= i < |keys| && keys[i].keyHash == hash && forall j :: 0 <= j < i ==> keys[j].keyHash != hash
  }

  ghost predicate Undeclared(cfg: Config, name: string) {
    forall i :: 0 <= i < |cfg.users| ==> cfg.users[i].username != name
  }

  lemma {:induction false} FindsFirstUser(users: seq<ConfigUser>, name: string) returns (i: int)
    requires FindUser(users, name).Some?
    ensures FirstUser(users, i, name) && users[i] == FindUser(users, name).value
    decreases |users|
  {
    if users[0].username == name {
      i := 0;
    } else {
      var k := FindsFirstUser(users[1..], name);
      i := k + 1;
      assert forall j :: 0 < j < |users| ==> users[j] == users[1..][j - 1];
    }
  }

  lemma FirstUserFound(users: seq<ConfigUser>, i: int, name: string)
    requires FirstUser(users, i, name)
    ensures FindUser(users, name) == Some(users[i])
  {
    var k := FindsFirstUser(users, name);
    assert k == i;
  }

  lemma {:induction false} FindsFirstKey(keys: seq<ApiKey>, hash: string) returns (i: int)
    requires FindKey(keys, hash).Some?
    ensures FirstKey(keys, i, hash) && keys[i] == FindKey(keys, hash).value
    decreases |keys|
  {
    if keys[0].keyHash == hash {
      i := 0;
    } else {
      var k := FindsFirstKey(keys[1..], hash);
      i := k + 1;
      assert forall j :: 0 < j < |keys| ==> keys[j] == keys[1..][j - 1];
    }
  }

  lemma FirstKeyFound(keys: seq<ApiKey>, i: int, hash: string)
    requires FirstKey(keys, i, hash)
    ensures FindKey(keys, hash) == Some(keys[i])
  {
    var k := FindsFirstKey(keys, hash);
    assert k == i;
  }

  // ---- What a call leaves behind ----

  /** The clock counts nanoseconds. */
  function Seconds(n: int): (d: int) {
    n * 1_000_000_000
  }

  /** A session for a user, with the role that a text names, from `now` for the configured time. */
  ghost predicate IsFresh(s: Setting, x: Session, name: string, roleText: string, org: string, now: int) {
    && x.username == name && RoleNamed(s.p, roleText, x.role) && x.org == org
    && x.expiresAt == now + Seconds(s.cfg.sessionTtlSecs) && x.lastUsed == now
  }

  /** Exactly one session is new, under the hash of the token handed out. */
  ghost predicate Opened(s: Setting, before: Store, after: Store, token: string, name: string, roleText: string, org: string, now: int) {
    var key := s.p.tokenHash(token);
    && key in after.sessions && IsFresh(s, after.sessions[key], name, roleText, org, now)
    && forall k :: k != key ==>
         (k in after.sessions <==> k in before.sessions) && (k in after.sessions ==> after.sessions[k] == before.sessions[k])
  }

  /** Exactly one challenge is new, under the hash of the token handed out, for ten minutes. */
  ghost predicate Challenged(s: Setting, before: Store, after: Store, token: string, name: string, kind: Kind, now: int) {
    after.pending == before.pending[s.p.tokenHash(token) := Pending(name, kind, now + Seconds(600))]
  }

  /** One more failure of a user: a lapsed lock starts a new count, and enough failures lock. */
  ghost predicate Counted(cfg: Config, before: map<string, Lockout>, after: map<string, Lockout>, name: string, now: int) {
    if cfg.maxFailedLogins == 0 then after == before
    else
      && name in after && after == before[name := after[name]]
      && if name in before && !(before[name].lockedUntil.Some? && before[name].lockedUntil.value <= now)
         then
           && after[name].failures == before[name].failures + 1
           && (after[name].failures < cfg.maxFailedLogins ==> after[name].lockedUntil == before[name].lockedUntil)
           && (after[name].failures >= cfg.maxFailedLogins ==> after[name].lockedUntil == Some(now + Seconds(cfg.lockoutSecs)))
         else
           && after[name].failures == 1
           && (1 < cfg.maxFailedLogins ==> after[name].lockedUntil == None)
           && (1 >= cfg.maxFailedLogins ==> after[name].lockedUntil == Some(now + Seconds(cfg.lockoutSecs)))
  }

  lemma FailureCounts(cfg: Config, st: Store, name: string, now: int)
    ensures Counted(cfg, st.lockouts, Failed(cfg, st, name, now).lockouts, name, now)
    ensures Failed(cfg, st, name, now) == st.(lockouts := Failed(cfg, st, name, now).lockouts)
  {
  }

  // ---- Login ----

  ghost predicate Locked(cfg: Config, st: Store, name: string, now: int) {
    && cfg.maxFailedLogins > 0 && name in st.lockouts
    && st.lockouts[name].lockedUntil.Some? && st.lockouts[name].lockedUntil.value > now
  }

  /** A locked user is told the whole seconds left, and nothing changes. */
  lemma LockedLogin(s: Setting, st: Store, name: string, password: string, token: string, now: int)
    ensures var (after, answer) := LoginResult(s, st, name, password, token, now);
            && (answer.LockedOut? <==> Locked(s.cfg, st, name, now))
            && (answer.LockedOut? ==>
                  && after == st
                  && Seconds(answer.retryAfterSecs) <= st.lockouts[name].lockedUntil.value - now < Seconds(answer.retryAfterSecs + 1))
  {
    hide Failed;
  }

  /** A declared user who is not locked gets a session if and only if the password is right. */
  lemma DeclaredLogin(s: Setting, st: Store, name: string, password: string, token: string, now: int, i: int)
    requires FirstUser(s.cfg.users, i, name) && !Locked(s.cfg, st, name, now)
    ensures var (after, answer) := LoginResult(s, st, name, password, token, now);
            var u := s.cfg.users[i];
            && (answer.Granted? <==> s.p.passwordMatches(password, u.passwordHash))
            && (answer.Granted? ==>
                  && answer.token == token && RoleNamed(s.p, u.role, answer.role)
                  && Opened(s, st, after, token, name, u.role, u.org, now)
                  && after.lockouts == st.lockouts - {name})
            && (!answer.Granted? ==>
                  answer == BadCredentials && after.sessions == st.sessions && Counted(s.cfg, st.lockouts, after.lockouts, name, now))
            && after.pending == st.pending && after.users == st.users
  {
    FirstUserFound(s.cfg.users, i, name);
    FailureCounts(s.cfg, st, name, now);
    RoleByName(s.p, s.cfg.users[i].role);
    hide Failed;
    hide ParseRole;
    hide Counted;
  }

  /** A stored user who is not locked gets a challenge if and only if the password is right: for a
      code if enrolled, for enrollment if not. An unknown user is refused like a wrong password. */
  lemma StoredLogin(s: Setting, st: Store, name: string, password: string, token: string, now: int)
    requires Undeclared(s.cfg, name) && !Locked(s.cfg, st, name, now)
    ensures var (after, answer) := LoginResult(s, st, name, password, token, now);
            var right := name in st.users && s.p.passwordMatches(password, st.users[name].passwordHash);
            && (right && st.users[name].totpEnabled ==>
                  answer == TotpRequired(token) && Challenged(s, st, after, token, name, Verify, now))
            && (right && !st.users[name].totpEnabled ==>
                  answer == EnrollmentRequired(token) && Challenged(s, st, after, token, name, Enroll, now))
            && (right ==> after.lockouts == st.lockouts - {name})
            && (!right ==> answer == BadCredentials && after.pending == st.pending && Counted(s.cfg, st.lockouts, after.lockouts, name, now))
            && after.sessions == st.sessions && after.users == st.users
  {
    FailureCounts(s.cfg, st, name, now);
    hide Failed;
    hide Counted;
  }

  // ---- Second factor ----

  /** There is an unexpired challenge of the kind under the token's hash, for a stored user. */
  ghost predicate Pends(s: Setting, st: Store, token: string, kind: Kind, now: int) {
    var key := s.p.tokenHash(token);
    && key in st.pending && st.pending[key].kind == kind && st.pending[key].expiresAt > now
    && st.pending[key].username in st.users
  }

  /** The user of the challenge under the token's hash. */
  function NameOf(s: Setting, st: Store, token: string): (name: string)
    requires s.p.tokenHash(token) in st.pending
  {
    st.pending[s.p.tokenHash(token)].username
  }

  /** The code is the user's current one; a user without a secret has the empty one. */
  ghost predicate CurrentCode(s: Setting, u: User, name: string, code: string, now: int) {
    s.p.totpMatches(match u.totpSecret { case Some(secret) => secret case None => "" }, name, code, now)
  }

  ghost predicate BackupCode(s: Setting, u: User, code: string) {
    exists i :: 0 <= i < |u.backupCodes| && u.backupCodes[i] == s.p.codeHash(code)
  }

  ghost predicate Passes(s: Setting, st: Store, pendingToken: string, code: string, now: int) {
    && Pends(s, st, pendingToken, Verify, now)
    && var name := NameOf(s, st, pendingToken);
       CurrentCode(s, st.users[name], name, code, now) || BackupCode(s, st.users[name], code)
  }

  /** Only one user's backup codes may differ. */
  ghost predicate OnlyCodes(before: Store, after: Store, name: string)
    requires name in before.users
  {
    && name in after.users
    && after.users == before.users[name := before.users[name].(backupCodes := after.users[name].backupCodes)]
  }

  /** The second factor succeeds if and only if an unexpired challenge of a stored user is presented
      with that user's current code or one of the backup codes. */
  lemma VerifyExactly(s: Setting, st: Store, pendingToken: string, code: string, token: string, now: int)
    ensures var (after, answer) := VerifyResult(s, st, pendingToken, code, token, now);
            && (answer.Granted? <==> Passes(s, st, pendingToken, code, now))
            && (answer.Granted? ==>
                  var name := NameOf(s, st, pendingToken);
                  var u := st.users[name];
                  && answer.token == token && RoleNamed(s.p, u.role, answer.role)
                  && Opened(s, st, after, token, name, u.role, u.org, now))
            && (!answer.Granted? ==> answer == BadCredentials && after.sessions == st.sessions)
            && after.pending == st.pending - {s.p.tokenHash(pendingToken)}
  {
    if Pends(s, st, pendingToken, Verify, now) {
      RoleByName(s.p, st.users[NameOf(s, st, pendingToken)].role);
    }
    hide Failed;
    hide ParseRole;
    hide RoleNamed;
    FailedKeeps(s.cfg, WithoutPending(st, s.p.tokenHash(pendingToken)), now);
  }

  /** A failure changes lockouts only. */
  lemma FailedKeeps(cfg: Config, st: Store, now: int)
    ensures forall name :: Failed(cfg, st, name, now) == st.(lockouts := Failed(cfg, st, name, now).lockouts)
  {
  }

  /** A backup code is used up if and only if it, and not the current code, was what passed; a wrong
      code leaves the backup codes alone and counts as a failure of the user. */
  lemma VerifySpends(s: Setting, st: Store, pendingToken: string, code: string, token: string, now: int)
    ensures var after := VerifyResult(s, st, pendingToken, code, token, now).0;
            if !Pends(s, st, pendingToken, Verify, now) then after.users == st.users && after.lockouts == st.lockouts
            else
              var name := NameOf(s, st, pendingToken);
              var u := st.users[name];
              if CurrentCode(s, u, name, code, now) then after.users == st.users && after.lockouts == st.lockouts
              else if BackupCode(s, u, code) then
                && OnlyCodes(st, after, name) && after.lockouts == st.lockouts
                && multiset(after.users[name].backupCodes) == multiset(u.backupCodes) - multiset{s.p.codeHash(code)}
              else after.users == st.users && Counted(s.cfg, st.lockouts, after.lockouts, name, now)
  {
    var rest := WithoutPending(st, s.p.tokenHash(pendingToken));
    if Pends(s, st, pendingToken, Verify, now) {
      FailureCounts(s.cfg, rest, NameOf(s, st, pendingToken), now);
    }
    hide Failed;
    hide ParseRole;
    hide Counted;
  }

  // ---- Setup and enrollment ----

  /** First-run setup succeeds if and only if there is no user at all, the trimmed name is not empty,
      the password has twelve characters and hashing worked; it makes one admin who must enroll. */
  lemma SetupExactly(s: Setting, st: Store, username: string, password: string, hashed: Option<string>, token: string, now: int)
    ensures var (after, answer) := SetupResult(s, st, username, password, hashed, token, now);
            var name := s.p.trim(username);
            && (answer.Some? <==> |s.cfg.users| == 0 && |st.users| == 0 && |name| > 0 && |password| >= 12 && hashed.Some?)
            && (answer.Some? ==>
                  && answer.value == token && Challenged(s, st, after, token, name, Enroll, now)
                  && after.users == map[name := User("admin", "default", hashed.value, None, false, [])]
                  && after.sessions == st.sessions && after.lockouts == st.lockouts)
            && (answer.None? ==> after == st)
  {
    assert |st.users| == 0 <==> st.users == map[];
  }

  /** Enrollment starts if and only if an enrollment challenge is presented and the URL can be built:
      a secret that was begun is kept, a confirmed one is replaced, and the user is not enrolled. */
  lemma BeginExactly(s: Setting, st: Store, pendingToken: string, secret: string, urlOk: bool, token: string, now: int)
    ensures var (after, answer) := BeginResult(s, st, pendingToken, secret, urlOk, token, now);
            var rest := st.(pending := st.pending - {s.p.tokenHash(pendingToken)});
            && (answer.Some? <==> Pends(s, st, pendingToken, Enroll, now) && urlOk)
            && (answer.Some? ==>
                  var name := NameOf(s, st, pendingToken);
                  var u := st.users[name];
                  && answer.value == token && Challenged(s, rest, after, token, name, Enroll, now)
                  && name in after.users && after.users == st.users[name := after.users[name]]
                  && after.users[name] == u.(totpEnabled := false, totpSecret := after.users[name].totpSecret)
                  && after.users[name].totpSecret == (if u.totpEnabled || u.totpSecret.None? then Some(secret) else u.totpSecret)
                  && after.sessions == st.sessions && after.lockouts == st.lockouts)
            && (answer.None? ==> after == rest)
  {
  }

  /** Enrollment is confirmed if and only if an enrollment challenge is presented with a code of the
      secret begun; the user is then enrolled with the new backup codes and has a session. */
  lemma ConfirmExactly(s: Setting, st: Store, pendingToken: string, code: string, codes: seq<string>, token: string, now: int)
    ensures var (after, answer) := ConfirmResult(s, st, pendingToken, code, codes, token, now);
            var rest := st.(pending := st.pending - {s.p.tokenHash(pendingToken)});
            && (answer.Some? <==>
                  && Pends(s, st, pendingToken, Enroll, now)
                  && var u := st.users[NameOf(s, st, pendingToken)];
                     u.totpSecret.Some? && s.p.totpMatches(u.totpSecret.value, NameOf(s, st, pendingToken), code, now))
            && (answer.Some? ==>
                  var name := NameOf(s, st, pendingToken);
                  var u := st.users[name];
                  && answer.value == token && Opened(s, st, after, token, name, u.role, u.org, now)
                  && after.users == st.users[name := u.(totpEnabled := true, backupCodes := codes)]
                  && after.pending == rest.pending && after.lockouts == st.lockouts)
            && (answer.None? ==> after == rest)
  {
    if Pends(s, st, pendingToken, Enroll, now) {
      RoleByName(s.p, st.users[NameOf(s, st, pendingToken)].role);
    }
    hide ParseRole;
    hide RoleNamed;
  }

  // ---- Sessions ----

  /** A credential with a session is accepted, as the session's user, if and only if the session
      is not expired and not idle too long; a use is noted once a minute. */
  lemma ValidateSessionExactly(s: Setting, st: Store, credential: string, now: int)
    requires s.p.tokenHash(credential) in st.sessions
    ensures var key := s.p.tokenHash(credential);
            var x := st.sessions[key];
            var (after, answer) := ValidateResult(s, st, credential, now);
            && (answer.Some? <==> now < x.expiresAt && (s.cfg.idleTimeoutSecs == 0 || now - x.lastUsed <= Seconds(s.cfg.idleTimeoutSecs)))
            && (answer.Some? ==>
                  && answer.value == Context(x.username, x.role, x.org, true)
                  && after == st.(sessions := st.sessions[key := x.(lastUsed := if now - x.lastUsed > Seconds(60) then now else x.lastUsed)]))
            && (answer.None? ==> after == st.(sessions := st.sessions - {key}))
  {
  }

  /** A credential without a session is accepted if and only if it is a listed key, as that key. */
  lemma ValidateKeyExactly(s: Setting, st: Store, credential: string, now: int)
    requires s.p.tokenHash(credential) !in st.sessions
    ensures var (after, answer) := ValidateResult(s, st, credential, now);
            && after == st
            && (answer.Some? <==> exists i :: 0 <= i < |s.cfg.apiKeys| && s.cfg.apiKeys[i].keyHash == s.p.tokenHash(credential))
            && (forall i :: FirstKey(s.cfg.apiKeys, i, s.p.tokenHash(credential)) ==> answer.Some? && IsKey(s, s.cfg.apiKeys[i], answer.value))
  {
    var key := s.p.tokenHash(credential);
    forall i | FirstKey(s.cfg.apiKeys, i, key)
      ensures var answer := ValidateResult(s, st, credential, now).1; answer.Some? && IsKey(s, s.cfg.apiKeys[i], answer.value)
    {
      FirstKeyFound(s.cfg.apiKeys, i, key);
      RoleByName(s.p, s.cfg.apiKeys[i].role);
    }
  }

  ghost predicate IsKey(s: Setting, k: ApiKey, c: Context) {
    c.principal == "apikey:" + k.name && RoleNamed(s.p, k.role, c.role) && c.org == k.org && !c.bySession
  }

  /** Logging out ends that session and no other. */
  lemma LogoutExactly(s: Setting, st: Store, token: string, k: string)
    ensures var after := WithoutSession(st, s.p.tokenHash(token));
            && (k in after.sessions <==> k in st.sessions && k != s.p.tokenHash(token))
            && (k in after.sessions ==> after.sessions[k] == st.sessions[k])
            && after == st.(sessions := after.sessions)
  {
  }

  /** Purging ends exactly the sessions that expired before the current second began. */
  lemma PurgeExactly(st: Store, now: int, k: string)
    ensures var after := Purged(st, now);
            && (k in after.sessions <==> k in st.sessions && st.sessions[k].expiresAt >= now - now % Seconds(1))
            && (k in after.sessions ==> after.sessions[k] == st.sessions[k])
            && after == st.(sessions := after.sessions)
  {
  }
}
