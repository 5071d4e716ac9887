/** Whose secret a second factor is checked against once a user is enrolled. */
module AuthEnrollment {
  import opened Auth
  import opened AuthRuns
  import opened Options

  ghost predicate EnrolledWith(st: Store, username: string, secret: string) {
    username in st.users && st.users[username].totpEnabled && st.users[username].totpSecret == Some(secret)
  }

  /** Some token presents a live enrollment challenge of the user. */
  ghost predicate CanEnroll(s: Setting, st: Store, username: string, now: int) {
    exists token :: Holds(s, st, token, Enroll, username, now)
  }

  /** The event comes from `now` on and does not edit the user from outside. */
  ghost predicate Leaves(st: Store, e: Event, username: string, now: int) {
    && e.now >= now
    && (e.step.Edit? ==> username in st.users && username in e.step.users && e.step.users[username] == st.users[username])
  }

  ghost predicate AllLeave(s: Setting, st: Store, events: seq<Event>, username: string, now: int)
    decreases |events|
  {
    events != [] ==> Leaves(st, events[0], username, now) && AllLeave(s, Next(s, st, events[0]), events[1..], username, now)
  }

  /** Enrolled, and nothing left that could change that. */
  ghost predicate Settled(s: Setting, st: Store, username: string, secret: string, now: int) {
    EnrolledWith(st, username, secret) && !CanEnroll(s, st, username, now)
  }

  // ---- What an event does to an enrolled user ----

  /** Every live enrollment challenge afterwards was live before, or is for somebody else. */
  ghost predicate NoNewEnrollment(st: Store, r: Store, username: string) {
    forall key :: key in r.pending && r.pending[key].kind == Enroll && r.pending[key].username == username ==>
      key in st.pending && st.pending[key] == r.pending[key]
  }

  lemma LoginSettled(s: Setting, st: Store, e: Event, username: string, secret: string)
    requires e.step.Login? && EnrolledWith(st, username, secret)
    ensures EnrolledWith(Next(s, st, e), username, secret) && NoNewEnrollment(st, Next(s, st, e), username)
  {
    hide Next;
    LoginPending(s, st, e);
  }

  /** A login changes no user, and hands an enrolled one no enrollment challenge. */
  lemma LoginPending(s: Setting, st: Store, e: Event)
    requires e.step.Login?
    ensures Next(s, st, e).users == st.users
    ensures var r, key, u := Next(s, st, e), s.p.tokenHash(e.step.token), e.step.username;
            || r.pending == st.pending
            || (u in st.users && key in r.pending && r.pending == st.pending[key := r.pending[key]] && r.pending[key].username == u
                && (r.pending[key].kind == Enroll ==> !st.users[u].totpEnabled))
  {
    hide Next;
    StepIsOperation(s, st, e);
  }

  lemma VerifySettled(s: Setting, st: Store, e: Event, username: string, secret: string)
    requires e.step.VerifyTotp? && EnrolledWith(st, username, secret)
    ensures EnrolledWith(Next(s, st, e), username, secret) && NoNewEnrollment(st, Next(s, st, e), username)
  {
    hide Next;
    VerifyPending(s, st, e, username);
  }

  lemma VerifyPending(s: Setting, st: Store, e: Event, username: string)
    requires e.step.VerifyTotp? && username in st.users
    ensures var r := Next(s, st, e);
            && r.pending == st.pending - {s.p.tokenHash(e.step.pendingToken)} && username in r.users
            && r.users[username] == st.users[username].(backupCodes := r.users[username].backupCodes)
  {
    hide Next;
    StepIsOperation(s, st, e);
  }

  lemma BeginSettled(s: Setting, st: Store, e: Event, username: string, secret: string)
    requires e.step.Begin? && EnrolledWith(st, username, secret) && !Holds(s, st, e.step.pendingToken, Enroll, username, e.now)
    ensures EnrolledWith(Next(s, st, e), username, secret) && NoNewEnrollment(st, Next(s, st, e), username)
  {
    hide Next;
    StepIsOperation(s, st, e);
  }

  lemma ConfirmSettled(s: Setting, st: Store, e: Event, username: string, secret: string)
    requires e.step.Confirm? && EnrolledWith(st, username, secret) && !Holds(s, st, e.step.pendingToken, Enroll, username, e.now)
    ensures EnrolledWith(Next(s, st, e), username, secret) && NoNewEnrollment(st, Next(s, st, e), username)
  {
    hide Next;
    StepIsOperation(s, st, e);
  }

  lemma RestSettled(s: Setting, st: Store, e: Event, username: string, secret: string, now: int)
    requires !e.step.Login? && !e.step.VerifyTotp? && !e.step.Begin? && !e.step.Confirm?
    requires EnrolledWith(st, username, secret) && Leaves(st, e, username, now)
    ensures EnrolledWith(Next(s, st, e), username, secret) && NoNewEnrollment(st, Next(s, st, e), username)
  {
    hide Next;
    if e.step.Setup? {
      SetupOver(s, st, e, username);
    } else {
      RestPending(s, st, e);
    }
  }

  lemma SetupOver(s: Setting, st: Store, e: Event, username: string)
    requires e.step.Setup? && username in st.users
    ensures Next(s, st, e) == st
  {
    hide Next;
    StepIsOperation(s, st, e);
  }

  lemma RestPending(s: Setting, st: Store, e: Event)
    requires !e.step.Login? && !e.step.VerifyTotp? && !e.step.Begin? && !e.step.Confirm? && !e.step.Setup?
    ensures Next(s, st, e).pending == st.pending && Next(s, st, e).users == if e.step.Edit? then e.step.users else st.users
  {
  }

  lemma EarlierHolds(s: Setting, st: Store, token: string, username: string, now: int, later: int)
    requires Holds(s, st, token, Enroll, username, later) && now <= later
    ensures Holds(s, st, token, Enroll, username, now)
  {
  }

  lemma StaysSettled(s: Setting, st: Store, e: Event, username: string, secret: string, now: int)
    requires Settled(s, st, username, secret, now) && Leaves(st, e, username, now)
    ensures Settled(s, Next(s, st, e), username, secret, now)
  {
    hide Next;
    if e.step.Login? {
      LoginSettled(s, st, e, username, secret);
    } else if e.step.VerifyTotp? {
      VerifySettled(s, st, e, username, secret);
    } else if e.step.Begin? {
      NotHeld(s, st, e.step.pendingToken, username, now, e.now);
      BeginSettled(s, st, e, username, secret);
    } else if e.step.Confirm? {
      NotHeld(s, st, e.step.pendingToken, username, now, e.now);
      ConfirmSettled(s, st, e, username, secret);
    } else {
      RestSettled(s, st, e, username, secret, now);
    }
    StillCannot(s, st, Next(s, st, e), username, now);
  }

  lemma NotHeld(s: Setting, st: Store, token: string, username: string, now: int, later: int)
    requires !CanEnroll(s, st, username, now) && now <= later
    ensures !Holds(s, st, token, Enroll, username, later)
  {
    if Holds(s, st, token, Enroll, username, later) {
      EarlierHolds(s, st, token, username, now, later);
    }
  }

  lemma StillCannot(s: Setting, st: Store, r: Store, username: string, now: int)
    requires NoNewEnrollment(st, r, username) && username in st.users && !CanEnroll(s, st, username, now)
    ensures !CanEnroll(s, r, username, now)
  {
    forall token
      ensures !Holds(s, r, token, Enroll, username, now)
    {
      assert !Holds(s, st, token, Enroll, username, now);
    }
  }

  // ---- Whole runs ----

  /** The event issues the user no session by enrollment, and by second factor only for the secret
      or a backup code. */
  ghost predicate NeedsSecret(s: Setting, st: Store, e: Event, username: string, secret: string) {
    forall key, x: Session :: x.username == username ==>
      && !EnrolledStep(s, st, e, key, x)
      && (SecondFactorStep(s, st, e, key, x) ==>
            || s.p.totpMatches(secret, username, e.step.code, e.now)
            || BackupCodeUsed(s, st, Next(s, st, e), username, e.step.code))
  }

  ghost predicate AllNeedSecret(s: Setting, st: Store, events: seq<Event>, username: string, secret: string)
    decreases |events|
  {
    events != [] ==> NeedsSecret(s, st, events[0], username, secret) && AllNeedSecret(s, Next(s, st, events[0]), events[1..], username, secret)
  }

  lemma SettledNeedsSecret(s: Setting, st: Store, e: Event, username: string, secret: string, now: int)
    requires Settled(s, st, username, secret, now) && now <= e.now
    ensures NeedsSecret(s, st, e, username, secret)
  {
    hide Next;
    if e.step.Confirm? {
      NotHeld(s, st, e.step.pendingToken, username, now, e.now);
    }
  }

  /** From an enrolled user without a live enrollment challenge on: the secret stays, and every
      second-factor session of the user needs it or a backup code. */
  lemma {:induction false} EnrolledNeedsSecret(s: Setting, st: Store, events: seq<Event>, username: string, secret: string, now: int)
    requires Settled(s, st, username, secret, now) && AllLeave(s, st, events, username, now)
    ensures EnrolledWith(AfterAll(s, st, events), username, secret) && AllNeedSecret(s, st, events, username, secret)
    decreases |events|
  {
    hide Next;
    if events != [] {
      StaysSettled(s, st, events[0], username, secret, now);
      SettledNeedsSecret(s, st, events[0], username, secret, now);
      EnrolledNeedsSecret(s, Next(s, st, events[0]), events[1..], username, secret, now);
    }
  }

  /** The secret survives whatever happens from `now` on, edits of the user from outside aside. */
  ghost predicate SecretKept(s: Setting, st: Store, username: string, secret: string, now: int) {
    forall events :: AllLeave(s, st, events, username, now) ==> EnrolledWith(AfterAll(s, st, events), username, secret)
  }

  /** With a live enrollment challenge the user can be enrolled anew: the secret is replaced, and a code
      for the new one gives a session. */
  lemma EnrolledAnew(s: Setting, st: Store, token: string, username: string, secret: string, another: string, second: string, code: string, third: string, now: int)
    requires EnrolledWith(st, username, secret) && Holds(s, st, token, Enroll, username, now)
    requires s.p.totpMatches(another, username, code, now)
    ensures var begun := Next(s, st, Event(Begin(token, another, true, second), now));
            && !EnrolledWith(begun, username, secret)
            && ConfirmResult(s, begun, second, code, [], third, now).1 == Some(third)
            && EnrolledWith(Next(s, begun, Event(Confirm(second, code, [], third), now)), username, another)
  {
  }

  lemma BegunNotEnrolled(s: Setting, st: Store, token: string, username: string, secret: string, now: int)
    requires EnrolledWith(st, username, secret) && Holds(s, st, token, Enroll, username, now)
    ensures var e := Event(Begin(token, "", true, ""), now);
            Leaves(st, e, username, now) && !EnrolledWith(Next(s, st, e), username, secret)
  {
  }

  /** The secret is kept if and only if no live enrollment challenge of the user is left. */
  lemma SecretKeptExactly(s: Setting, st: Store, username: string, secret: string, now: int)
    requires EnrolledWith(st, username, secret)
    ensures SecretKept(s, st, username, secret, now) <==> !CanEnroll(s, st, username, now)
  {
    hide Next;
    if CanEnroll(s, st, username, now) {
      var token :| Holds(s, st, token, Enroll, username, now);
      BegunNotEnrolled(s, st, token, username, secret, now);
      var events := [Event(Begin(token, "", true, ""), now)];
      assert events[1..] == [];
      assert AllLeave(s, st, events, username, now);
      assert AfterAll(s, st, events) == Next(s, st, events[0]);
    } else {
      forall events | AllLeave(s, st, events, username, now)
        ensures EnrolledWith(AfterAll(s, st, events), username, secret)
      {
        EnrolledNeedsSecret(s, st, events, username, secret, now);
      }
    }
  }

  // ---- Such a challenge can be left over ----

  /** A stored user who knows the password and has not enrolled yet. */
  ghost predicate NotYetEnrolled(s: Setting, st: Store, username: string, password: string, now: int) {
    && FindUser(s.cfg.users, username).None? && username in st.users && !st.users[username].totpEnabled
    && s.p.passwordMatches(password, st.users[username].passwordHash) && !IsLocked(s.cfg, st, username, now)
  }

  /** The secret an enrollment goes on with. */
  function EnrollingSecret(u: User, secret: string): (r: string) {
    if u.totpSecret.Some? && !u.totpEnabled then u.totpSecret.value else secret
  }

  lemma LoginToEnroll(s: Setting, st: Store, username: string, password: string, token: string, now: int)
    requires NotYetEnrolled(s, st, username, password, now)
    ensures var r := Next(s, st, Event(Login(username, password, token), now));
            && r.users == st.users && r.pending == st.pending[s.p.tokenHash(token) := Pending(username, Enroll, now + 600 * SECOND)]
            && NotYetEnrolled(s, r, username, password, now)
  {
    hide Next;
    StepIsOperation(s, st, Event(Login(username, password, token), now));
  }

  lemma BeginKeepsOther(s: Setting, st: Store, username: string, a: string, b: string, secret: string, c: string, now: int)
    requires Holds(s, st, a, Enroll, username, now) && Holds(s, st, b, Enroll, username, now)
    requires s.p.tokenHash(a) != s.p.tokenHash(b) && s.p.tokenHash(c) != s.p.tokenHash(b)
    ensures var r := Next(s, st, Event(Begin(a, secret, true, c), now));
            && Holds(s, r, b, Enroll, username, now) && Holds(s, r, c, Enroll, username, now)
            && r.users[username].totpSecret == Some(EnrollingSecret(st.users[username], secret))
  {
    hide Next;
    StepIsOperation(s, st, Event(Begin(a, secret, true, c), now));
  }

  lemma ConfirmKeepsOther(s: Setting, st: Store, username: string, b: string, c: string, code: string, codes: seq<string>, d: string, secret: string, now: int)
    requires Holds(s, st, b, Enroll, username, now) && Holds(s, st, c, Enroll, username, now) && s.p.tokenHash(c) != s.p.tokenHash(b)
    requires st.users[username].totpSecret == Some(secret) && s.p.totpMatches(secret, username, code, now)
    ensures var r := Next(s, st, Event(Confirm(c, code, codes, d), now));
            Holds(s, r, b, Enroll, username, now) && EnrolledWith(r, username, secret)
  {
    hide Next;
    StepIsOperation(s, st, Event(Confirm(c, code, codes, d), now));
  }

  /** Two logins before the enrollment: the second one's challenge outlives it. */
  lemma LeftOver(s: Setting, st: Store, username: string, password: string, a: string, b: string, secret: string, c: string,
                 code: string, codes: seq<string>, d: string, now: int)
    requires NotYetEnrolled(s, st, username, password, now)
    requires s.p.tokenHash(a) != s.p.tokenHash(b) && s.p.tokenHash(c) != s.p.tokenHash(b)
    requires s.p.totpMatches(EnrollingSecret(st.users[username], secret), username, code, now)
    ensures var r := AfterAll(s, st, [Event(Login(username, password, a), now), Event(Login(username, password, b), now),
                                      Event(Begin(a, secret, true, c), now), Event(Confirm(c, code, codes, d), now)]);
            EnrolledWith(r, username, EnrollingSecret(st.users[username], secret)) && Holds(s, r, b, Enroll, username, now)
  {
    hide Next;
    hide NotYetEnrolled;
    var e1, e2 := Event(Login(username, password, a), now), Event(Login(username, password, b), now);
    var e3, e4 := Event(Begin(a, secret, true, c), now), Event(Confirm(c, code, codes, d), now);
    LoginToEnroll(s, st, username, password, a, now);
    var s1 := Next(s, st, e1);
    LoginToEnroll(s, s1, username, password, b, now);
    var s2 := Next(s, s1, e2);
    BothHeld(s, st, s2, username, password, a, b, now);
    BeginKeepsOther(s, s2, username, a, b, secret, c, now);
    var s3 := Next(s, s2, e3);
    ConfirmKeepsOther(s, s3, username, b, c, code, codes, d, EnrollingSecret(st.users[username], secret), now);
    FourEvents(s, st, e1, e2, e3, e4);
  }

  lemma BothHeld(s: Setting, st: Store, r: Store, username: string, password: string, a: string, b: string, now: int)
    requires NotYetEnrolled(s, st, username, password, now) && s.p.tokenHash(a) != s.p.tokenHash(b) && r.users == st.users
    requires var p := Pending(username, Enroll, now + 600 * SECOND); r.pending == st.pending[s.p.tokenHash(a) := p][s.p.tokenHash(b) := p]
    ensures Holds(s, r, a, Enroll, username, now) && Holds(s, r, b, Enroll, username, now)
  {
  }

  lemma FourEvents(s: Setting, st: Store, e1: Event, e2: Event, e3: Event, e4: Event)
    ensures AfterAll(s, st, [e1, e2, e3, e4]) == Next(s, Next(s, Next(s, Next(s, st, e1), e2), e3), e4)
  {
    hide Next;
    assert [e1, e2, e3, e4][1..] == [e2, e3, e4] && [e2, e3, e4][1..] == [e3, e4] && [e3, e4][1..] == [e4] && [e4][1..] == [];
    assert AfterAll(s, Next(s, st, e1), [e2, e3, e4]) == AfterAll(s, Next(s, Next(s, st, e1), e2), [e3, e4]);
    assert AfterAll(s, Next(s, Next(s, Next(s, st, e1), e2), e3), [e4]) == Next(s, Next(s, Next(s, Next(s, st, e1), e2), e3), e4);
  }
}
