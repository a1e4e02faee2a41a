/**
 Mobile sessions: refresh-token rotation, revocation and the session version that access tokens carry, over
 every interleaving of logins, refreshes, logouts and revocations.
 */
module MobileSession {
  import opened Wrappers
  import opened AuthContexts

  const REFRESH_TTL_MS := 30 * 24 * 60 * 60 * 1000

  datatype Credential = Credential(version: nat, emailVerified: bool)

  /** A session row. Its refresh token is identified with its row number; `login` is the login it descends from. */
  datatype Session = Session(userId: string, context: AuthContext, login: nat, revoked: bool, expiresAt: int)

  type CredentialKey = (string, AuthContext)

  datatype State = State(activeUsers: set<string>, credentials: map<CredentialKey, Credential>, sessions: seq<Session>)

  /** The claims inside a signed access token. */
  datatype AccessToken = AccessToken(
    userId: string, sessionId: nat, version: nat, context: AuthContext, contaId: string)

  datatype AuthError = SessionRevoked | EmailNotVerified | AccountUnavailable

  /**
   One committed transaction. A revocation without a context covers every context of the user. Its credential
   statement saw the credentials `known`, and its sweep the first `seen` sessions: what others commit between these
   statements and its own commit is neither counted up nor swept.
   */
  datatype Step =
    | Login(userId: string, context: AuthContext, expiresAt: int)
    | Refresh(token: nat, expiresAt: int)
    | Logout(token: nat)
    | Revoke(userId: string, onlyContext: Option<AuthContext>, known: set<CredentialKey>, seen: nat)
    | SetActive(userId: string, active: bool)
    | AddCredential(userId: string, context: AuthContext)
    | VerifyEmail(userId: string, context: AuthContext)

  predicate Covers(s: Session, userId: string, onlyContext: Option<AuthContext>) {
    s.userId == userId && (onlyContext.Some? ==> s.context == onlyContext.value)
  }

  function Revoked(
    sessions: seq<Session>, userId: string, onlyContext: Option<AuthContext>, seen: nat): (r: seq<Session>)
    ensures |r| == |sessions|
    ensures forall i :: 0 <= i < |r| ==>
              r[i] == if i < seen && Covers(sessions[i], userId, onlyContext) then sessions[i].(revoked := true)
                      else sessions[i]
  {
    seq(|sessions|, i requires 0 <= i < |sessions| =>
      if i < seen && Covers(sessions[i], userId, onlyContext) then sessions[i].(revoked := true) else sessions[i])
  }

  predicate CoversKey(key: CredentialKey, userId: string, onlyContext: Option<AuthContext>) {
    key.0 == userId && (onlyContext.Some? ==> key.1 == onlyContext.value)
  }

  function Bumped(
    credentials: map<CredentialKey, Credential>, userId: string, onlyContext: Option<AuthContext>,
    known: set<CredentialKey>)
    : map<CredentialKey, Credential>
  {
    map key | key in credentials ::
      if key in known && CoversKey(key, userId, onlyContext)
      then credentials[key].(version := credentials[key].version + 1)
      else credentials[key]
  }

  predicate IsLive(st: State, token: nat) {
    token < |st.sessions| && !st.sessions[token].revoked
  }

  function After(st: State, s: Step): State {
    match s
    case Login(userId, context, expiresAt) =>
      st.(sessions := st.sessions + [Session(userId, context, |st.sessions|, false, expiresAt)])
    case Refresh(token, expiresAt) =>
      if !IsLive(st, token) then st
      else
        var spent := st.sessions[token].(revoked := true);
        st.(sessions := st.sessions[token := spent]
                        + [Session(spent.userId, spent.context, spent.login, false, expiresAt)])
    case Logout(token) =>
      if !IsLive(st, token) then st
      else st.(sessions := st.sessions[token := st.sessions[token].(revoked := true)])
    case Revoke(userId, onlyContext, known, seen) =>
      st.(credentials := Bumped(st.credentials, userId, onlyContext, known),
          sessions := Revoked(st.sessions, userId, onlyContext, seen))
    case SetActive(userId, active) =>
      st.(activeUsers := if active then st.activeUsers + {userId} else st.activeUsers - {userId})
    case AddCredential(userId, context) =>
      if (userId, context) in st.credentials then st
      else st.(credentials := st.credentials[(userId, context) := Credential(0, false)])
    case VerifyEmail(userId, context) =>
      if (userId, context) !in st.credentials then st
      else
        var verified := st.credentials[(userId, context)].(emailVerified := true);
        st.(credentials := st.credentials[(userId, context) := verified])
  }

  function Run(st: State, steps: seq<Step>): State
    decreases |steps|
  {
    if steps == [] then st else Run(After(st, steps[0]), steps[1..])
  }

  // ---------------------------------------------------------------- rotation

  /** A session descends from a login of the same user and context that is no younger than itself. */
  predicate IsDescended(sessions: seq<Session>, i: nat)
    requires i < |sessions|
  {
    var s := sessions[i];
    && s.login <= i
    && sessions[s.login].login == s.login && sessions[s.login].userId == s.userId
    && sessions[s.login].context == s.context
  }

  /** Of two sessions of one login at least one is revoked. */
  predicate HasOneLivePerLogin(sessions: seq<Session>) {
    forall i, j :: 0 <= i < j < |sessions| && sessions[i].login == sessions[j].login ==>
      sessions[i].revoked || sessions[j].revoked
  }

  predicate IsSound(st: State) {
    (forall i :: 0 <= i < |st.sessions| ==> IsDescended(st.sessions, i)) && HasOneLivePerLogin(st.sessions)
  }

  lemma StepKeepsSound(st: State, s: Step)
    requires IsSound(st)
    ensures IsSound(After(st, s))
  {
    hide IsDescended, HasOneLivePerLogin;
    var next := After(st, s);
    LoginsAreOld(st);
    StepKeepsOneLive(st, s);
    forall i | 0 <= i < |next.sessions| ensures IsDescended(next.sessions, i) {
      if i < |st.sessions| {
        assert IsDescended(st.sessions, i);
        StepKeepsDescent(st, s, i);
      } else {
        NewIsDescended(st, s);
      }
    }
  }

  lemma LoginsAreOld(st: State)
    requires forall i :: 0 <= i < |st.sessions| ==> IsDescended(st.sessions, i)
    ensures forall i :: 0 <= i < |st.sessions| ==> st.sessions[i].login < |st.sessions|
  {
    forall i | 0 <= i < |st.sessions| ensures st.sessions[i].login < |st.sessions| {
      assert IsDescended(st.sessions, i);
    }
  }

  lemma StepKeepsOneLive(st: State, s: Step)
    requires HasOneLivePerLogin(st.sessions)
    requires forall i :: 0 <= i < |st.sessions| ==> st.sessions[i].login < |st.sessions|
    ensures HasOneLivePerLogin(After(st, s).sessions)
  {
  }

  lemma StepKeepsDescent(st: State, s: Step, i: nat)
    requires i < |st.sessions| && IsDescended(st.sessions, i)
    ensures i < |After(st, s).sessions| && IsDescended(After(st, s).sessions, i)
  {
  }

  lemma NewIsDescended(st: State, s: Step)
    requires IsSound(st)
    ensures |After(st, s).sessions| > |st.sessions| ==> IsDescended(After(st, s).sessions, |st.sessions|)
  {
    if s.Refresh? && IsLive(st, s.token) {
      assert IsDescended(st.sessions, s.token);
    }
  }

  /** In every run each login has at most one unrevoked session among all that descend from it. */
  lemma {:induction false} OneLiveSessionPerLogin(st: State, steps: seq<Step>)
    requires IsSound(st)
    ensures IsSound(Run(st, steps))
    ensures var later := Run(st, steps).sessions;
            forall i, j :: 0 <= i < j < |later| && later[i].login == later[j].login ==>
              later[i].revoked || later[j].revoked
    decreases |steps|
  {
    if steps != [] {
      hide IsSound, After;
      StepKeepsSound(st, steps[0]);
      OneLiveSessionPerLogin(After(st, steps[0]), steps[1..]);
    }
  }

  /** A session keeps its owner and its login, and once revoked it stays revoked. */
  lemma {:induction false} SessionsOnlyAge(st: State, steps: seq<Step>, i: nat)
    requires i < |st.sessions|
    ensures i < |Run(st, steps).sessions|
    ensures var later := Run(st, steps).sessions[i];
            later == st.sessions[i].(revoked := later.revoked) && (st.sessions[i].revoked ==> later.revoked)
    decreases |steps|
  {
    if steps != [] {
      SessionsOnlyAge(After(st, steps[0]), steps[1..], i);
    }
  }

  /** A refresh token is spent at most once: after a refresh it never rotates again. */
  lemma TokenIsSpentOnce(st: State, token: nat, expiresAt: int, steps: seq<Step>, again: int)
    requires IsLive(st, token)
    ensures var later := Run(After(st, Refresh(token, expiresAt)), steps);
            !IsLive(later, token) && After(later, Refresh(token, again)) == later
  {
    SessionsOnlyAge(After(st, Refresh(token, expiresAt)), steps, token);
  }

  /** A successful refresh hands the login over to exactly one new session of the same user and context. */
  lemma RefreshHandsOver(st: State, token: nat, expiresAt: int)
    requires IsSound(st) && IsLive(st, token)
    ensures var next := After(st, Refresh(token, expiresAt));
            var created := |st.sessions|;
            && IsLive(next, created) && |next.sessions| == created + 1
            && next.sessions[created].login == st.sessions[token].login
            && next.sessions[created].userId == st.sessions[token].userId
            && next.sessions[created].context == st.sessions[token].context
            && forall i :: 0 <= i < created && next.sessions[i].login == st.sessions[token].login ==>
                 next.sessions[i].revoked
  {
    StepKeepsSound(st, Refresh(token, expiresAt));
  }

  // ---------------------------------------------------------------- revocation

  /** Every covered session whose login is older than `born` is revoked. */
  predicate AreDead(st: State, userId: string, onlyContext: Option<AuthContext>, born: nat) {
    forall i :: 0 <= i < |st.sessions| && Covers(st.sessions[i], userId, onlyContext) && st.sessions[i].login < born ==>
      st.sessions[i].revoked
  }

  lemma {:induction false} DeadStayDead(
    st: State, userId: string, onlyContext: Option<AuthContext>, born: nat, steps: seq<Step>)
    requires AreDead(st, userId, onlyContext, born) && born <= |st.sessions|
    ensures AreDead(Run(st, steps), userId, onlyContext, born)
    decreases |steps|
  {
    if steps != [] {
      DeadStayDead(After(st, steps[0]), userId, onlyContext, born, steps[1..]);
    }
  }

  /** No live session that the revocation covers was committed between its sweep and its own commit. */
  predicate MissesNone(st: State, s: Step)
    requires s.Revoke?
  {
    forall i :: s.seen <= i < |st.sessions| && Covers(st.sessions[i], s.userId, s.onlyContext) ==>
      st.sessions[i].revoked
  }

  /** When a revocation commits, all covered sessions that exist are dead exactly when its sweep missed none. */
  lemma DeadExactlyWhenNoneMissed(st: State, s: Step)
    requires s.Revoke? && IsSound(st)
    ensures AreDead(After(st, s), s.userId, s.onlyContext, |st.sessions|) <==> MissesNone(st, s)
  {
    LoginsAreOld(st);
    var next := After(st, s);
    if !MissesNone(st, s) {
      var i :| s.seen <= i < |st.sessions| && Covers(st.sessions[i], s.userId, s.onlyContext)
               && !st.sessions[i].revoked;
      assert next.sessions[i] == st.sessions[i];
    }
  }

  /**
   Every session that a sweep saw is dead for good. If the sweep missed none, so is every session that exists when the
   revocation commits, and everything that descends from it.
   */
  lemma RevocationIsFinal(st: State, s: Step, steps: seq<Step>)
    requires s.Revoke? && IsSound(st)
    ensures |st.sessions| <= |Run(After(st, s), steps).sessions|
    ensures forall i :: 0 <= i < |st.sessions| && i < s.seen && Covers(st.sessions[i], s.userId, s.onlyContext) ==>
              Run(After(st, s), steps).sessions[i].revoked
    ensures MissesNone(st, s) ==> AreDead(Run(After(st, s), steps), s.userId, s.onlyContext, |st.sessions|)
  {
    hide Run;
    var next := After(st, s);
    SessionsRemain(next, steps);
    forall i | 0 <= i < |st.sessions| && i < s.seen && Covers(st.sessions[i], s.userId, s.onlyContext)
      ensures Run(next, steps).sessions[i].revoked
    {
      SessionsOnlyAge(next, steps, i);
    }
    if MissesNone(st, s) {
      DeadExactlyWhenNoneMissed(st, s);
      DeadStayDead(next, s.userId, s.onlyContext, |st.sessions|, steps);
    }
  }

  lemma {:induction false} SessionsRemain(st: State, steps: seq<Step>)
    ensures |st.sessions| <= |Run(st, steps).sessions|
    decreases |steps|
  {
    if steps != [] {
      SessionsRemain(After(st, steps[0]), steps[1..]);
    }
  }

  /**
   A login that commits between the sweep and the commit of a revocation survives it: its session refreshes, and the
   token of the refresh, minted with the new version, is accepted.
   */
  lemma LoginDuringRevocation(userId: string, context: AuthContext, version: nat, expiresAt: int, now: int)
    requires now < expiresAt
    ensures var key := (userId, context);
            var start := State({userId}, map[key := Credential(version, true)], []);
            var revoked := Run(start, [Login(userId, context, expiresAt), Revoke(userId, None, {key}, 0)]);
            var next := After(revoked, Refresh(0, expiresAt));
            var token := AccessToken(userId, 1, version + 1, context, "");
            && IsSound(start) && IsLive(revoked, 0)
            && PassesChecks(revoked, revoked, revoked, 0, now, true) && IsVerifiedOwner(revoked, revoked, 0)
            && SessionAccepts(next, token, now) && VersionAccepts(next, userId, context, version + 1, true)
  {
    var key := (userId, context);
    var start := State({userId}, map[key := Credential(version, true)], []);
    var login := Login(userId, context, expiresAt);
    var revoke := Revoke(userId, None, {key}, 0);
    assert Run(start, [login, revoke]) == After(After(start, login), revoke) by { RunOfTwo(start, login, revoke); }
  }

  /** A refresh that commits while the sweep waits for its row survives in the same way: the new session is missed. */
  lemma RefreshDuringRevocation(st: State, token: nat, expiresAt: int, known: set<CredentialKey>)
    requires IsLive(st, token)
    ensures var s := st.sessions[token];
            var revoke := Revoke(s.userId, Some(s.context), known, |st.sessions|);
            var revoked := Run(st, [Refresh(token, expiresAt), revoke]);
            && !IsLive(revoked, token) && IsLive(revoked, |st.sessions|)
            && revoked.sessions[|st.sessions|].login == s.login
  {
    var s := st.sessions[token];
    RunOfTwo(st, Refresh(token, expiresAt), Revoke(s.userId, Some(s.context), known, |st.sessions|));
  }

  lemma RunOfTwo(st: State, a: Step, b: Step)
    ensures Run(st, [a, b]) == After(After(st, a), b)
  {
    hide After;
    assert [a, b][1..] == [b];
    assert Run(After(st, a), [b]) == Run(After(After(st, a), b), [b][1..]);
  }

  /**
   A revocation changes exactly what it covers: the sessions of its user, and of its context where it has one, that the
   sweep saw, and by one the versions of the credentials of that user and context that its first statement saw.
   */
  lemma RevocationIsConfined(st: State, s: Step, i: nat, key: CredentialKey)
    requires s.Revoke? && i < |st.sessions| && key in st.credentials
    ensures var next := After(st, s);
            && |next.sessions| == |st.sessions| && next.activeUsers == st.activeUsers
            && next.credentials.Keys == st.credentials.Keys
            && next.sessions[i].revoked ==
               (st.sessions[i].revoked
                || (i < s.seen && st.sessions[i].userId == s.userId
                    && (s.onlyContext.None? || s.onlyContext == Some(st.sessions[i].context))))
            && next.sessions[i] == st.sessions[i].(revoked := next.sessions[i].revoked)
            && next.credentials[key].version == st.credentials[key].version
               + (if key in s.known && key.0 == s.userId && (s.onlyContext.None? || s.onlyContext == Some(key.1))
                  then 1 else 0)
            && next.credentials[key].emailVerified == st.credentials[key].emailVerified
  {
  }

  // ---------------------------------------------------------------- access tokens

  /** Versions never go down, and a credential never disappears. */
  lemma {:induction false} VersionsOnlyGrow(st: State, steps: seq<Step>, key: CredentialKey)
    requires key in st.credentials
    ensures key in Run(st, steps).credentials
    ensures st.credentials[key].version <= Run(st, steps).credentials[key].version
    decreases |steps|
  {
    if steps != [] {
      VersionsOnlyGrow(After(st, steps[0]), steps[1..], key);
    }
  }

  /** The session part of `verifyMobileAccessToken`. */
  predicate SessionAccepts(st: State, t: AccessToken, now: int) {
    && IsLive(st, t.sessionId)
    && var s := st.sessions[t.sessionId];
       s.userId == t.userId && s.expiresAt > now && t.userId in st.activeUsers && s.context == t.context
  }

  /** `resolveSessionAccess` up to the account lookup, whose outcome is `hasAccount`. */
  predicate VersionAccepts(st: State, userId: string, context: AuthContext, version: nat, hasAccount: bool) {
    && (userId, context) in st.credentials && userId in st.activeUsers
    && st.credentials[(userId, context)].version == version && hasAccount
  }

  /** What a refresh reads before it rotates: the session, then the credential, then the credential again. */
  predicate PassesChecks(first: State, second: State, third: State, token: nat, now: int, hasAccount: bool) {
    && IsLive(first, token)
    && var s := first.sessions[token];
       && s.expiresAt > now && s.userId in first.activeUsers
       && (s.userId, s.context) in second.credentials
       && VersionAccepts(third, s.userId, s.context, second.credentials[(s.userId, s.context)].version, hasAccount)
  }

  predicate IsVerifiedOwner(first: State, third: State, token: nat) {
    && token < |first.sessions|
    && var key := (first.sessions[token].userId, first.sessions[token].context);
       key in third.credentials && third.credentials[key].emailVerified
  }

  /** A token older than its credential's version is never accepted again. */
  lemma OldTokenIsNeverAccepted(st: State, t: AccessToken, steps: seq<Step>, hasAccount: bool)
    requires (t.userId, t.context) in st.credentials && t.version < st.credentials[(t.userId, t.context)].version
    ensures !VersionAccepts(Run(st, steps), t.userId, t.context, t.version, hasAccount)
  {
    VersionsOnlyGrow(st, steps, (t.userId, t.context));
  }

  /**
   After a revocation that knew the credential, no access token minted before it, or minted by a refresh that read its
   version before it, is accepted. No token of a session that the sweep saw is accepted whatever version it carries,
   nor one of any session that existed if the sweep missed none.
   */
  lemma RevokedTokensAreDead(
    st: State, t: AccessToken, s: Step, steps1: seq<Step>, steps2: seq<Step>, now: int, hasAccount: bool)
    requires s.Revoke? && s.userId == t.userId && CoversKey((t.userId, t.context), s.userId, s.onlyContext)
    requires var key := (t.userId, t.context);
             || (key in st.credentials && key in s.known && t.version <= st.credentials[key].version)
             || (t.sessionId < |st.sessions| && (t.sessionId < s.seen || MissesNone(st, s)))
    ensures var first := Run(After(st, s), steps1);
            var second := Run(first, steps2);
            !(SessionAccepts(first, t, now) && VersionAccepts(second, t.userId, t.context, t.version, hasAccount))
  {
    var key := (t.userId, t.context);
    var revoked := After(st, s);
    var first := Run(revoked, steps1);
    if key in st.credentials && key in s.known && t.version <= st.credentials[key].version {
      VersionsOnlyGrow(revoked, steps1, key);
      VersionsOnlyGrow(first, steps2, key);
    } else {
      SessionsOnlyAge(revoked, steps1, t.sessionId);
    }
  }

  /**
   A step that leaves a session, its user and its credential in force: it neither spends nor ends the session, revokes
   nothing of its user and context, and does not deactivate the user.
   */
  predicate LeavesInForce(s: Step, id: nat, userId: string, context: AuthContext) {
    match s
    case Refresh(token, _) => token != id
    case Logout(token) => token != id
    case Revoke(u, c, _, _) => u != userId || (c.Some? && c.value != context)
    case SetActive(u, active) => active || u != userId
    case _ => true
  }

  /** A live session of an active user with a verified credential. */
  predicate IsInForce(st: State, id: nat) {
    && IsLive(st, id)
    && var s := st.sessions[id];
       && s.userId in st.activeUsers && (s.userId, s.context) in st.credentials
       && st.credentials[(s.userId, s.context)].emailVerified
  }

  lemma {:induction false} StaysInForce(st: State, id: nat, steps: seq<Step>)
    requires IsInForce(st, id)
    requires forall i :: 0 <= i < |steps| ==>
               LeavesInForce(steps[i], id, st.sessions[id].userId, st.sessions[id].context)
    ensures var key := (st.sessions[id].userId, st.sessions[id].context);
            && IsInForce(Run(st, steps), id) && Run(st, steps).sessions[id] == st.sessions[id]
            && Run(st, steps).credentials[key].version == st.credentials[key].version
    decreases |steps|
  {
    if steps != [] {
      StaysInForce(After(st, steps[0]), id, steps[1..]);
    }
  }

  /**
   As long as nobody ends it, a session works exactly until its deadline: its access token of the current version is
   accepted, and its refresh token passes the checks, when the account is there.
   */
  lemma SessionWorksUntilDeadline(
    st: State, id: nat, contaId: string, gap1: seq<Step>, gap2: seq<Step>, gap3: seq<Step>, now: int, hasAccount: bool)
    requires IsInForce(st, id)
    requires forall s :: s in gap1 + gap2 + gap3 ==>
               LeavesInForce(s, id, st.sessions[id].userId, st.sessions[id].context)
    ensures var user, context := st.sessions[id].userId, st.sessions[id].context;
            var t := AccessToken(user, id, st.credentials[(user, context)].version, context, contaId);
            var first := Run(st, gap1);
            var second := Run(first, gap2);
            var third := Run(second, gap3);
            && (SessionAccepts(first, t, now) && VersionAccepts(second, user, context, t.version, hasAccount) <==>
                now < st.sessions[id].expiresAt && hasAccount)
            && (PassesChecks(first, second, third, id, now, hasAccount) <==>
                now < st.sessions[id].expiresAt && hasAccount)
            && IsVerifiedOwner(first, third, id) && IsLive(third, id)
  {
    hide Run, LeavesInForce;
    var user, context := st.sessions[id].userId, st.sessions[id].context;
    assert forall i :: 0 <= i < |gap1| ==> (gap1 + gap2 + gap3)[i] == gap1[i];
    assert forall i :: 0 <= i < |gap2| ==> (gap1 + gap2 + gap3)[|gap1| + i] == gap2[i];
    assert forall i :: 0 <= i < |gap3| ==> (gap1 + gap2 + gap3)[|gap1| + |gap2| + i] == gap3[i];
    StaysInForce(st, id, gap1);
    StaysInForce(Run(st, gap1), id, gap2);
    StaysInForce(Run(Run(st, gap1), gap2), id, gap3);
  }

  /** A login and a refresh of a session in force leave the new session in force, with the deadline they were given. */
  lemma NewSessionIsInForce(st: State, s: Step)
    requires s.Login? || (s.Refresh? && IsInForce(st, s.token))
    requires s.Login? ==>
               && s.userId in st.activeUsers && (s.userId, s.context) in st.credentials
               && st.credentials[(s.userId, s.context)].emailVerified
    ensures var next := After(st, s);
            var created := |st.sessions|;
            && IsInForce(next, created) && next.sessions[created].expiresAt == s.expiresAt
            && next.credentials == st.credentials
  {
  }

  /** A token is accepted only of an active user, with the row of its own user and context, and with an account. */
  lemma {:induction false} DeactivatedUserIsRefused(
    st: State, userId: string, steps: seq<Step>, t: AccessToken, now: int, hasAccount: bool)
    requires t.userId == userId && forall i :: 0 <= i < |steps| ==> steps[i] != SetActive(userId, true)
    ensures var later := Run(After(st, SetActive(userId, false)), steps);
            && userId !in later.activeUsers
            && !SessionAccepts(later, t, now) && !VersionAccepts(later, userId, t.context, t.version, hasAccount)
  {
    StaysInactive(After(st, SetActive(userId, false)), userId, steps);
  }

  lemma {:induction false} StaysInactive(st: State, userId: string, steps: seq<Step>)
    requires userId !in st.activeUsers && forall i :: 0 <= i < |steps| ==> steps[i] != SetActive(userId, true)
    ensures userId !in Run(st, steps).activeUsers
    decreases |steps|
  {
    if steps != [] {
      StaysInactive(After(st, steps[0]), userId, steps[1..]);
    }
  }

  /** What the steps of others do to a user: they set activity, add a credential once, unverified, and verify it. */
  lemma UserStepsAre(st: State, userId: string, context: AuthContext)
    ensures After(st, SetActive(userId, true)) == st.(activeUsers := st.activeUsers + {userId})
    ensures After(st, SetActive(userId, false)) == st.(activeUsers := st.activeUsers - {userId})
    ensures var key := (userId, context);
            var added, verified := After(st, AddCredential(userId, context)), After(st, VerifyEmail(userId, context));
            && key in added.credentials
            && (if key in st.credentials then added == st
                else added == st.(credentials := st.credentials[key := Credential(0, false)]))
            && (if key !in st.credentials then verified == st
                else verified.credentials[key] == Credential(st.credentials[key].version, true)
                     && verified == st.(credentials := st.credentials[key := verified.credentials[key]]))
  {
  }

  // ---------------------------------------------------------------- the service

  datatype Tokens = Tokens(access: AccessToken, refresh: nat, expiresAt: int)

  class MobileAuth {
    var st: State

    method OtherTransactions(gap: seq<Step>)
      modifies this
      ensures st == Run(old(st), gap)
    {
      st := Run(st, gap);
    }

    /** `createSession`, after the credentials have been checked against version `version`. */
    method CreateSession(userId: string, context: AuthContext, version: nat, contaId: string, now: int)
      returns (r: Tokens)
      modifies this
      ensures st == After(old(st), Login(userId, context, now + REFRESH_TTL_MS))
      ensures r.refresh == |old(st).sessions| && IsLive(st, r.refresh)
      ensures r.access == AccessToken(userId, r.refresh, version, context, contaId)
      ensures r.expiresAt == now + REFRESH_TTL_MS == st.sessions[r.refresh].expiresAt
    {
      var created := |st.sessions|;
      st := st.(sessions := st.sessions + [Session(userId, context, created, false, now + REFRESH_TTL_MS)]);
      r := Tokens(AccessToken(userId, created, version, context, contaId), created, now + REFRESH_TTL_MS);
    }

    /**
     `refreshMobileSession`: reads the session, then the credential, checks the version again and finally rotates.
     Transactions of others commit between the four; `hasAccount` and `isListed` are the two account lookups.
     */
    method RefreshMobileSession(
      token: nat, contaId: string, now: int, hasAccount: bool, isListed: bool,
      gap1: seq<Step>, gap2: seq<Step>, gap3: seq<Step>) returns (r: Result<Tokens, AuthError>)
      modifies this
      ensures r.Ok? ==>
              var atWrite := Run(Run(Run(old(st), gap1), gap2), gap3);
              && IsLive(atWrite, token)
              && st == After(atWrite, Refresh(token, r.value.expiresAt))
              && r.value.refresh == |atWrite.sessions| && IsLive(st, r.value.refresh) && !IsLive(st, token)
              && r.value.access.sessionId == r.value.refresh
              && r.value.access.userId == st.sessions[token].userId
              && r.value.access.context == st.sessions[token].context
      ensures r.Ok? ==>
              var key := (r.value.access.userId, r.value.access.context);
              key in Run(old(st), gap1).credentials
              && r.value.access.version == Run(old(st), gap1).credentials[key].version
      ensures r.Ok? ==>
              && r.value.expiresAt == now + REFRESH_TTL_MS == st.sessions[r.value.refresh].expiresAt
              && r.value.access.contaId == contaId && st.sessions[token].revoked
      ensures r.Ok? <==>
              && token < |old(st).sessions|
              && var session := old(st).sessions[token];
                 var key := (session.userId, session.context);
                 var second := Run(old(st), gap1);
                 var third := Run(second, gap2);
                 && !session.revoked && session.expiresAt > now && session.userId in old(st).activeUsers
                 && key in second.credentials && key in third.credentials && session.userId in third.activeUsers
                 && third.credentials[key].version == second.credentials[key].version && hasAccount
                 && third.credentials[key].emailVerified && isListed && IsLive(Run(third, gap3), token)
      ensures r == Thrown(EmailNotVerified) <==>
              && PassesChecks(old(st), Run(old(st), gap1), Run(Run(old(st), gap1), gap2), token, now, hasAccount)
              && !IsVerifiedOwner(old(st), Run(Run(old(st), gap1), gap2), token)
      ensures r == Thrown(AccountUnavailable) <==>
              && PassesChecks(old(st), Run(old(st), gap1), Run(Run(old(st), gap1), gap2), token, now, hasAccount)
              && IsVerifiedOwner(old(st), Run(Run(old(st), gap1), gap2), token) && !isListed
      ensures r.Thrown? ==>
              || st == old(st) || st == Run(old(st), gap1) || st == Run(Run(old(st), gap1), gap2)
              || st == Run(Run(Run(old(st), gap1), gap2), gap3)
    {
      hide After, Run;
      if token >= |st.sessions| {
        return Thrown(SessionRevoked);
      }
      var session := st.sessions[token];
      if session.revoked || session.expiresAt <= now || session.userId !in st.activeUsers {
        return Thrown(SessionRevoked);
      }
      var key := (session.userId, session.context);
      SessionsOnlyAge(st, gap1, token);
      OtherTransactions(gap1);
      if key !in st.credentials {
        return Thrown(SessionRevoked);
      }
      var version := st.credentials[key].version;
      SessionsOnlyAge(st, gap2, token);
      OtherTransactions(gap2);
      if !VersionAccepts(st, key.0, key.1, version, hasAccount) {
        return Thrown(SessionRevoked);
      }
      if !st.credentials[key].emailVerified {
        return Thrown(EmailNotVerified);
      }
      if !isListed {
        return Thrown(AccountUnavailable);
      }
      SessionsOnlyAge(st, gap3, token);
      OtherTransactions(gap3);
      if !IsLive(st, token) {
        return Thrown(SessionRevoked);
      }
      var created, expiresAt := |st.sessions|, now + REFRESH_TTL_MS;
      RefreshWrites(st, token, expiresAt);
      st := st.(sessions := st.sessions[token := st.sessions[token].(revoked := true)]
                            + [Session(session.userId, session.context, st.sessions[token].login, false, expiresAt)]);
      r := Ok(Tokens(AccessToken(session.userId, created, version, session.context, contaId), created, expiresAt));
    }

    /** `revokeMobileSession`. */
    method RevokeMobileSession(token: nat)
      modifies this
      ensures st == After(old(st), Logout(token)) && !IsLive(st, token)
      ensures if token < |old(st).sessions|
              then st == old(st).(sessions := old(st).sessions[token := old(st).sessions[token].(revoked := true)])
              else st == old(st)
    {
      if IsLive(st, token) {
        st := st.(sessions := st.sessions[token := st.sessions[token].(revoked := true)]);
      }
    }

    /**
     `revokeUserSessions`: the credential statement, then the sweep, then the commit. Others commit between the two
     statements (`gap1`) and between the sweep and the commit (`gap2`).
     */
    method RevokeUserSessions(userId: string, gap1: seq<Step>, gap2: seq<Step>)
      modifies this
      ensures var atSweep := Run(old(st), gap1);
              st == After(Run(atSweep, gap2), Revoke(userId, None, old(st).credentials.Keys, |atSweep.sessions|))
      ensures |Run(old(st), gap1).sessions| <= |st.sessions|
      ensures forall i :: 0 <= i < |Run(old(st), gap1).sessions| && st.sessions[i].userId == userId ==>
                st.sessions[i].revoked
      ensures forall key :: key in old(st).credentials && key.0 == userId ==>
                key in st.credentials && st.credentials[key].version > old(st).credentials[key].version
    {
      hide Run;
      var known := st.credentials.Keys;
      OtherTransactions(gap1);
      var seen := |st.sessions|;
      SessionsRemain(st, gap2);
      OtherTransactions(gap2);
      forall key | key in old(st).credentials
        ensures key in st.credentials && st.credentials[key].version >= old(st).credentials[key].version
      {
        VersionsOnlyGrow(old(st), gap1, key);
        VersionsOnlyGrow(Run(old(st), gap1), gap2, key);
      }
      st := st.(credentials := Bumped(st.credentials, userId, None, known));
      st := st.(sessions := Revoked(st.sessions, userId, None, seen));
    }

    /** `verifyMobileAccessToken` on a token with a good signature: reads the session, then the credential. */
    method VerifyMobileAccessToken(t: AccessToken, now: int, hasAccount: bool, gap: seq<Step>) returns (accepted: bool)
      modifies this
      ensures st == Run(old(st), gap)
      ensures accepted <==>
              && t.sessionId < |old(st).sessions|
              && var session := old(st).sessions[t.sessionId];
                 var key := (t.userId, t.context);
                 && !session.revoked && session.expiresAt > now && t.userId in old(st).activeUsers
                 && session.userId == t.userId && session.context == t.context
                 && key in st.credentials && t.userId in st.activeUsers && st.credentials[key].version == t.version
                 && hasAccount && st.credentials[key].emailVerified
    {
      var accepts := SessionAccepts(st, t, now);
      OtherTransactions(gap);
      if !accepts || !VersionAccepts(st, t.userId, t.context, t.version, hasAccount) {
        return false;
      }
      accepted := st.credentials[(t.userId, t.context)].emailVerified;
    }
  }

  lemma RefreshWrites(st: State, token: nat, expiresAt: int)
    requires IsLive(st, token)
    ensures var s := st.sessions[token];
            After(st, Refresh(token, expiresAt)) ==
            st.(sessions := st.sessions[token := s.(revoked := true)]
                            + [Session(s.userId, s.context, s.login, false, expiresAt)])
  {
  }
}
