/**
 Password-change challenges: requested with a cooldown, verified with a code, and completed once within the
 verification window, in the transaction that writes the password.
 */
module PasswordOtp {
  import opened Wrappers
  import opened AuthContexts

  const COOLDOWN_MS := 60 * 1000
  const TTL_MS := 10 * 60_000
  const VERIFICATION_TTL_MS := 5 * 60_000
  const MAX_ATTEMPTS: nat := 5

  /** Whose challenge it is: one user in one account and one context. */
  datatype Subject = Subject(userId: string, contaId: string, context: AuthContext)

  /**
   A challenge row. `verification` is the token handed out when the code was right, whose hash the row stores;
   its time limit is set together with it.
   */
  datatype Challenge = Challenge(
    subject: Subject, code: nat, attempts: nat, expiresAt: int, resendAvailableAt: int,
    verifiedAt: Option<int>, verificationExpiresAt: Option<int>, verification: Option<nat>,
    usedAt: Option<int>, invalidatedAt: Option<int>)

  datatype PasswordWrite = PasswordWrite(challenge: nat, subject: Subject, hash: string)

  datatype State = State(challenges: seq<Challenge>, writes: seq<PasswordWrite>)

  datatype OtpError =
    | CooldownActive | ChallengeNotFound | ChallengeExpired | MaxAttempts | InvalidCode | InvalidVerification
    | UserUnavailable | DeliveryFailed

  /**
   One committed transaction. `seen` counts the challenges that existed when a request swept the earlier ones.
   A wrong or late code throws, which rolls back what its transaction wrote, so it commits nothing.
   */
  datatype Step =
    | Request(subject: Subject, code: nat, now: int, seen: nat)
    | MailFailed(challenge: nat, now: int)
    | Verify(challenge: nat, subject: Subject, code: nat, verification: nat, now: int)
    | Complete(challenge: nat, subject: Subject, verification: nat, hash: string, now: int, hasCredential: bool)

  predicate IsUnspent(c: Challenge) {
    c.usedAt.None? && c.invalidatedAt.None?
  }

  /** The subject's challenges that are neither used nor invalidated, expired ones included. */
  predicate IsSwept(c: Challenge, subject: Subject) {
    c.subject == subject && IsUnspent(c)
  }

  function NewChallenge(subject: Subject, code: nat, now: int): Challenge {
    Challenge(subject, code, 0, now + TTL_MS, now + COOLDOWN_MS, None, None, None, None, None)
  }

  function Swept(challenges: seq<Challenge>, subject: Subject, now: int, seen: nat): (r: seq<Challenge>)
    ensures |r| == |challenges|
    ensures forall i :: 0 <= i < |r| ==>
              r[i] == if i < seen && IsSwept(challenges[i], subject) then challenges[i].(invalidatedAt := Some(now))
                      else challenges[i]
  {
    seq(|challenges|, i requires 0 <= i < |challenges| =>
      if i < seen && IsSwept(challenges[i], subject) then challenges[i].(invalidatedAt := Some(now)) else challenges[i])
  }

  /** The newest challenge that is still open: the one whose cooldown counts. */
  function NewestOpen(challenges: seq<Challenge>, subject: Subject, now: int): (r: Option<Challenge>)
    ensures r.Some? ==> r.value in challenges && IsSwept(r.value, subject) && r.value.expiresAt > now
  {
    if challenges == [] then None
    else
      var n := |challenges| - 1;
      if IsSwept(challenges[n], subject) && challenges[n].expiresAt > now then Some(challenges[n])
      else NewestOpen(challenges[..n], subject, now)
  }

  predicate IsCoolingDown(challenges: seq<Challenge>, subject: Subject, now: int) {
    var open := NewestOpen(challenges, subject, now);
    open.Some? && open.value.resendAvailableAt > now
  }

  predicate CanVerify(st: State, challenge: nat, subject: Subject, code: nat, now: int) {
    && challenge < |st.challenges|
    && var c := st.challenges[challenge];
       c.subject == subject && IsUnspent(c) && c.expiresAt > now && c.attempts < MAX_ATTEMPTS && c.code == code
       && c.verifiedAt.None?
  }

  predicate CanComplete(st: State, challenge: nat, subject: Subject, verification: nat, now: int) {
    && challenge < |st.challenges|
    && var c := st.challenges[challenge];
       c.subject == subject && IsUnspent(c) && c.expiresAt > now
       && c.verifiedAt.Some? && c.verificationExpiresAt.Some? && c.verificationExpiresAt.value > now
       && c.verification == Some(verification)
  }

  function After(st: State, s: Step): State {
    match s
    case Request(subject, code, now, seen) =>
      st.(challenges := Swept(st.challenges, subject, now, seen) + [NewChallenge(subject, code, now)])
    case MailFailed(challenge, now) =>
      if challenge < |st.challenges| && st.challenges[challenge].usedAt.None?
      then st.(challenges := st.challenges[challenge := st.challenges[challenge].(invalidatedAt := Some(now))]) else st
    case Verify(challenge, subject, code, verification, now) =>
      if !CanVerify(st, challenge, subject, code, now) then st
      else st.(challenges := st.challenges[challenge :=
                 st.challenges[challenge].(verifiedAt := Some(now),
                                           verificationExpiresAt := Some(now + VERIFICATION_TTL_MS),
                                           verification := Some(verification))])
    case Complete(challenge, subject, verification, hash, now, hasCredential) =>
      if !CanComplete(st, challenge, subject, verification, now) || !hasCredential then st
      else State(st.challenges[challenge := st.challenges[challenge].(usedAt := Some(now))],
                 st.writes + [PasswordWrite(challenge, subject, hash)])
  }

  function Run(st: State, steps: seq<Step>): State
    decreases |steps|
  {
    if steps == [] then st else Run(After(st, steps[0]), steps[1..])
  }

  // ---------------------------------------------------------------- used, invalidated, verified

  predicate IsWritten(writes: seq<PasswordWrite>, challenge: nat) {
    exists i :: 0 <= i < |writes| && writes[i].challenge == challenge
  }

  /** A used challenge was verified before, at most five minutes earlier, and was not invalidated. */
  predicate IsOrderly(c: Challenge) {
    && (c.verifiedAt.Some? <==> c.verification.Some?)
    && (c.verifiedAt.Some? ==> c.verificationExpiresAt == Some(c.verifiedAt.value + VERIFICATION_TTL_MS)
                               && c.verifiedAt.value < c.expiresAt)
    && (c.usedAt.Some? ==>
        && c.invalidatedAt.None? && c.verifiedAt.Some?
        && c.usedAt.value < c.verifiedAt.value + VERIFICATION_TTL_MS && c.usedAt.value < c.expiresAt)
  }

  predicate IsSound(st: State) {
    && (forall c :: 0 <= c < |st.challenges| ==> IsOrderly(st.challenges[c]))
    && (forall c :: 0 <= c < |st.challenges| ==> (IsWritten(st.writes, c) <==> st.challenges[c].usedAt.Some?))
    && (forall i, j :: 0 <= i < j < |st.writes| ==> st.writes[i].challenge != st.writes[j].challenge)
    && (forall i :: 0 <= i < |st.writes| ==>
        st.writes[i].challenge < |st.challenges|
        && st.writes[i].subject == st.challenges[st.writes[i].challenge].subject)
  }

  lemma StepKeepsSound(st: State, s: Step)
    requires IsSound(st)
    ensures IsSound(After(st, s))
  {
    hide CanVerify, CanComplete, IsSound, After;
    match s
    case Request(_, _, _, _) => RequestKeepsSound(st, s);
    case MailFailed(_, _) => MailFailureKeepsSound(st, s);
    case Verify(_, _, _, _, _) => VerificationKeepsSound(st, s);
    case Complete(_, _, _, _, _, _) => CompletionKeepsSound(st, s);
  }

  lemma RequestKeepsSound(st: State, s: Step)
    requires IsSound(st) && s.Request?
    ensures IsSound(After(st, s))
  {
    var next := After(st, s);
    assert next.writes == st.writes;
    assert forall c :: 0 <= c < |st.challenges| ==> next.challenges[c].usedAt == st.challenges[c].usedAt;
  }

  lemma MailFailureKeepsSound(st: State, s: Step)
    requires IsSound(st) && s.MailFailed?
    ensures IsSound(After(st, s))
  {
    assert After(st, s).writes == st.writes;
  }

  lemma VerificationKeepsSound(st: State, s: Step)
    requires IsSound(st) && s.Verify?
    ensures IsSound(After(st, s))
  {
    assert After(st, s).writes == st.writes;
  }

  lemma CompletionKeepsSound(st: State, s: Step)
    requires IsSound(st) && s.Complete?
    ensures IsSound(After(st, s))
  {
    if !CanComplete(st, s.challenge, s.subject, s.verification, s.now) || !s.hasCredential {
      return;
    }
    var next := After(st, s);
    assert IsOrderly(st.challenges[s.challenge]);
    assert forall i :: 0 <= i < |st.writes| ==> next.writes[i] == st.writes[i];
    assert next.writes[|st.writes|].challenge == s.challenge;
    forall c | 0 <= c < |next.challenges| ensures IsWritten(next.writes, c) <==> next.challenges[c].usedAt.Some? {
      if c != s.challenge && IsWritten(st.writes, c) {
        var i :| 0 <= i < |st.writes| && st.writes[i].challenge == c;
        assert next.writes[i].challenge == c;
      }
    }
  }

  /** In every run the password writes are the used challenges, each once, and each was verified in time before. */
  lemma {:induction false} RunKeepsSound(st: State, steps: seq<Step>)
    requires IsSound(st)
    ensures IsSound(Run(st, steps))
    ensures forall c :: 0 <= c < |Run(st, steps).challenges| && Run(st, steps).challenges[c].usedAt.Some? ==>
              && IsWritten(Run(st, steps).writes, c)
              && Run(st, steps).challenges[c].verifiedAt.Some? && Run(st, steps).challenges[c].invalidatedAt.None?
    decreases |steps|
  {
    if steps != [] {
      hide IsSound, After;
      StepKeepsSound(st, steps[0]);
      RunKeepsSound(After(st, steps[0]), steps[1..]);
    }
  }

  /** A used challenge never changes again, and an invalidated one is never used. */
  lemma {:induction false} SpentStaysSpent(st: State, steps: seq<Step>, c: nat)
    requires c < |st.challenges| && !IsUnspent(st.challenges[c])
    ensures c < |Run(st, steps).challenges|
    ensures var later := Run(st, steps).challenges[c];
            && !IsUnspent(later) && later.usedAt == st.challenges[c].usedAt
            && (st.challenges[c].usedAt.Some? ==> later == st.challenges[c])
    decreases |steps|
  {
    if steps != [] {
      SpentStaysSpent(After(st, steps[0]), steps[1..], c);
    }
  }

  /** A completion writes the password at most once: afterwards the same challenge completes nothing. */
  lemma CompletesOnce(st: State, s: Step, steps: seq<Step>, again: Step)
    requires s.Complete? && again.Complete? && again.challenge == s.challenge
    requires After(st, s).writes != st.writes
    ensures After(Run(After(st, s), steps), again) == Run(After(st, s), steps)
  {
    SpentStaysSpent(After(st, s), steps, s.challenge);
  }

  // ---------------------------------------------------------------- one open challenge

  /** At most one challenge per subject is neither used nor invalidated. */
  predicate HasSingleChallenges(st: State) {
    forall i, j :: 0 <= i < j < |st.challenges| && st.challenges[i].subject == st.challenges[j].subject ==>
      !IsUnspent(st.challenges[i]) || !IsUnspent(st.challenges[j])
  }

  /** No open challenge of the subject was committed between the sweep of the request and its own commit. */
  predicate MissesNone(st: State, s: Step) {
    s.Request? ==> forall i :: s.seen <= i < |st.challenges| ==> !IsSwept(st.challenges[i], s.subject)
  }

  /** A request keeps challenges single exactly when its sweep missed none; every other step keeps them single. */
  lemma SingleExactlyWhenNoneMissed(st: State, s: Step)
    requires HasSingleChallenges(st)
    ensures HasSingleChallenges(After(st, s)) <==> MissesNone(st, s)
  {
    if s.Request? && !MissesNone(st, s) {
      var next := After(st, s);
      var i :| s.seen <= i < |st.challenges| && IsSwept(st.challenges[i], s.subject);
      assert IsUnspent(next.challenges[i]) && IsUnspent(next.challenges[|st.challenges|]);
    }
  }

  /** Two requests that both sweep before either commits leave two open challenges of one subject. */
  lemma OverlappingRequests(subject: Subject, code: nat, now: int)
    ensures var request := Request(subject, code, now, 0);
            HasSingleChallenges(State([], [])) && !HasSingleChallenges(Run(State([], []), [request, request]))
  {
    var request := Request(subject, code, now, 0);
    var first := After(State([], []), request);
    var second := After(first, request);
    assert [request, request][1..] == [request];
    assert Run(first, [request]) == second by { assert [request][1..] == []; }
    assert IsUnspent(second.challenges[0]) && IsUnspent(second.challenges[1]);
  }

  /** Requests one after the other: each sweep sees every challenge. */
  ghost predicate IsSerial(st: State, steps: seq<Step>)
    decreases |steps|
  {
    steps != [] ==>
      && (steps[0].Request? ==> steps[0].seen >= |st.challenges|)
      && IsSerial(After(st, steps[0]), steps[1..])
  }

  /** In every serial run at most one challenge per user, account and context is open. */
  lemma {:induction false} SerialRunsKeepSingle(st: State, steps: seq<Step>)
    requires HasSingleChallenges(st) && IsSerial(st, steps)
    ensures HasSingleChallenges(Run(st, steps))
    decreases |steps|
  {
    hide HasSingleChallenges, After;
    if steps != [] {
      SingleExactlyWhenNoneMissed(st, steps[0]);
      SerialRunsKeepSingle(After(st, steps[0]), steps[1..]);
    }
  }

  /** The challenge is the newest of the subject that is open and unexpired. */
  predicate IsNewestOpen(challenges: seq<Challenge>, i: nat, subject: Subject, now: int) {
    && i < |challenges| && IsSwept(challenges[i], subject) && challenges[i].expiresAt > now
    && forall j :: i < j < |challenges| ==> !(IsSwept(challenges[j], subject) && challenges[j].expiresAt > now)
  }

  lemma {:induction false} NewestOpenIs(challenges: seq<Challenge>, i: nat, subject: Subject, now: int)
    requires IsNewestOpen(challenges, i, subject, now)
    ensures NewestOpen(challenges, subject, now) == Some(challenges[i])
  {
    var n := |challenges| - 1;
    if i < n {
      assert !(IsSwept(challenges[n], subject) && challenges[n].expiresAt > now);
      NewestOpenIs(challenges[..n], i, subject, now);
    }
  }

  lemma {:induction false} NewestOpenExists(challenges: seq<Challenge>, subject: Subject, now: int)
    ensures NewestOpen(challenges, subject, now).Some? ==> exists i: nat :: IsNewestOpen(challenges, i, subject, now)
  {
    if challenges != [] {
      var n := |challenges| - 1;
      if IsSwept(challenges[n], subject) && challenges[n].expiresAt > now {
        assert IsNewestOpen(challenges, n, subject, now);
      } else if NewestOpen(challenges, subject, now).Some? {
        NewestOpenExists(challenges[..n], subject, now);
        var i: nat :| IsNewestOpen(challenges[..n], i, subject, now);
        assert IsNewestOpen(challenges, i, subject, now);
      }
    }
  }

  /** A request is refused exactly while the newest open challenge is younger than its cooldown, in any table. */
  lemma CooldownIsExact(challenges: seq<Challenge>, subject: Subject, now: int)
    ensures IsCoolingDown(challenges, subject, now) <==>
            exists i: nat :: IsNewestOpen(challenges, i, subject, now) && challenges[i].resendAvailableAt > now
  {
    hide IsNewestOpen, NewestOpen;
    NewestOpenExists(challenges, subject, now);
    forall i: nat | IsNewestOpen(challenges, i, subject, now)
      ensures i < |challenges| && NewestOpen(challenges, subject, now) == Some(challenges[i])
    {
      NewestOpenIs(challenges, i, subject, now);
      NewestInRange(challenges, i, subject, now);
    }
  }

  lemma NewestInRange(challenges: seq<Challenge>, i: nat, subject: Subject, now: int)
    requires IsNewestOpen(challenges, i, subject, now)
    ensures i < |challenges|
  {
  }

  // ---------------------------------------------------------------- from request to completion

  /** A step that neither invalidates nor uses up a challenge. */
  predicate LeavesOpen(s: Step, c: nat, subject: Subject) {
    match s
    case Request(other, _, _, seen) => other != subject || seen <= c
    case MailFailed(challenge, _) => challenge != c
    case Complete(challenge, _, _, _, _, _) => challenge != c
    case _ => true
  }

  /** A challenge that is verified keeps its verification token and its limit in every run. */
  lemma {:induction false} VerificationStays(st: State, steps: seq<Step>, c: nat)
    requires c < |st.challenges| && st.challenges[c].verifiedAt.Some?
    ensures c < |Run(st, steps).challenges|
    ensures var now, later := st.challenges[c], Run(st, steps).challenges[c];
            later == now.(usedAt := later.usedAt, invalidatedAt := later.invalidatedAt)
    decreases |steps|
  {
    if steps != [] {
      VerificationStays(After(st, steps[0]), steps[1..], c);
    }
  }

  lemma {:induction false} StaysOpen(st: State, steps: seq<Step>, c: nat)
    requires c < |st.challenges| && IsUnspent(st.challenges[c])
    requires forall i :: 0 <= i < |steps| ==> LeavesOpen(steps[i], c, st.challenges[c].subject)
    ensures c < |Run(st, steps).challenges| && IsUnspent(Run(st, steps).challenges[c])
    ensures var now, later := st.challenges[c], Run(st, steps).challenges[c];
            later == now.(verifiedAt := later.verifiedAt, verificationExpiresAt := later.verificationExpiresAt,
                          verification := later.verification)
    decreases |steps|
  {
    if steps != [] {
      StaysOpen(After(st, steps[0]), steps[1..], c);
    }
  }

  lemma {:induction false} StaysUnverified(st: State, steps: seq<Step>, c: nat)
    requires c < |st.challenges| && st.challenges[c].verifiedAt.None?
    requires forall i :: 0 <= i < |steps| ==> !(steps[i].Verify? && steps[i].challenge == c)
    ensures c < |Run(st, steps).challenges| && Run(st, steps).challenges[c].verifiedAt.None?
    decreases |steps|
  {
    if steps != [] {
      StaysUnverified(After(st, steps[0]), steps[1..], c);
    }
  }

  /**
   A challenge that was requested, and that nobody spends or verifies meanwhile, is verified by exactly the code that
   was sent, for exactly its subject, until exactly ten minutes after the request.
   */
  lemma RequestedVerifiesUntilDeadline(
    st: State, request: Step, steps: seq<Step>, subject: Subject, code: nat, now: int)
    requires request.Request?
    requires forall i :: 0 <= i < |steps| ==>
               && LeavesOpen(steps[i], |st.challenges|, request.subject)
               && !(steps[i].Verify? && steps[i].challenge == |st.challenges|)
    ensures var later := Run(After(st, request), steps);
            CanVerify(later, |st.challenges|, subject, code, now) <==>
            subject == request.subject && code == request.code && now < request.now + 10 * 60_000
    ensures var later := Run(After(st, request), steps).challenges;
            |st.challenges| < |later| && later[|st.challenges|].attempts == 0
  {
    hide Run;
    StaysOpen(After(st, request), steps, |st.challenges|);
    StaysUnverified(After(st, request), steps, |st.challenges|);
  }

  /** Until it expires, a request that has just committed keeps others of its subject away for exactly a minute. */
  lemma RequestCoolsDownForAMinute(st: State, request: Step, now: int)
    requires request.Request? && now < request.now + 10 * 60_000
    ensures IsCoolingDown(After(st, request).challenges, request.subject, now) <==> now < request.now + 60 * 1000
  {
    NewestOpenIs(After(st, request).challenges, |st.challenges|, request.subject, now);
  }

  /**
   A challenge that was verified, and that nobody spends meanwhile, is completed by exactly the token that the
   verification handed out, for exactly its subject, until exactly five minutes later, and within its own time.
   */
  lemma VerifiedCompletesUntilDeadline(
    st: State, verify: Step, steps: seq<Step>, subject: Subject, verification: nat, now: int)
    requires verify.Verify? && CanVerify(st, verify.challenge, verify.subject, verify.code, verify.now)
    requires forall i :: 0 <= i < |steps| ==> LeavesOpen(steps[i], verify.challenge, verify.subject)
    ensures var later := Run(After(st, verify), steps);
            CanComplete(later, verify.challenge, subject, verification, now) <==>
            && subject == verify.subject && verification == verify.verification
            && now < verify.now + 5 * 60_000 && now < st.challenges[verify.challenge].expiresAt
  {
    hide Run;
    StaysOpen(After(st, verify), steps, verify.challenge);
    VerificationStays(After(st, verify), steps, verify.challenge);
  }

  /** Step `i` of a run hands out a token for a challenge: its code was the one that had been sent to the subject. */
  predicate HandsOut(st: State, steps: seq<Step>, i: nat, challenge: nat, verification: nat) {
    && i < |steps| && steps[i].Verify? && steps[i].challenge == challenge && steps[i].verification == verification
    && var before := Run(st, steps[..i]);
       && challenge < |before.challenges|
       && before.challenges[challenge].subject == steps[i].subject
       && before.challenges[challenge].code == steps[i].code
       && before.challenges[challenge].attempts < 5
       && steps[i].now < before.challenges[challenge].expiresAt
  }

  lemma {:induction false} TokenWasHandedOut(st: State, steps: seq<Step>, c: nat)
    requires c < |st.challenges| ==> st.challenges[c].verifiedAt.None?
    requires c < |Run(st, steps).challenges| && Run(st, steps).challenges[c].verifiedAt.Some?
    requires Run(st, steps).challenges[c].verification.Some?
    ensures exists i: nat :: HandsOut(st, steps, i, c, Run(st, steps).challenges[c].verification.value)
                        && steps[i].subject == Run(st, steps).challenges[c].subject
                        && Run(st, steps).challenges[c].verificationExpiresAt == Some(steps[i].now + 5 * 60_000)
    decreases |steps|
  {
    if steps != [] {
      var next, rest := After(st, steps[0]), steps[1..];
      if c < |next.challenges| && next.challenges[c].verifiedAt.Some? {
        VerificationStays(next, rest, c);
        VerifyingStep(st, steps[0], c);
        assert steps[..0] == [];
        assert HandsOut(st, steps, 0, c, Run(st, steps).challenges[c].verification.value);
      } else {
        TokenWasHandedOut(next, rest, c);
        var v := Run(st, steps).challenges[c].verification.value;
        var i: nat :| HandsOut(next, rest, i, c, v) && rest[i].subject == Run(st, steps).challenges[c].subject
                 && Run(st, steps).challenges[c].verificationExpiresAt == Some(rest[i].now + 5 * 60_000);
        assert steps[..i + 1][1..] == rest[..i] && steps[..i + 1][0] == steps[0];
        assert Run(st, steps[..i + 1]) == Run(next, rest[..i]);
        assert HandsOut(st, steps, i + 1, c, v);
      }
    }
  }

  lemma VerifyingStep(st: State, s: Step, c: nat)
    requires c < |st.challenges| ==> st.challenges[c].verifiedAt.None?
    requires c < |After(st, s).challenges| && After(st, s).challenges[c].verifiedAt.Some?
    ensures c < |st.challenges| && s.Verify? && s.challenge == c && CanVerify(st, c, s.subject, s.code, s.now)
    ensures After(st, s).challenges[c] ==
            st.challenges[c].(verifiedAt := Some(s.now), verificationExpiresAt := Some(s.now + 5 * 60_000),
                              verification := Some(s.verification))
  {
  }

  /**
   In any run, a completion that writes a password does so for its own subject, under the very token that an earlier
   verification of the challenge handed out to this subject against the code sent to it, less than five minutes before.
   */
  lemma CompletionNeedsHandedOutToken(st: State, steps: seq<Step>, s: Step)
    requires s.Complete? && (s.challenge < |st.challenges| ==> st.challenges[s.challenge].verifiedAt.None?)
    requires After(Run(st, steps), s).writes != Run(st, steps).writes
    ensures After(Run(st, steps), s).writes == Run(st, steps).writes + [PasswordWrite(s.challenge, s.subject, s.hash)]
    ensures exists i: nat :: HandsOut(st, steps, i, s.challenge, s.verification)
                        && steps[i].subject == s.subject && s.now < steps[i].now + 5 * 60_000
  {
    hide Run;
    TokenWasHandedOut(st, steps, s.challenge);
  }

  // ---------------------------------------------------------------- the service

  class PasswordChange {
    var st: State

    method OtherTransactions(gap: seq<Step>)
      modifies this
      ensures st == Run(old(st), gap)
    {
      st := Run(st, gap);
    }

    /**
     `requestPasswordChangeOtp`; `isAvailable` tells whether user, membership and verified credential were found. Others
     commit between the cooldown check and the sweep (`gap1`), between the sweep and the commit (`gap2`), and while the
     message is sent (`later`); a failed message invalidates the challenge.
     */
    method RequestPasswordChangeOtp(
      subject: Subject, code: nat, now: int, isAvailable: bool,
      gap1: seq<Step>, gap2: seq<Step>, mailFails: bool, later: seq<Step>)
      returns (r: Result<nat, OtpError>, ghost challenge: nat)
      modifies this
      ensures !isAvailable ==> r == Thrown(UserUnavailable) && st == old(st)
      ensures isAvailable && IsCoolingDown(old(st).challenges, subject, now) ==>
                r == Thrown(CooldownActive) && st == old(st)
      ensures isAvailable && !IsCoolingDown(old(st).challenges, subject, now) ==>
              var atSweep := Run(old(st), gap1);
              var requested := Run(After(Run(atSweep, gap2), Request(subject, code, now, |atSweep.challenges|)), later);
              && challenge == |Run(atSweep, gap2).challenges| < |st.challenges|
              && (if mailFails then r == Thrown(DeliveryFailed) && st == After(requested, MailFailed(challenge, now))
                                    && !IsUnspent(st.challenges[challenge])
                  else r == Ok(challenge) && st == requested)
    {
      hide Run;
      challenge := 0;
      if !isAvailable {
        return Thrown(UserUnavailable), challenge;
      }
      if IsCoolingDown(st.challenges, subject, now) {
        return Thrown(CooldownActive), challenge;
      }
      OtherTransactions(gap1);
      var seen := |st.challenges|;
      OtherTransactions(gap2);
      var id := |st.challenges|;
      challenge := id;
      st := st.(challenges := Swept(st.challenges, subject, now, seen) + [NewChallenge(subject, code, now)]);
      ChallengesRemain(st, later, id);
      OtherTransactions(later);
      if !mailFails {
        return Ok(id), challenge;
      }
      if st.challenges[id].usedAt.None? {
        st := st.(challenges := st.challenges[id := st.challenges[id].(invalidatedAt := Some(now))]);
      }
      r := Thrown(DeliveryFailed);
    }

    /** `verifyPasswordChangeOtp` of a member, with the read of the challenge and its conditional update apart. */
    method VerifyPasswordChangeOtp(
      challenge: nat, subject: Subject, code: nat, verification: nat, now: int, isMember: bool, gap: seq<Step>)
      returns (r: Result<nat, OtpError>)
      modifies this
      ensures r.Thrown? ==> st == old(st) || st == Run(old(st), gap)
      ensures r.Ok? ==>
              && r.value == verification
              && CanVerify(Run(old(st), gap), challenge, subject, code, now)
              && st == After(Run(old(st), gap), Verify(challenge, subject, code, verification, now))
      ensures !isMember ==> r == Thrown(ChallengeNotFound) && st == old(st)
      ensures r.Ok? <==>
              && isMember && challenge < |old(st).challenges| && challenge < |Run(old(st), gap).challenges|
              && var read, found := old(st).challenges[challenge], Run(old(st), gap).challenges[challenge];
                 && read.subject == subject && read.usedAt.None? && read.invalidatedAt.None? && now < read.expiresAt
                 && read.attempts < 5 && read.code == code
                 && found.verifiedAt.None? && found.usedAt.None? && found.invalidatedAt.None?
      ensures isMember && challenge < |old(st).challenges| && r.Thrown? ==>
                !CanVerify(st, challenge, subject, code, now)
      ensures var open := isMember && challenge < |old(st).challenges|
                          && IsSwept(old(st).challenges[challenge], subject);
              && (r == Thrown(ChallengeExpired) <==> open && old(st).challenges[challenge].expiresAt <= now)
              && (r == Thrown(MaxAttempts) <==>
                  && open && old(st).challenges[challenge].expiresAt > now
                  && old(st).challenges[challenge].attempts >= MAX_ATTEMPTS)
              && (r == Thrown(InvalidCode) <==>
                  && open && old(st).challenges[challenge].expiresAt > now
                  && old(st).challenges[challenge].attempts < MAX_ATTEMPTS
                  && old(st).challenges[challenge].code != code)
    {
      hide Run, After;
      if !isMember || challenge >= |st.challenges| {
        return Thrown(ChallengeNotFound);
      }
      ChallengesRemain(st, gap, challenge);
      var c := st.challenges[challenge];
      if c.subject != subject || !IsUnspent(c) {
        return Thrown(ChallengeNotFound);
      }
      if c.expiresAt <= now {
        return Thrown(ChallengeExpired);
      }
      if c.attempts >= MAX_ATTEMPTS {
        return Thrown(MaxAttempts);
      }
      if c.code != code {
        return Thrown(InvalidCode);
      }
      OtherTransactions(gap);
      var found := st.challenges[challenge];
      if found.verifiedAt.Some? || !IsUnspent(found) || found.attempts >= MAX_ATTEMPTS {
        return Thrown(ChallengeNotFound);
      }
      VerifyWrites(st, challenge, subject, code, verification, now);
      st := st.(challenges := st.challenges[challenge :=
        found.(verifiedAt := Some(now), verificationExpiresAt := Some(now + VERIFICATION_TTL_MS),
               verification := Some(verification))]);
      r := Ok(verification);
    }

    /** `completePasswordChange`, whose read of the challenge lies in an earlier transaction. */
    method CompletePasswordChange(
      challenge: nat, subject: Subject, verification: nat, hash: string, now: int,
      isAvailable: bool, hasCredential: bool, gap: seq<Step>)
      returns (r: Result<(), OtpError>)
      modifies this
      ensures r.Thrown? ==> st == old(st) || st == Run(old(st), gap)
      ensures r.Ok? <==>
              && isAvailable && hasCredential
              && challenge < |old(st).challenges| && challenge < |Run(old(st), gap).challenges|
              && var read, found := old(st).challenges[challenge], Run(old(st), gap).challenges[challenge];
                 && read.subject == subject && read.usedAt.None? && read.invalidatedAt.None?
                 && read.verifiedAt.Some? && read.verification == Some(verification)
                 && read.verificationExpiresAt.Some? && now < read.verificationExpiresAt.value && now < read.expiresAt
                 && found.usedAt.None? && found.invalidatedAt.None?
      ensures r == Thrown(InvalidVerification) <==>
              && isAvailable
              && !(CanComplete(old(st), challenge, subject, verification, now)
                   && CanComplete(Run(old(st), gap), challenge, subject, verification, now))
      ensures r.Thrown? && r.error != InvalidVerification ==> r.error == UserUnavailable
      ensures r.Ok? ==>
              && CanComplete(Run(old(st), gap), challenge, subject, verification, now)
              && st == After(Run(old(st), gap), Complete(challenge, subject, verification, hash, now, true))
              && st.writes == Run(old(st), gap).writes + [PasswordWrite(challenge, subject, hash)]
    {
      hide Run, After;
      if !isAvailable {
        return Thrown(UserUnavailable);
      }
      if !CanComplete(st, challenge, subject, verification, now) {
        return Thrown(InvalidVerification);
      }
      ChallengesRemain(st, gap, challenge);
      VerificationStays(st, gap, challenge);
      OtherTransactions(gap);
      var found := st.challenges[challenge];
      if found.verifiedAt.None? || !IsUnspent(found) || found.verificationExpiresAt.None?
         || found.verificationExpiresAt.value <= now || found.verification != Some(verification) {
        return Thrown(InvalidVerification);
      }
      if !hasCredential {
        return Thrown(UserUnavailable);
      }
      CompleteWrites(st, challenge, subject, verification, hash, now);
      st := State(st.challenges[challenge := found.(usedAt := Some(now))],
                  st.writes + [PasswordWrite(challenge, subject, hash)]);
      r := Ok(());
    }
  }

  /** A challenge keeps its subject, code, attempts and deadline in every run. */
  lemma {:induction false} ChallengesRemain(st: State, steps: seq<Step>, c: nat)
    requires c < |st.challenges|
    ensures c < |Run(st, steps).challenges|
    ensures var now, later := st.challenges[c], Run(st, steps).challenges[c];
            now.subject == later.subject && now.code == later.code && now.attempts == later.attempts
            && now.expiresAt == later.expiresAt
            && (!IsUnspent(now) ==> !IsUnspent(later)) && (now.verifiedAt.Some? ==> later.verifiedAt.Some?)
    decreases |steps|
  {
    if steps != [] {
      ChallengesRemain(After(st, steps[0]), steps[1..], c);
    }
  }

  lemma VerifyWrites(st: State, challenge: nat, subject: Subject, code: nat, verification: nat, now: int)
    requires CanVerify(st, challenge, subject, code, now)
    ensures After(st, Verify(challenge, subject, code, verification, now)) ==
            st.(challenges := st.challenges[challenge :=
              st.challenges[challenge].(verifiedAt := Some(now),
                                        verificationExpiresAt := Some(now + VERIFICATION_TTL_MS),
                                        verification := Some(verification))])
  {
  }

  lemma CompleteWrites(st: State, challenge: nat, subject: Subject, verification: nat, hash: string, now: int)
    requires CanComplete(st, challenge, subject, verification, now)
    ensures After(st, Complete(challenge, subject, verification, hash, now, true)) ==
            State(st.challenges[challenge := st.challenges[challenge].(usedAt := Some(now))],
                  st.writes + [PasswordWrite(challenge, subject, hash)])
  {
  }
}
