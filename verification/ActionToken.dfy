/**
 Single-use action tokens: creation invalidates the earlier ones, consumption uses one up, and a password reset
 writes the password in the transaction that uses its token.
 */
module ActionToken {
  import opened Wrappers
  import opened AuthContexts

  datatype Kind = VerifyEmail | ResetPassword | AccountReactivation

  /** A token row; the secret of a token is identified with its row number. */
  datatype Token = Token(
    userId: string, kind: Kind, context: Option<AuthContext>, expiresAt: int,
    usedAt: Option<int>, invalidatedAt: Option<int>)

  datatype PasswordWrite = PasswordWrite(token: nat, userId: string, context: Option<AuthContext>, hash: string)

  /** The token rows in the order of creation, and the log of committed password writes. */
  datatype State = State(tokens: seq<Token>, writes: seq<PasswordWrite>)

  /**
   One committed transaction. `seen` counts the tokens that existed when the transaction swept the earlier ones:
   tokens that others commit between its sweep and its own commit are not swept.
   */
  datatype Step =
    | Create(userId: string, kind: Kind, context: Option<AuthContext>, expiresAt: int, now: int, seen: nat)
    | Invalidate(userId: string, kind: Kind, context: Option<AuthContext>, now: int)
    | Consume(kind: Kind, token: nat, now: int)
    | Reset(token: nat, hash: string, now: int, hasCredential: bool, seen: nat)

  predicate IsUnspent(t: Token) {
    t.usedAt.None? && t.invalidatedAt.None?
  }

  /** The condition of a sweep: without a context it covers every context. */
  predicate IsSwept(t: Token, userId: string, kind: Kind, context: Option<AuthContext>) {
    t.userId == userId && t.kind == kind && (context.Some? ==> t.context == context) && IsUnspent(t)
  }

  function Swept(tokens: seq<Token>, userId: string, kind: Kind, context: Option<AuthContext>, now: int, seen: nat)
    : (r: seq<Token>)
    ensures |r| == |tokens|
    ensures forall i :: 0 <= i < |r| ==>
              r[i] == if i < seen && IsSwept(tokens[i], userId, kind, context)
                      then tokens[i].(invalidatedAt := Some(now)) else tokens[i]
  {
    seq(|tokens|, i requires 0 <= i < |tokens| =>
      if i < seen && IsSwept(tokens[i], userId, kind, context)
      then tokens[i].(invalidatedAt := Some(now)) else tokens[i])
  }

  predicate CanConsume(st: State, kind: Kind, token: nat, now: int) {
    token < |st.tokens| && st.tokens[token].kind == kind && IsUnspent(st.tokens[token])
    && st.tokens[token].expiresAt > now
  }

  /** Uses the token up, or invalidates it when it has expired. */
  function Consumed(st: State, kind: Kind, token: nat, now: int): State {
    if CanConsume(st, kind, token, now)
    then st.(tokens := st.tokens[token := st.tokens[token].(usedAt := Some(now))])
    else if token < |st.tokens| && st.tokens[token].kind == kind && IsUnspent(st.tokens[token])
    then st.(tokens := st.tokens[token := st.tokens[token].(invalidatedAt := Some(now))])
    else st
  }

  function After(st: State, s: Step): State {
    match s
    case Create(userId, kind, context, expiresAt, now, seen) =>
      st.(tokens := Swept(st.tokens, userId, kind, context, now, seen)
                    + [Token(userId, kind, context, expiresAt, None, None)])
    case Invalidate(userId, kind, context, now) =>
      st.(tokens := Swept(st.tokens, userId, kind, context, now, |st.tokens|))
    case Consume(kind, token, now) => Consumed(st, kind, token, now)
    case Reset(token, hash, now, hasCredential, seen) =>
      if !CanConsume(st, ResetPassword, token, now) then Consumed(st, ResetPassword, token, now)
      else
        var t := st.tokens[token];
        if t.context.Some? && !hasCredential then st
        else
          var used := Consumed(st, ResetPassword, token, now);
          State(Swept(used.tokens, t.userId, ResetPassword, t.context, now, seen),
                st.writes + [PasswordWrite(token, t.userId, t.context, hash)])
  }

  function Run(st: State, steps: seq<Step>): State
    decreases |steps|
  {
    if steps == [] then st else Run(After(st, steps[0]), steps[1..])
  }

  /** Password-reset tokens are consumed by password resets only. */
  predicate IsCall(s: Step) {
    s.Consume? ==> s.kind != ResetPassword
  }

  // ---------------------------------------------------------------- used and invalidated

  predicate IsWritten(writes: seq<PasswordWrite>, token: nat) {
    exists i :: 0 <= i < |writes| && writes[i].token == token
  }

  /** Used and invalidated exclude each other, and the password writes are the used reset tokens, each once. */
  predicate IsSound(st: State) {
    && (forall t :: 0 <= t < |st.tokens| ==> st.tokens[t].usedAt.None? || st.tokens[t].invalidatedAt.None?)
    && (forall t :: 0 <= t < |st.tokens| ==>
        (IsWritten(st.writes, t) <==> st.tokens[t].kind == ResetPassword && st.tokens[t].usedAt.Some?))
    && (forall i, j :: 0 <= i < j < |st.writes| ==> st.writes[i].token != st.writes[j].token)
    && (forall i :: 0 <= i < |st.writes| ==>
        && st.writes[i].token < |st.tokens|
        && st.writes[i].userId == st.tokens[st.writes[i].token].userId
        && st.writes[i].context == st.tokens[st.writes[i].token].context)
  }

  lemma StepKeepsSound(st: State, s: Step)
    requires IsSound(st) && IsCall(s)
    ensures IsSound(After(st, s))
  {
    var next := After(st, s);
    if next.writes != st.writes {
      WriteIsLogged(st, s);
    } else {
      UsedResetsStay(st, s);
    }
  }

  /** A step without a password write uses up no reset token. */
  lemma UsedResetsStay(st: State, s: Step)
    requires IsCall(s) && After(st, s).writes == st.writes
    ensures |st.tokens| <= |After(st, s).tokens|
    ensures forall t :: 0 <= t < |st.tokens| ==>
              && After(st, s).tokens[t] == st.tokens[t].(usedAt := After(st, s).tokens[t].usedAt,
                                                         invalidatedAt := After(st, s).tokens[t].invalidatedAt)
              && (st.tokens[t].kind == ResetPassword ==> After(st, s).tokens[t].usedAt == st.tokens[t].usedAt)
  {
    assert forall w: PasswordWrite :: st.writes + [w] != st.writes by {
      forall w: PasswordWrite ensures st.writes + [w] != st.writes {
        assert |st.writes + [w]| != |st.writes|;
      }
    }
  }

  /** What a step with a password write does: it uses up one token and leaves the other used ones alone. */
  lemma WriteUsesToken(st: State, s: Step)
    requires After(st, s).writes != st.writes
    ensures s.Reset? && CanConsume(st, ResetPassword, s.token, s.now)
    ensures var next := After(st, s);
            && |next.tokens| == |st.tokens|
            && next.tokens[s.token] == st.tokens[s.token].(usedAt := Some(s.now))
            && next.writes == st.writes
                              + [PasswordWrite(s.token, st.tokens[s.token].userId, st.tokens[s.token].context, s.hash)]
            && forall t :: 0 <= t < |st.tokens| && t != s.token ==>
                 next.tokens[t] == st.tokens[t]
                 || (next.tokens[t] == st.tokens[t].(invalidatedAt := Some(s.now)) && IsUnspent(st.tokens[t]))
  {
  }

  /** A step with a password write uses up a token that was not used before, and keeps the log exact. */
  lemma WriteIsLogged(st: State, s: Step)
    requires IsSound(st) && After(st, s).writes != st.writes
    ensures s.Reset? && !IsWritten(st.writes, s.token)
    ensures IsSound(After(st, s))
  {
    hide After, Consumed, Swept;
    WriteUsesToken(st, s);
    var next := After(st, s);
    assert forall i :: 0 <= i < |st.writes| ==> next.writes[i] == st.writes[i];
    forall t | 0 <= t < |next.tokens|
      ensures IsWritten(next.writes, t) <==> next.tokens[t].kind == ResetPassword && next.tokens[t].usedAt.Some?
    {
      if t == s.token {
        assert next.writes[|st.writes|].token == t;
      } else if IsWritten(st.writes, t) {
        var i :| 0 <= i < |st.writes| && st.writes[i].token == t;
        assert next.writes[i].token == t;
      }
    }
  }

  /** In every run used and invalidated stay apart, and each used reset token has exactly one password write. */
  lemma {:induction false} RunKeepsSound(st: State, steps: seq<Step>)
    requires IsSound(st) && forall i :: 0 <= i < |steps| ==> IsCall(steps[i])
    ensures IsSound(Run(st, steps))
    decreases |steps|
  {
    hide IsSound, After;
    if steps != [] {
      StepKeepsSound(st, steps[0]);
      RunKeepsSound(After(st, steps[0]), steps[1..]);
    }
  }

  /** Used and invalidated are terminal: neither time stamp of a spent token ever changes. */
  lemma {:induction false} SpentStaysSpent(st: State, steps: seq<Step>, t: nat)
    requires t < |st.tokens| && !IsUnspent(st.tokens[t])
    ensures t < |Run(st, steps).tokens| && Run(st, steps).tokens[t] == st.tokens[t]
    decreases |steps|
  {
    if steps != [] {
      SpentStaysSpent(After(st, steps[0]), steps[1..], t);
    }
  }

  /** A reset succeeds at most once per token, and never after the token was used or invalidated otherwise. */
  lemma ResetsOnce(st: State, reset: Step, steps: seq<Step>, again: Step)
    requires reset.Reset? && again.Reset? && again.token == reset.token
    requires After(st, reset).writes != st.writes
    ensures var later := Run(After(st, reset), steps);
            After(later, again) == later
  {
    WriteUsesToken(st, reset);
    SpentStaysSpent(After(st, reset), steps, reset.token);
  }

  // ---------------------------------------------------------------- one unspent token

  predicate HaveSameKey(a: Token, b: Token) {
    a.userId == b.userId && a.kind == b.kind && a.context == b.context
  }

  /** At most one unspent token exists per user, kind and context. */
  predicate HasSingleTokens(st: State) {
    forall i, j :: 0 <= i < j < |st.tokens| && HaveSameKey(st.tokens[i], st.tokens[j]) ==>
      !IsUnspent(st.tokens[i]) || !IsUnspent(st.tokens[j])
  }

  /** No unspent token of the same key was committed between the sweep of the creation and its own commit. */
  predicate MissesNone(st: State, s: Step) {
    s.Create? ==>
      forall i :: s.seen <= i < |st.tokens| && IsUnspent(st.tokens[i]) ==>
        !(st.tokens[i].userId == s.userId && st.tokens[i].kind == s.kind && st.tokens[i].context == s.context)
  }

  /**
   A creation keeps tokens single exactly when its sweep missed none of its key; every other step keeps them single.
   */
  lemma SingleExactlyWhenNoneMissed(st: State, s: Step)
    requires HasSingleTokens(st)
    ensures HasSingleTokens(After(st, s)) <==> MissesNone(st, s)
  {
    var next := After(st, s);
    if s.Create? && !MissesNone(st, s) {
      var i :| s.seen <= i < |st.tokens| && IsUnspent(st.tokens[i])
               && st.tokens[i].userId == s.userId && st.tokens[i].kind == s.kind && st.tokens[i].context == s.context;
      assert HaveSameKey(next.tokens[i], next.tokens[|st.tokens|]) && IsUnspent(next.tokens[i]);
    }
  }

  /** Transactions one after the other: each sweep sees every token. */
  ghost predicate IsSerial(st: State, steps: seq<Step>)
    decreases |steps|
  {
    steps != [] ==>
      && (steps[0].Create? ==> steps[0].seen >= |st.tokens|)
      && IsSerial(After(st, steps[0]), steps[1..])
  }

  /** In every serial run at most one unspent token exists per user, kind and context. */
  lemma {:induction false} SerialRunsKeepSingle(st: State, steps: seq<Step>)
    requires HasSingleTokens(st) && IsSerial(st, steps)
    ensures HasSingleTokens(Run(st, steps))
    decreases |steps|
  {
    hide HasSingleTokens, After;
    if steps != [] {
      SingleExactlyWhenNoneMissed(st, steps[0]);
      SerialRunsKeepSingle(After(st, steps[0]), steps[1..]);
    }
  }

  /** Two creations that both sweep before either commits leave two unspent tokens of one key. */
  lemma OverlappingCreations(userId: string, kind: Kind, context: Option<AuthContext>, expiresAt: int, now: int)
    ensures var create := Create(userId, kind, context, expiresAt, now, 0);
            HasSingleTokens(State([], [])) && !HasSingleTokens(Run(State([], []), [create, create]))
  {
    var create := Create(userId, kind, context, expiresAt, now, 0);
    var first := After(State([], []), create);
    var second := After(first, create);
    assert [create, create][1..] == [create];
    assert Run(first, [create]) == second by { assert [create][1..] == []; }
    assert IsUnspent(second.tokens[0]) && IsUnspent(second.tokens[1])
           && HaveSameKey(second.tokens[0], second.tokens[1]);
  }

  // ---------------------------------------------------------------- what a step touches

  /** A token that a sweep for a user, a kind and possibly a context is meant for. */
  predicate IsFor(t: Token, userId: string, kind: Kind, context: Option<AuthContext>) {
    t.userId == userId && t.kind == kind && (context.None? || t.context == context)
  }

  /** A creation invalidates exactly the unspent tokens of its user, kind and context that its sweep saw. */
  lemma CreationSweepsExactly(st: State, s: Step, t: nat)
    requires s.Create? && t < |st.tokens|
    ensures var next := After(st, s);
            && next.writes == st.writes && |next.tokens| == |st.tokens| + 1
            && next.tokens[|st.tokens|] == Token(s.userId, s.kind, s.context, s.expiresAt, None, None)
            && next.tokens[t] ==
               if t < s.seen && st.tokens[t].usedAt.None? && st.tokens[t].invalidatedAt.None?
                  && IsFor(st.tokens[t], s.userId, s.kind, s.context)
               then st.tokens[t].(invalidatedAt := Some(s.now)) else st.tokens[t]
  {
  }

  /** A reset that writes touches exactly its own token and the other reset tokens of its user and context. */
  lemma ResetTouchesExactly(st: State, s: Step, t: nat)
    requires After(st, s).writes != st.writes && t < |st.tokens| && s.token < |st.tokens|
    ensures s.Reset? && |After(st, s).tokens| == |st.tokens|
    ensures var own, next := st.tokens[s.token], After(st, s).tokens[t];
            next ==
            if t == s.token then st.tokens[t].(usedAt := Some(s.now))
            else if t < s.seen && st.tokens[t].usedAt.None? && st.tokens[t].invalidatedAt.None?
                    && IsFor(st.tokens[t], own.userId, ResetPassword, own.context)
            then st.tokens[t].(invalidatedAt := Some(s.now)) else st.tokens[t]
  {
  }

  /** A step that neither sweeps nor consumes a token. */
  predicate LeavesAlone(s: Step, t: nat, token: Token) {
    match s
    case Create(userId, kind, context, _, _, seen) => seen <= t || !IsFor(token, userId, kind, context)
    case Invalidate(userId, kind, context, _) => !IsFor(token, userId, kind, context)
    case Consume(_, other, _) => other != t
    case Reset(_, _, _, _, _) => token.kind != ResetPassword
  }

  lemma {:induction false} StaysAlone(st: State, steps: seq<Step>, t: nat)
    requires t < |st.tokens| && forall i :: 0 <= i < |steps| ==> LeavesAlone(steps[i], t, st.tokens[t])
    ensures t < |Run(st, steps).tokens| && Run(st, steps).tokens[t] == st.tokens[t]
    decreases |steps|
  {
    if steps != [] {
      StaysAlone(After(st, steps[0]), steps[1..], t);
    }
  }

  /** A token that was created, and that nobody sweeps or consumes, is good for its kind exactly until it expires. */
  lemma CreatedIsGoodUntilDeadline(st: State, create: Step, steps: seq<Step>, kind: Kind, now: int)
    requires create.Create?
    requires var token := Token(create.userId, create.kind, create.context, create.expiresAt, None, None);
             forall i :: 0 <= i < |steps| ==> LeavesAlone(steps[i], |st.tokens|, token)
    ensures CanConsume(Run(After(st, create), steps), kind, |st.tokens|, now) <==>
            kind == create.kind && now < create.expiresAt
  {
    hide Run;
    StaysAlone(After(st, create), steps, |st.tokens|);
  }

  // ---------------------------------------------------------------- the service

  class AuthActionTokens {
    var st: State

    method OtherTransactions(gap: seq<Step>)
      modifies this
      ensures st == Run(old(st), gap)
    {
      st := Run(st, gap);
    }

    /** `createAuthActionToken`; `gap` commits between its sweep and its own commit. */
    method CreateAuthActionToken(
      userId: string, kind: Kind, context: Option<AuthContext>, expiresAt: int, now: int, gap: seq<Step>)
      returns (token: nat)
      modifies this
      ensures st == After(Run(old(st), gap), Create(userId, kind, context, expiresAt, now, |old(st).tokens|))
      ensures token < |st.tokens| && st.tokens[token] == Token(userId, kind, context, expiresAt, None, None)
    {
      var seen := |st.tokens|;
      OtherTransactions(gap);
      token := |st.tokens|;
      st := st.(tokens := Swept(st.tokens, userId, kind, context, now, seen));
      st := st.(tokens := st.tokens + [Token(userId, kind, context, expiresAt, None, None)]);
    }

    /** `consumeAuthActionToken` in a transaction of its own. */
    method ConsumeAuthActionToken(kind: Kind, token: nat, now: int) returns (consumed: bool)
      modifies this
      ensures st == After(old(st), Consume(kind, token, now))
      ensures consumed <==> CanConsume(old(st), kind, token, now)
      ensures consumed <==>
              && token < |old(st).tokens| && old(st).tokens[token].kind == kind && now < old(st).tokens[token].expiresAt
              && old(st).tokens[token].usedAt.None? && old(st).tokens[token].invalidatedAt.None?
      ensures !CanConsume(st, kind, token, now)
      ensures st.writes == old(st).writes && |st.tokens| == |old(st).tokens|
      ensures forall t :: 0 <= t < |st.tokens| ==>
                st.tokens[t] ==
                var was := old(st).tokens[t];
                if t != token || was.kind != kind || was.usedAt.Some? || was.invalidatedAt.Some? then was
                else if consumed then was.(usedAt := Some(now)) else was.(invalidatedAt := Some(now))
    {
      if CanConsume(st, kind, token, now) {
        st := st.(tokens := st.tokens[token := st.tokens[token].(usedAt := Some(now))]);
        return true;
      }
      if token < |st.tokens| && st.tokens[token].kind == kind && IsUnspent(st.tokens[token]) {
        st := st.(tokens := st.tokens[token := st.tokens[token].(invalidatedAt := Some(now))]);
      }
      consumed := false;
    }

    /** `invalidateAuthActionTokens`. */
    method InvalidateAuthActionTokens(userId: string, kind: Kind, context: Option<AuthContext>, now: int)
      modifies this
      ensures st == After(old(st), Invalidate(userId, kind, context, now))
      ensures |st.tokens| == |old(st).tokens| && st.writes == old(st).writes
      ensures forall t :: 0 <= t < |st.tokens| ==>
                st.tokens[t] ==
                var was := old(st).tokens[t];
                if IsFor(was, userId, kind, context) && was.usedAt.None? && was.invalidatedAt.None?
                then was.(invalidatedAt := Some(now)) else was
    {
      st := st.(tokens := Swept(st.tokens, userId, kind, context, now, |st.tokens|));
    }

    /**
     `resetPasswordByToken`: consumption, password write and sweep in one transaction; a missing credential throws.
     `gap` commits between the sweep and the commit; the row lock of the consumption keeps it from the token.
     */
    method ResetPasswordByToken(token: nat, hash: string, now: int, hasCredential: bool, gap: seq<Step>)
      returns (r: Result<bool, ()>)
      requires CanConsume(st, ResetPassword, token, now) ==> CanConsume(Run(st, gap), ResetPassword, token, now)
      modifies this
      ensures r == Ok(false) <==> !CanConsume(old(st), ResetPassword, token, now)
      ensures r != Ok(false) <==>
              && token < |old(st).tokens| && old(st).tokens[token].kind == ResetPassword
              && old(st).tokens[token].usedAt.None? && old(st).tokens[token].invalidatedAt.None?
              && now < old(st).tokens[token].expiresAt
      ensures r.Thrown? ==> !hasCredential
      ensures r == Ok(true) ==> hasCredential || Run(old(st), gap).tokens[token].context.None?
      ensures r == Ok(false) ==> st == After(old(st), Reset(token, hash, now, hasCredential, 0))
      ensures r != Ok(false) ==>
              var atCommit := Run(old(st), gap);
              && st == After(atCommit, Reset(token, hash, now, hasCredential, |old(st).tokens|))
              && (r == Ok(true) <==> |st.writes| == |atCommit.writes| + 1)
              && (r == Ok(true) ==>
                  st.writes[|atCommit.writes|].token == token && st.writes[|atCommit.writes|].hash == hash)
              && (r.Thrown? ==>
                  st == atCommit && token < |st.tokens| && st.tokens[token].context.Some? && !hasCredential)
    {
      hide Run;
      if !CanConsume(st, ResetPassword, token, now) {
        var _ := ConsumeAuthActionToken(ResetPassword, token, now);
        return Ok(false);
      }
      var seen := |st.tokens|;
      OtherTransactions(gap);
      var t := st.tokens[token];
      if t.context.Some? && !hasCredential {
        return Thrown(());
      }
      var _ := ConsumeAuthActionToken(ResetPassword, token, now);
      st := st.(writes := st.writes + [PasswordWrite(token, t.userId, t.context, hash)]);
      st := st.(tokens := Swept(st.tokens, t.userId, ResetPassword, t.context, now, seen));
      r := Ok(true);
    }
  }
}
