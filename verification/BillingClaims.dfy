/**
 The trial and checkout claims of one platform-billing account row. Any number of workers act on the row;
 each SQL statement is one step, and a run is a sequence of steps of all workers in commit order.
 */
module BillingClaims {
  import opened Wrappers

  type Key = string

  /** A CLAIMED claim older than this may be taken over. */
  const STALE_AFTER := 5 * 60_000

  /** How long a request that has started may be retried under the same key. */
  const REQUEST_WINDOW := 20 * 60 * 60_000

  datatype Status =
    | NotStarted | CheckoutPending | Active | Trialing | PastDue | Canceled
    | Incomplete | IncompleteExpired | Unpaid | Paused | Unknown

  datatype AccessStatus = Pending | AccessActive | GracePeriod | Restricted | AccessCanceled

  datatype ChangeType = Upgrade | Downgrade | CancelAtPeriodEnd | UndoCancel | Reactivate | PaymentRecovery

  datatype Phase = Claimed | Requesting

  /** The four nullable columns of a claim. */
  datatype Claim = Claim(key: Option<Key>, phase: Option<Phase>, claimedAt: Option<int>, requestExpiresAt: Option<int>)

  const NO_CLAIM := Claim(None, None, None, None)

  datatype Account = Account(
    status: Status, access: AccessStatus,
    customerId: Option<string>, subscriptionId: Option<string>,
    trialEndsAt: Option<int>, firstPaidAt: Option<int>, lastPaymentAt: Option<int>,
    pendingPlan: Option<string>, pendingChange: Option<ChangeType>, pendingEffectiveAt: Option<int>,
    trial: Claim, checkout: Claim)

  datatype BillingError =
    | NotFound | ReconciliationFailed | IdempotencyConflict
    | SubscriptionAlreadyExists | CheckoutReconciliationRequired | CheckoutInProgress

  /** The columns of an applied subscription update that the claims look at; None leaves an optional column alone. */
  datatype SubscriptionUpdate = SubscriptionUpdate(
    status: Status, access: AccessStatus, subscriptionId: string, trialEndsAt: Option<int>,
    firstPaidAt: Option<Option<int>>, lastPaymentAt: Option<Option<int>>, pendingChange: Option<Option<ChangeType>>)

  /** One statement of one worker. */
  datatype Step =
    | CreateAccount(customer: string)
    | AttachCustomer(customer: string)
    | InsertForTrial(key: Key, now: int)
    | ClaimTrial(key: Key, now: int)
    | StartTrial(key: Key, now: int)
    | ReleaseTrial(key: Key)
    | ClaimCheckout(key: Key, plan: string, change: Option<ChangeType>, now: int)
    | StartCheckout(key: Key, now: int)
    | BindCheckout(key: Key, customer: string, subscription: string)
    | ClearCheckoutStatus(key: Key)
    | ClearCheckoutClaim(key: Key)
    | ApplySubscription(update: SubscriptionUpdate)

  function NewAccount(customer: Option<string>, trial: Claim): Account {
    Account(NotStarted, Pending, customer, None, None, None, None, None, None, None, trial, NO_CLAIM)
  }

  predicate IsStale(c: Claim, now: int) {
    c.phase == Some(Claimed) && c.claimedAt.Some? && c.claimedAt.value < now - STALE_AFTER
  }

  predicate HoldsInPhase(c: Claim, key: Key, phase: Phase) {
    c.key == Some(key) && c.phase == Some(phase)
  }

  /** Whether a repeated request under the same key is still inside its window. */
  predicate CanRetry(c: Claim, key: Key, now: int) {
    HoldsInPhase(c, key, Requesting) && c.requestExpiresAt.Some? && c.requestExpiresAt.value > now
  }

  predicate TrialClaimable(a: Account, now: int) {
    && a.subscriptionId.None? && a.trialEndsAt.None? && a.checkout.key.None?
    && (a.trial.key.None? || IsStale(a.trial, now))
  }

  predicate TrialOver(a: Account, now: int) {
    a.trialEndsAt.Some? && a.trialEndsAt.value <= now && a.firstPaidAt.None? && a.lastPaymentAt.None?
  }

  predicate BlocksCheckout(status: Status, change: Option<ChangeType>) {
    || status == Active || status == PastDue || status == Unpaid
    || (change != Some(Reactivate) && (status == Trialing || status == Paused))
  }

  predicate CheckoutClaimable(a: Account, change: Option<ChangeType>, now: int) {
    && a.trial.key.None?
    && (|| a.subscriptionId.None? || a.status == Canceled || a.status == IncompleteExpired
        || (change == Some(Reactivate) && (a.status == Paused || a.status == Trialing) && TrialOver(a, now)))
    && (a.checkout.key.None? || IsStale(a.checkout, now))
    && !BlocksCheckout(a.status, change)
  }

  /** Whether the statement changes the row: the count that `updateMany` reports. */
  predicate Matches(row: Option<Account>, s: Step) {
    match s
    case CreateAccount(_) => true
    case InsertForTrial(_, _) => row.None?
    case _ =>
      row.Some? &&
      var a := row.value;
      match s
      case AttachCustomer(_) => true
      case ClaimTrial(_, now) => TrialClaimable(a, now)
      case StartTrial(key, _) => HoldsInPhase(a.trial, key, Claimed)
      case ReleaseTrial(key) => a.trial.key == Some(key)
      case ClaimCheckout(_, _, change, now) => CheckoutClaimable(a, change, now)
      case StartCheckout(key, _) => HoldsInPhase(a.checkout, key, Claimed)
      case BindCheckout(key, customer, _) => a.checkout.key == Some(key) && a.customerId == Some(customer)
      case ClearCheckoutStatus(key) => a.checkout.key == Some(key) && a.status == CheckoutPending
      case ClearCheckoutClaim(key) => a.checkout.key == Some(key)
      case ApplySubscription(_) => true
      case _ => false
  }

  function Start(c: Claim, now: int): Claim {
    c.(phase := Some(Requesting), requestExpiresAt := Some(now + REQUEST_WINDOW))
  }

  function ApplyUpdate(a: Account, u: SubscriptionUpdate): Account {
    a.(status := u.status, access := u.access, subscriptionId := Some(u.subscriptionId), trialEndsAt := u.trialEndsAt,
       firstPaidAt := if u.firstPaidAt.Some? then u.firstPaidAt.value else a.firstPaidAt,
       lastPaymentAt := if u.lastPaymentAt.Some? then u.lastPaymentAt.value else a.lastPaymentAt,
       pendingChange := if u.pendingChange.Some? then u.pendingChange.value else a.pendingChange,
       trial := if u.subscriptionId != "" then NO_CLAIM else a.trial)
  }

  /** The row after a statement. */
  function After(row: Option<Account>, s: Step): Option<Account> {
    if !Matches(row, s) then row
    else match s
      case CreateAccount(customer) =>
        if row.None? then Some(NewAccount(Some(customer), NO_CLAIM))
        else Some(row.value.(customerId := Some(customer)))
      case InsertForTrial(key, now) => Some(NewAccount(None, Claim(Some(key), Some(Claimed), Some(now), None)))
      case _ => Some(Changed(row.value, s))
  }

  function Changed(a: Account, s: Step): Account {
    match s
    case AttachCustomer(customer) => a.(customerId := Some(customer))
    case ClaimTrial(key, now) => a.(trial := Claim(Some(key), Some(Claimed), Some(now), None))
    case StartTrial(_, now) => a.(trial := Start(a.trial, now))
    case ReleaseTrial(_) => a.(trial := NO_CLAIM)
    case ClaimCheckout(key, plan, change, now) =>
      a.(status := if change == Some(Reactivate) then Canceled else CheckoutPending,
         pendingPlan := Some(plan), pendingChange := change, pendingEffectiveAt := None,
         checkout := Claim(Some(key), Some(Claimed), Some(now), None))
    case StartCheckout(_, now) => a.(checkout := Start(a.checkout, now))
    case BindCheckout(_, _, subscription) => a.(subscriptionId := Some(subscription), checkout := NO_CLAIM)
    case ClearCheckoutStatus(_) => a.(status := NotStarted, access := Pending)
    case ClearCheckoutClaim(_) =>
      a.(checkout := NO_CLAIM, pendingPlan := None, pendingChange := None, pendingEffectiveAt := None)
    case ApplySubscription(update) => ApplyUpdate(a, update)
    case _ => a
  }

  function Run(row: Option<Account>, steps: seq<Step>): Option<Account>
    decreases |steps|
  {
    if steps == [] then row else Run(After(row, steps[0]), steps[1..])
  }

  lemma {:induction false} RunAppend(row: Option<Account>, xs: seq<Step>, ys: seq<Step>)
    ensures Run(row, xs + ys) == Run(Run(row, xs), ys)
    decreases |xs|
  {
    hide After;
    if xs == [] {
      assert xs + ys == ys;
    } else {
      RunAppend(After(row, xs[0]), xs[1..], ys);
      assert (xs + ys)[1..] == xs[1..] + ys;
    }
  }

  lemma {:induction false} RunKeepsRow(row: Option<Account>, steps: seq<Step>)
    requires row.Some?
    ensures Run(row, steps).Some?
    decreases |steps|
  {
    if steps != [] {
      RunKeepsRow(After(row, steps[0]), steps[1..]);
    }
  }

  // ---------------------------------------------------------------- what every step keeps

  /** The row check of the database: a claim is absent, CLAIMED without a deadline, or REQUESTING with one. */
  predicate IsClaimTuple(c: Claim) {
    || c == NO_CLAIM
    || (c.key.Some? && c.phase == Some(Claimed) && c.claimedAt.Some? && c.requestExpiresAt.None?)
    || (c.key.Some? && c.phase == Some(Requesting) && c.claimedAt.Some? && c.requestExpiresAt.Some?)
  }

  predicate IsSound(row: Option<Account>) {
    row.Some? ==>
      && IsClaimTuple(row.value.trial) && IsClaimTuple(row.value.checkout)
      && (row.value.trial.key.None? || row.value.checkout.key.None?)
  }

  lemma StepKeepsSound(row: Option<Account>, s: Step)
    requires IsSound(row)
    ensures IsSound(After(row, s))
  {
  }

  /** In every run the two claims are never both held and the claim columns always agree with each other. */
  lemma {:induction false} RunKeepsSound(row: Option<Account>, steps: seq<Step>)
    requires IsSound(row)
    ensures IsSound(Run(row, steps))
    decreases |steps|
  {
    hide IsSound, After;
    if steps != [] {
      StepKeepsSound(row, steps[0]);
      RunKeepsSound(After(row, steps[0]), steps[1..]);
    }
  }

  datatype Kind = TrialClaim | CheckoutClaim

  /** A request to the provider: which claim it belongs to and under which key. */
  datatype Request = Request(kind: Kind, key: Key)

  function ClaimOf(a: Account, kind: Kind): Claim {
    match kind case TrialClaim => a.trial case CheckoutClaim => a.checkout
  }

  predicate IsRequesting(row: Option<Account>, r: Request) {
    row.Some? && HoldsInPhase(ClaimOf(row.value, r.kind), r.key, Requesting)
  }

  /** At most one request is in flight for an account, over both claims and all keys. */
  lemma OneRequestAtMost(row: Option<Account>, steps: seq<Step>, p: Request, q: Request)
    requires IsSound(row)
    requires IsRequesting(Run(row, steps), p) && IsRequesting(Run(row, steps), q)
    ensures p == q
  {
    RunKeepsSound(row, steps);
  }

  /** The statements that may end a request in flight: its own release, clear or bind, or an applied subscription. */
  predicate Ends(s: Step, r: Request) {
    match r.kind
    case TrialClaim => s == ReleaseTrial(r.key) || (s.ApplySubscription? && s.update.subscriptionId != "")
    case CheckoutClaim => s == ClearCheckoutClaim(r.key) || (s.BindCheckout? && s.key == r.key)
  }

  lemma StepKeepsRequest(row: Option<Account>, s: Step, r: Request)
    requires IsSound(row) && IsRequesting(row, r) && !Ends(s, r)
    ensures IsRequesting(After(row, s), r)
    ensures ClaimOf(After(row, s).value, r.kind) == ClaimOf(row.value, r.kind)
  {
  }

  /** However long it waits, a request in flight keeps its claim untouched until a statement that may end it. */
  lemma {:induction false} RequestPersists(row: Option<Account>, steps: seq<Step>, r: Request)
    requires IsSound(row) && IsRequesting(row, r)
    requires forall i :: 0 <= i < |steps| ==> !Ends(steps[i], r)
    ensures IsRequesting(Run(row, steps), r)
    ensures ClaimOf(Run(row, steps).value, r.kind) == ClaimOf(row.value, r.kind)
    decreases |steps|
  {
    hide IsSound, After, Ends;
    if steps != [] {
      StepKeepsRequest(row, steps[0], r);
      StepKeepsSound(row, steps[0]);
      RequestPersists(After(row, steps[0]), steps[1..], r);
    }
  }

  /** The row before step `i` of a run. */
  function RowBefore(row: Option<Account>, steps: seq<Step>, i: nat): Option<Account>
    requires i <= |steps|
  {
    Run(row, steps[..i])
  }

  function RequestOf(s: Step): Request
    requires s.StartTrial? || s.StartCheckout?
  {
    if s.StartTrial? then Request(TrialClaim, s.key) else Request(CheckoutClaim, s.key)
  }

  /** Step `i` moves a claim to REQUESTING, which allows its worker to call the provider. */
  predicate Grants(row: Option<Account>, steps: seq<Step>, i: nat) {
    && i < |steps|
    && (steps[i].StartTrial? || steps[i].StartCheckout?)
    && Matches(RowBefore(row, steps, i), steps[i])
  }

  /** Between any two grants of a run lies a statement that may end the first request. */
  lemma GrantsAreSeparated(row: Option<Account>, steps: seq<Step>, i: nat, j: nat)
    requires IsSound(row) && i < j < |steps|
    requires Grants(row, steps, i) && Grants(row, steps, j)
    ensures exists m :: i < m < j && Ends(steps[m], RequestOf(steps[i]))
  {
    hide IsSound, After, Ends, Matches;
    var r := RequestOf(steps[i]);
    if forall m :: i < m < j ==> !Ends(steps[m], r) {
      var granted := RowBefore(row, steps, i + 1);
      var between := steps[i + 1..j];
      RunKeepsSound(row, steps[..i]);
      RunKeepsSound(row, steps[..i + 1]);
      StepFromTo(row, steps, i);
      GrantIsRequesting(RowBefore(row, steps, i), steps[i]);
      RequestPersists(granted, between, r);
      assert steps[..j] == steps[..i + 1] + between;
      RunAppend(row, steps[..i + 1], between);
      RunKeepsSound(row, steps[..j]);
      NoGrantWhileRequesting(RowBefore(row, steps, j), steps[j], r);
    }
  }

  lemma StepFromTo(row: Option<Account>, steps: seq<Step>, i: nat)
    requires i < |steps|
    ensures RowBefore(row, steps, i + 1) == After(RowBefore(row, steps, i), steps[i])
  {
    hide After;
    assert steps[..i + 1] == steps[..i] + [steps[i]];
    RunAppend(row, steps[..i], [steps[i]]);
  }

  lemma GrantIsRequesting(row: Option<Account>, s: Step)
    requires (s.StartTrial? || s.StartCheckout?) && Matches(row, s)
    ensures IsRequesting(After(row, s), RequestOf(s))
    ensures ClaimOf(After(row, s).value, RequestOf(s).kind).requestExpiresAt == Some(s.now + REQUEST_WINDOW)
  {
  }

  lemma NoGrantWhileRequesting(row: Option<Account>, s: Step, r: Request)
    requires IsSound(row) && IsRequesting(row, r) && (s.StartTrial? || s.StartCheckout?)
    ensures !Matches(row, s)
  {
  }

  /** Another key replaces a held claim only when that claim is CLAIMED for more than five minutes. */
  lemma TakeoverIsStale(row: Option<Account>, s: Step, kind: Kind)
    requires row.Some? && IsSound(row)
    requires var before, after := ClaimOf(row.value, kind).key, ClaimOf(After(row, s).value, kind).key;
             before.Some? && after.Some? && before != after
    ensures (s.ClaimTrial? && kind.TrialClaim?) || (s.ClaimCheckout? && kind.CheckoutClaim?)
    ensures ClaimOf(row.value, kind).phase == Some(Claimed)
    ensures s.now > ClaimOf(row.value, kind).claimedAt.value + STALE_AFTER
    ensures ClaimOf(After(row, s).value, kind) == Claim(Some(s.key), Some(Claimed), Some(s.now), None)
  {
  }

  // ---------------------------------------------------------------- losing and keeping a claim

  /** The statements that may give a key the trial claim or the checkout claim. */
  predicate Takes(s: Step, kind: Kind, key: Key) {
    match kind
    case TrialClaim => (s.InsertForTrial? || s.ClaimTrial?) && s.key == key
    case CheckoutClaim => s.ClaimCheckout? && s.key == key
  }

  predicate HoldsKey(row: Option<Account>, kind: Kind, key: Key) {
    row.Some? && ClaimOf(row.value, kind).key == Some(key)
  }

  lemma StepKeepsKeyOut(row: Option<Account>, s: Step, kind: Kind, key: Key)
    requires !HoldsKey(row, kind, key) && !Takes(s, kind, key)
    ensures !HoldsKey(After(row, s), kind, key)
  {
  }

  lemma {:induction false} KeyStaysOut(row: Option<Account>, steps: seq<Step>, kind: Kind, key: Key)
    requires !HoldsKey(row, kind, key)
    requires forall i :: 0 <= i < |steps| ==> !Takes(steps[i], kind, key)
    ensures !HoldsKey(Run(row, steps), kind, key)
    decreases |steps|
  {
    hide After, HoldsKey, Takes;
    if steps != [] {
      StepKeepsKeyOut(row, steps[0], kind, key);
      KeyStaysOut(After(row, steps[0]), steps[1..], kind, key);
    }
  }

  /**
   A worker that has lost its claim, to a takeover or otherwise, cannot start its request, release, bind or clear
   anything at any later time, whatever others do, until it claims again.
   */
  lemma OvertakenIsFenced(row: Option<Account>, steps: seq<Step>, kind: Kind, key: Key, s: Step)
    requires !HoldsKey(row, kind, key)
    requires forall i :: 0 <= i < |steps| ==> !Takes(steps[i], kind, key)
    requires match kind
             case TrialClaim => (s.StartTrial? || s.ReleaseTrial?) && s.key == key
             case CheckoutClaim =>
               && (s.StartCheckout? || s.BindCheckout? || s.ClearCheckoutStatus? || s.ClearCheckoutClaim?)
               && s.key == key
    ensures !Matches(Run(row, steps), s) && After(Run(row, steps), s) == Run(row, steps)
  {
    hide Run;
    KeyStaysOut(row, steps, kind, key);
  }

  /** A takeover takes the claim from the key that held it. */
  lemma TakeoverLosesKey(row: Option<Account>, s: Step, kind: Kind, key: Key)
    requires HoldsKey(row, kind, key) && (s.ClaimTrial? || s.ClaimCheckout?) && s.key != key && Matches(row, s)
    requires kind == if s.ClaimTrial? then TrialClaim else CheckoutClaim
    ensures !HoldsKey(After(row, s), kind, key)
  {
  }

  /** A reservation on an account without a claim, a subscription or a trial gets the claim. */
  lemma ReserveTakesFreeClaim(row: Option<Account>, key: Key, now: int)
    requires IsFree(row)
    ensures var after := After(After(row, InsertForTrial(key, now)), ClaimTrial(key, now));
            after.Some? && after.value.trial == Claim(Some(key), Some(Claimed), Some(now), None)
  {
  }

  /** No row yet, or one without a claim, a subscription or a trial. */
  predicate IsFree(row: Option<Account>) {
    row.Some? ==> row.value.subscriptionId.None? && row.value.trialEndsAt.None?
                  && row.value.trial.key.None? && row.value.checkout.key.None?
  }

  /** Statements of reservations, none of them more than five minutes after another. */
  predicate AreReservations(steps: seq<Step>) {
    && (forall i :: 0 <= i < |steps| ==> steps[i].InsertForTrial? || steps[i].ClaimTrial?)
    && (forall i, j :: 0 <= i < |steps| && 0 <= j < |steps| && steps[i].ClaimTrial? && TimeOf(steps[j]).Some? ==>
        steps[i].now <= TimeOf(steps[j]).value + STALE_AFTER)
  }

  function TimeOf(s: Step): Option<int> {
    if s.InsertForTrial? || s.ClaimTrial? then Some(s.now) else None
  }

  /**
   Of any number of workers that reserve a free account at the same time, in any interleaving, exactly one gets the
   claim: the first whose statement changes the row. No later statement of any of them does.
   */
  lemma FirstReservationWins(row: Option<Account>, steps: seq<Step>, i: nat)
    requires IsFree(row) && AreReservations(steps) && i < |steps| && Matches(row, steps[i])
    requires forall j :: 0 <= j < i ==> !Matches(row, steps[j])
    ensures Run(row, steps).Some?
    ensures Run(row, steps).value.trial == Claim(Some(steps[i].key), Some(Claimed), Some(steps[i].now), None)
    ensures forall j :: i < j < |steps| ==> !Matches(RowBefore(row, steps, j), steps[j])
  {
    hide After, Matches, Run, IsFree;
    var claimed := After(row, steps[i]);
    var rest := steps[i + 1..];
    NothingMatches(row, steps[..i]);
    StepFromTo(row, steps, i);
    FreeClaimIs(row, steps[i]);
    HeldReservation(claimed, steps[i].key, steps[i].now, rest);
    assert steps == steps[..i + 1] + rest;
    RunAppend(row, steps[..i + 1], rest);
    forall j | i < j < |steps| ensures !Matches(RowBefore(row, steps, j), steps[j]) {
      assert steps[..j] == steps[..i + 1] + rest[..j - i - 1];
      RunAppend(row, steps[..i + 1], rest[..j - i - 1]);
      HeldReservation(claimed, steps[i].key, steps[i].now, rest[..j - i - 1]);
      ReservationIsShutOut(claimed, steps[i].now, steps[j]);
    }
  }

  lemma {:induction false} NothingMatches(row: Option<Account>, steps: seq<Step>)
    requires forall j :: 0 <= j < |steps| ==> !Matches(row, steps[j])
    ensures Run(row, steps) == row
    decreases |steps|
  {
    hide Matches;
    if steps != [] {
      NothingMatches(row, steps[1..]);
    }
  }

  lemma FreeClaimIs(row: Option<Account>, s: Step)
    requires IsFree(row) && (s.InsertForTrial? || s.ClaimTrial?) && Matches(row, s)
    ensures After(row, s).Some?
    ensures After(row, s).value.trial == Claim(Some(s.key), Some(Claimed), Some(s.now), None)
  {
  }

  lemma ReservationIsShutOut(row: Option<Account>, since: int, s: Step)
    requires row.Some? && row.value.trial.key.Some? && row.value.trial.claimedAt == Some(since)
    requires s.InsertForTrial? || (s.ClaimTrial? && s.now <= since + STALE_AFTER)
    ensures !Matches(row, s)
  {
  }

  lemma {:induction false} HeldReservation(row: Option<Account>, key: Key, since: int, steps: seq<Step>)
    requires row.Some? && row.value.trial == Claim(Some(key), Some(Claimed), Some(since), None)
    requires forall j :: 0 <= j < |steps| ==>
               steps[j].InsertForTrial? || (steps[j].ClaimTrial? && steps[j].now <= since + STALE_AFTER)
    ensures Run(row, steps) == row
  {
    hide Matches, Run;
    forall j | 0 <= j < |steps| ensures !Matches(row, steps[j]) {
      ReservationIsShutOut(row, since, steps[j]);
    }
    NothingMatches(row, steps);
  }

  // ---------------------------------------------------------------- who gets a claim

  /** The account has, or has had, a subscription or a trial. */
  predicate IsUsed(row: Option<Account>) {
    row.Some? && (row.value.subscriptionId.Some? || row.value.trialEndsAt.Some?)
  }

  lemma StepKeepsUsed(row: Option<Account>, s: Step)
    requires IsUsed(row)
    ensures IsUsed(After(row, s))
    ensures After(row, s).value.trial.key.Some? ==> After(row, s).value.trial.key == row.value.trial.key
  {
  }

  /**
   One trial for each account: once it has had a subscription or a trial, it never gets a trial claim again, in any run.
   The claim it may still hold is the one from before, and without one no trial request can start.
   */
  lemma {:induction false} OneTrialPerAccount(row: Option<Account>, steps: seq<Step>, key: Key, now: int)
    requires IsUsed(row)
    ensures IsUsed(Run(row, steps))
    ensures Run(row, steps).value.trial.key.Some? ==> Run(row, steps).value.trial.key == row.value.trial.key
    ensures !Matches(Run(row, steps), ClaimTrial(key, now))
    ensures row.value.trial.key.None? ==> !Matches(Run(row, steps), StartTrial(key, now))
    decreases |steps|
  {
    if steps != [] {
      hide After, IsUsed, Matches;
      StepKeepsUsed(row, steps[0]);
      OneTrialPerAccount(After(row, steps[0]), steps[1..], key, now);
    }
  }

  /** In any run, a claim of the trial that changes the row finds no subscription, no trial and no checkout claim. */
  lemma TrialClaimFindsNothing(row: Option<Account>, steps: seq<Step>, i: nat)
    requires i < |steps| && steps[i].ClaimTrial? && Matches(RowBefore(row, steps, i), steps[i])
    ensures RowBefore(row, steps, i).Some?
    ensures var a := RowBefore(row, steps, i).value;
            a.subscriptionId.None? && a.trialEndsAt.None? && a.checkout.key.None?
  {
    hide Run;
  }

  /**
   Which accounts get a trial claim: exactly those that have no subscription, no trial and no checkout claim, and whose
   trial claim is free or CLAIMED for more than five minutes.
   */
  lemma TrialClaimedExactly(a: Account, key: Key, now: int)
    ensures Matches(Some(a), ClaimTrial(key, now)) <==>
            && a.subscriptionId.None? && a.trialEndsAt.None? && a.checkout.key.None?
            && (a.trial.key.None?
                || (a.trial.phase == Some(Claimed) && a.trial.claimedAt.Some?
                    && a.trial.claimedAt.value + 5 * 60_000 < now))
  {
  }

  /**
   Which accounts get a checkout claim, by status: never one whose subscription is in force, a trialing or paused one
   for a reactivation only, and then only after a trial that was never paid or without a subscription, an ended one
   always, and any other without a subscription; in each case if no trial claim is held and no fresh checkout claim.
   */
  lemma CheckoutByStatus(a: Account, key: Key, plan: string, change: Option<ChangeType>, now: int)
    ensures Matches(Some(a), ClaimCheckout(key, plan, change, now)) <==>
            && a.trial.key.None?
            && (a.checkout.key.None?
                || (a.checkout.phase == Some(Claimed) && a.checkout.claimedAt.Some?
                    && a.checkout.claimedAt.value + 5 * 60_000 < now))
            && match a.status
               case Active => false
               case PastDue => false
               case Unpaid => false
               case Canceled => true
               case IncompleteExpired => true
               case Trialing => change == Some(Reactivate) && (a.subscriptionId.None? || IsUnpaidTrial(a, now))
               case Paused => change == Some(Reactivate) && (a.subscriptionId.None? || IsUnpaidTrial(a, now))
               case _ => a.subscriptionId.None?
  {
  }

  predicate IsUnpaidTrial(a: Account, now: int) {
    a.trialEndsAt.Some? && a.trialEndsAt.value <= now && a.firstPaidAt.None? && a.lastPaymentAt.None?
  }

  /** What a statement may do to the columns outside the claims: each column by the only statements that write it. */
  lemma ColumnsAfter(a: Account, s: Step)
    ensures After(Some(a), s).Some?
    ensures var b := After(Some(a), s).value;
            var claims := s.ClaimCheckout? && Matches(Some(a), s);
            var holds := (s.ClearCheckoutClaim? || s.ClearCheckoutStatus?) && a.checkout.key == Some(s.key);
            var binds := s.BindCheckout? && a.checkout.key == Some(s.key) && a.customerId == Some(s.customer);
            && b.customerId == (if s.CreateAccount? || s.AttachCustomer? then Some(s.customer) else a.customerId)
            && b.subscriptionId == (if binds then Some(s.subscription)
                                    else if s.ApplySubscription? then Some(s.update.subscriptionId)
                                    else a.subscriptionId)
            && b.trialEndsAt == (if s.ApplySubscription? then s.update.trialEndsAt else a.trialEndsAt)
            && b.firstPaidAt ==
               (if s.ApplySubscription? then GetOr(s.update.firstPaidAt, a.firstPaidAt) else a.firstPaidAt)
            && b.lastPaymentAt ==
               (if s.ApplySubscription? then GetOr(s.update.lastPaymentAt, a.lastPaymentAt) else a.lastPaymentAt)
            && b.status == (if claims then if s.change == Some(Reactivate) then Canceled else CheckoutPending
                            else if s.ClearCheckoutStatus? && holds && a.status == CheckoutPending then NotStarted
                            else if s.ApplySubscription? then s.update.status else a.status)
            && b.access == (if s.ClearCheckoutStatus? && holds && a.status == CheckoutPending then Pending
                            else if s.ApplySubscription? then s.update.access else a.access)
            && b.pendingPlan == (if claims then Some(s.plan)
                                 else if s.ClearCheckoutClaim? && holds then None else a.pendingPlan)
            && b.pendingChange == (if claims then s.change else if s.ClearCheckoutClaim? && holds then None
                                   else if s.ApplySubscription? then GetOr(s.update.pendingChange, a.pendingChange)
                                   else a.pendingChange)
            && b.pendingEffectiveAt ==
               (if claims || (s.ClearCheckoutClaim? && holds) then None else a.pendingEffectiveAt)
  {
    hide CheckoutClaimable, TrialClaimable;
  }

  /** And to the two claims: taken under its own key at its own time, started for twenty hours, or ended. */
  lemma ClaimsAfter(a: Account, s: Step)
    ensures After(Some(a), s).Some?
    ensures var b := After(Some(a), s).value;
            && b.trial == (if s.ClaimTrial? && Matches(Some(a), s)
                           then Claim(Some(s.key), Some(Claimed), Some(s.now), None)
                           else if s.StartTrial? && a.trial.key == Some(s.key) && a.trial.phase == Some(Claimed)
                           then Claim(a.trial.key, Some(Requesting), a.trial.claimedAt, Some(s.now + 20 * 60 * 60_000))
                           else if s.ReleaseTrial? && a.trial.key == Some(s.key) then NO_CLAIM
                           else if s.ApplySubscription? && s.update.subscriptionId != "" then NO_CLAIM
                           else a.trial)
            && b.checkout == (if s.ClaimCheckout? && Matches(Some(a), s)
                              then Claim(Some(s.key), Some(Claimed), Some(s.now), None)
                              else if s.StartCheckout? && a.checkout.key == Some(s.key)
                                      && a.checkout.phase == Some(Claimed)
                              then Claim(a.checkout.key, Some(Requesting), a.checkout.claimedAt,
                                         Some(s.now + 20 * 60 * 60_000))
                              else if s.BindCheckout? && a.checkout.key == Some(s.key)
                                      && a.customerId == Some(s.customer)
                              then NO_CLAIM
                              else if s.ClearCheckoutClaim? && a.checkout.key == Some(s.key) then NO_CLAIM
                              else a.checkout)
  {
    hide CheckoutClaimable, TrialClaimable;
  }

  /** A missing row is made by the creation of a customer, or by a reservation, which claims it at once. */
  lemma NewRows(s: Step)
    ensures After(None, s) ==
            if s.CreateAccount?
            then Some(Account(NotStarted, Pending, Some(s.customer), None, None, None, None, None, None, None,
                              NO_CLAIM, NO_CLAIM))
            else if s.InsertForTrial?
            then Some(Account(NotStarted, Pending, None, None, None, None, None, None, None, None,
                              Claim(Some(s.key), Some(Claimed), Some(s.now), None), NO_CLAIM))
            else None
  {
  }

  // ---------------------------------------------------------------- abandoning a checkout

  /**
   A statement of others while a key holds the checkout claim: none for that key, none that changes the customer or
   applies a subscription, and no claim later than five minutes after the key's own.
   */
  predicate IsBystander(s: Step, key: Key, since: int) {
    match s
    case CreateAccount(_) => false
    case AttachCustomer(_) => false
    case ApplySubscription(_) => false
    case ClaimCheckout(_, _, _, now) => now <= since + STALE_AFTER
    case StartCheckout(k, _) => k != key
    case BindCheckout(k, _, _) => k != key
    case ClearCheckoutStatus(k) => k != key
    case ClearCheckoutClaim(k) => k != key
    case _ => true
  }

  /** The key holds the checkout claim since the given time. */
  predicate HoldsCheckout(a: Account, key: Key, since: int) {
    a.checkout.key == Some(key) && a.checkout.claimedAt == Some(since) && IsSound(Some(a))
  }

  lemma BystanderIsShutOut(a: Account, key: Key, since: int, s: Step)
    requires HoldsCheckout(a, key, since) && IsBystander(s, key, since)
    ensures !Matches(Some(a), s)
  {
  }

  lemma BystandersChangeNothing(a: Account, key: Key, since: int, gap: seq<Step>)
    requires HoldsCheckout(a, key, since)
    requires forall i :: 0 <= i < |gap| ==> IsBystander(gap[i], key, since)
    ensures Run(Some(a), gap) == Some(a)
  {
    hide Matches, Run, HoldsCheckout, IsBystander;
    forall i | 0 <= i < |gap| ensures !Matches(Some(a), gap[i]) {
      BystanderIsShutOut(a, key, since, gap[i]);
    }
    NothingMatches(Some(a), gap);
  }

  /** An abandoned checkout: its claim, then the two statements that clear it, with statements of others in between. */
  function Abandoned(
    a: Account, key: Key, plan: string, change: Option<ChangeType>, now: int, gap1: seq<Step>, gap2: seq<Step>)
    : Option<Account>
  {
    var cleared := After(Run(After(Some(a), ClaimCheckout(key, plan, change, now)), gap1), ClearCheckoutStatus(key));
    After(Run(cleared, gap2), ClearCheckoutClaim(key))
  }

  /**
   An abandoned checkout never touches the subscription or the trial, and keeps the access of a reactivation, whatever
   bystanders do meanwhile. It leaves the account as it was exactly when the account had nothing pending, no claim and
   the status that clearing writes.
   */
  lemma AbandonedCheckout(
    a: Account, key: Key, plan: string, change: Option<ChangeType>, now: int, gap1: seq<Step>, gap2: seq<Step>)
    requires IsSound(Some(a)) && CheckoutClaimable(a, change, now)
    requires forall i :: 0 <= i < |gap1| ==> IsBystander(gap1[i], key, now)
    requires forall i :: 0 <= i < |gap2| ==> IsBystander(gap2[i], key, now)
    ensures var cleared := Abandoned(a, key, plan, change, now, gap1, gap2);
            && cleared.Some?
            && After(Some(a), ClaimCheckout(key, plan, change, now)).value.access == a.access
            && cleared.value.subscriptionId == a.subscriptionId
            && cleared.value.trialEndsAt == a.trialEndsAt
            && (change == Some(Reactivate) ==> cleared.value.access == a.access)
            && (cleared == Some(a) <==>
                && a.pendingPlan.None? && a.pendingChange.None? && a.pendingEffectiveAt.None? && a.checkout == NO_CLAIM
                && if change == Some(Reactivate) then a.status == Canceled
                   else a.status == NotStarted && a.access == Pending)
  {
    hide Run, IsBystander, IsSound, CheckoutClaimable;
    var claimed := After(Some(a), ClaimCheckout(key, plan, change, now)).value;
    ClaimIsHeld(a, key, plan, change, now);
    BystandersChangeNothing(claimed, key, now, gap1);
    var halfway := After(Some(claimed), ClearCheckoutStatus(key)).value;
    BystandersChangeNothing(halfway, key, now, gap2);
    var cleared := After(Some(halfway), ClearCheckoutClaim(key)).value;
    assert cleared == a.(status := cleared.status, access := cleared.access, pendingPlan := None, pendingChange := None,
                         pendingEffectiveAt := None, checkout := NO_CLAIM);
  }

  lemma ClaimIsHeld(a: Account, key: Key, plan: string, change: Option<ChangeType>, now: int)
    requires IsSound(Some(a)) && CheckoutClaimable(a, change, now)
    ensures var claimed := a.(status := if change == Some(Reactivate) then Canceled else CheckoutPending,
                              pendingPlan := Some(plan), pendingChange := change, pendingEffectiveAt := None,
                              checkout := Claim(Some(key), Some(Claimed), Some(now), None));
            && After(Some(a), ClaimCheckout(key, plan, change, now)) == Some(claimed)
            && HoldsCheckout(claimed, key, now)
            && After(Some(claimed), ClearCheckoutStatus(key)).Some?
            && HoldsCheckout(After(Some(claimed), ClearCheckoutStatus(key)).value, key, now)
  {
  }

  // ---------------------------------------------------------------- the store

  class BillingAccountStore {
    var account: Option<Account>

    /** Statements of other workers that commit in between. */
    method OtherWorkers(gap: seq<Step>)
      modifies this
      ensures account == Run(old(account), gap)
    {
      account := Run(account, gap);
    }

    /** One conditional statement; returns whether it changed the row. */
    method Execute(s: Step) returns (changed: bool)
      modifies this
      ensures account == After(old(account), s) && changed == Matches(old(account), s)
    {
      hide After, Matches;
      changed := Matches(account, s);
      account := After(account, s);
    }

    /** `reserveTrialSubscriptionClaim`. */
    method ReserveTrialSubscriptionClaim(key: Key, now: int, gap1: seq<Step>, gap2: seq<Step>)
      returns (r: Result<Account, BillingError>)
      modifies this
      ensures var claimed := After(Run(After(old(account), InsertForTrial(key, now)), gap1), ClaimTrial(key, now));
              account == Run(claimed, gap2)
      ensures account.Some?
      ensures r.Ok? ==> r.value == account.value
      ensures old(account).Some? && (old(account).value.subscriptionId.Some? || old(account).value.trialEndsAt.Some?)
              && old(account).value.trial.key.None? ==>
                && account.value.trial.key.None?
                && (account.value.subscriptionId.Some? || account.value.trialEndsAt.Some?)
                && (account.value.subscriptionId != Some("") || account.value.trialEndsAt.Some? ==>
                    r == Ok(account.value))
      ensures r.Ok? <==>
              || Matches(Run(After(old(account), InsertForTrial(key, now)), gap1), ClaimTrial(key, now))
              || (account.value.subscriptionId.Some? && account.value.subscriptionId.value != "")
              || account.value.trialEndsAt.Some?
              || (account.value.trial.key == Some(key)
                  && (account.value.trial.phase == Some(Claimed)
                      || (account.value.trial.phase == Some(Requesting) && account.value.trial.requestExpiresAt.Some?
                          && now < account.value.trial.requestExpiresAt.value)))
      ensures r.Thrown? ==>
              r.error == if account.value.trial.key == Some(key) || account.value.trial.phase == Some(Requesting)
                         then ReconciliationFailed else IdempotencyConflict
    {
      hide After, Matches, Run;
      ReservingUsed(old(account), key, now, gap1, gap2);
      var _ := Execute(InsertForTrial(key, now));
      InsertGivesRow(old(account), key, now);
      RunKeepsRow(account, gap1);
      OtherWorkers(gap1);
      var claimed := Execute(ClaimTrial(key, now));
      StepKeepsRow(Run(After(old(account), InsertForTrial(key, now)), gap1), ClaimTrial(key, now));
      RunKeepsRow(account, gap2);
      OtherWorkers(gap2);
      var current := account.value;
      if claimed {
        return Ok(current);
      }
      if (current.subscriptionId.Some? && current.subscriptionId.value != "") || current.trialEndsAt.Some? {
        return Ok(current);
      }
      if current.trial.key == Some(key) {
        if current.trial.phase == Some(Claimed) {
          return Ok(current);
        }
        if current.trial.phase == Some(Requesting)
           && current.trial.requestExpiresAt.Some? && current.trial.requestExpiresAt.value > now {
          return Ok(current);
        }
        return Thrown(ReconciliationFailed);
      }
      r := Thrown(if current.trial.phase == Some(Requesting) then ReconciliationFailed else IdempotencyConflict);
    }

    /** `markTrialSubscriptionRequestStarted`. */
    method MarkTrialSubscriptionRequestStarted(key: Key, now: int, gap: seq<Step>) returns (r: Result<(), BillingError>)
      modifies this
      ensures account == Run(After(old(account), StartTrial(key, now)), gap)
      ensures r.Ok? <==>
              || Matches(old(account), StartTrial(key, now))
              || (account.Some? && account.value.trial.key == Some(key) && account.value.trial.phase == Some(Requesting)
                  && account.value.trial.requestExpiresAt.Some?
                  && now < account.value.trial.requestExpiresAt.value)
      ensures r.Thrown? ==> r.error == if account.None? then NotFound else ReconciliationFailed
    {
      hide After, Matches, Run;
      var changed := Execute(StartTrial(key, now));
      OtherWorkers(gap);
      if changed {
        return Ok(());
      }
      if account.None? {
        return Thrown(NotFound);
      }
      var current := account.value.trial;
      if current.key == Some(key) && current.phase == Some(Requesting)
         && current.requestExpiresAt.Some? && current.requestExpiresAt.value > now {
        return Ok(());
      }
      r := Thrown(ReconciliationFailed);
    }

    /** `releaseTrialSubscriptionClaim`. */
    method ReleaseTrialSubscriptionClaim(key: Key)
      modifies this
      ensures account == After(old(account), ReleaseTrial(key))
      ensures account.Some? ==> account.value.trial.key != Some(key)
    {
      var _ := Execute(ReleaseTrial(key));
    }

    /** `markCheckoutPending`. */
    method MarkCheckoutPending(key: Key, plan: string, change: Option<ChangeType>, now: int, gap: seq<Step>)
      returns (r: Result<Account, BillingError>)
      modifies this
      ensures account == Run(After(old(account), ClaimCheckout(key, plan, change, now)), gap)
      ensures r.Ok? ==> account == Some(r.value)
      ensures r.Ok? <==>
              || Matches(old(account), ClaimCheckout(key, plan, change, now))
              || (account.Some? && account.value.checkout.key == Some(key)
                  && account.value.checkout.phase == Some(Requesting)
                  && account.value.checkout.requestExpiresAt.Some?
                  && now < account.value.checkout.requestExpiresAt.value)
      ensures r.Thrown? ==>
              r.error ==
              if account.None? then NotFound
              else if account.value.subscriptionId.Some? && BlocksCheckout(account.value.status, change)
              then SubscriptionAlreadyExists
              else if account.value.checkout.phase == Some(Requesting) then CheckoutReconciliationRequired
              else CheckoutInProgress
    {
      hide After, Matches, Run;
      var claimed := Execute(ClaimCheckout(key, plan, change, now));
      if claimed {
        ClaimHasRow(old(account), ClaimCheckout(key, plan, change, now));
        RunKeepsRow(account, gap);
      }
      OtherWorkers(gap);
      if !claimed {
        if account.None? {
          return Thrown(NotFound);
        }
        var current := account.value;
        if current.checkout.key == Some(key) && current.checkout.phase == Some(Requesting)
           && current.checkout.requestExpiresAt.Some? && current.checkout.requestExpiresAt.value > now {
          return Ok(current);
        }
        var blocking := current.subscriptionId.Some? && BlocksCheckout(current.status, change);
        return Thrown(
            if blocking then SubscriptionAlreadyExists
            else if current.checkout.phase == Some(Requesting) then CheckoutReconciliationRequired
            else CheckoutInProgress);
      }
      r := Ok(account.value);
    }

    /** `markCheckoutRequestStarted`. */
    method MarkCheckoutRequestStarted(key: Key, now: int, gap: seq<Step>) returns (r: Result<(), BillingError>)
      modifies this
      ensures account == Run(After(old(account), StartCheckout(key, now)), gap)
      ensures r.Ok? <==>
              || Matches(old(account), StartCheckout(key, now))
              || (account.Some? && account.value.checkout.key == Some(key)
                  && account.value.checkout.phase == Some(Requesting)
                  && account.value.checkout.requestExpiresAt.Some?
                  && now < account.value.checkout.requestExpiresAt.value)
      ensures r.Thrown? ==> r.error == if account.None? then NotFound else CheckoutReconciliationRequired
    {
      hide After, Matches, Run;
      var changed := Execute(StartCheckout(key, now));
      OtherWorkers(gap);
      if changed {
        return Ok(());
      }
      if account.None? {
        return Thrown(NotFound);
      }
      var current := account.value.checkout;
      if current.key == Some(key) && current.phase == Some(Requesting)
         && current.requestExpiresAt.Some? && current.requestExpiresAt.value > now {
        return Ok(());
      }
      r := Thrown(CheckoutReconciliationRequired);
    }

    /** `bindCheckoutSubscription`. */
    method BindCheckoutSubscription(key: Key, customer: string, subscription: string)
      modifies this
      ensures account == After(old(account), BindCheckout(key, customer, subscription))
    {
      var _ := Execute(BindCheckout(key, customer, subscription));
    }

    /** `clearCheckoutClaim`: two statements outside a transaction, so others may act between them. */
    method ClearCheckoutClaim(key: Key, gap: seq<Step>) returns (cleared: bool)
      modifies this
      ensures account == After(Run(After(old(account), ClearCheckoutStatus(key)), gap), Step.ClearCheckoutClaim(key))
      ensures account.Some? ==> account.value.checkout.key != Some(key)
      ensures cleared <==>
              Matches(Run(After(old(account), ClearCheckoutStatus(key)), gap), Step.ClearCheckoutClaim(key))
    {
      var _ := Execute(ClearCheckoutStatus(key));
      OtherWorkers(gap);
      cleared := Execute(Step.ClearCheckoutClaim(key));
    }
  }

  /** A reservation on a used account without a trial claim leaves it without one, whatever others do. */
  lemma ReservingUsed(row: Option<Account>, key: Key, now: int, gap1: seq<Step>, gap2: seq<Step>)
    ensures var first := Run(After(row, InsertForTrial(key, now)), gap1);
            var last := Run(After(first, ClaimTrial(key, now)), gap2);
            IsUsed(row) && row.value.trial.key.None? ==> IsUsed(last) && last.value.trial.key.None?
  {
    if IsUsed(row) && row.value.trial.key.None? {
      hide After, IsUsed, Run, Matches;
      var inserted := After(row, InsertForTrial(key, now));
      StepKeepsUsed(row, InsertForTrial(key, now));
      OneTrialPerAccount(inserted, gap1, key, now);
      StepKeepsUsed(Run(inserted, gap1), ClaimTrial(key, now));
      OneTrialPerAccount(After(Run(inserted, gap1), ClaimTrial(key, now)), gap2, key, now);
    }
  }

  lemma InsertGivesRow(row: Option<Account>, key: Key, now: int)
    ensures After(row, InsertForTrial(key, now)).Some?
  {
  }

  lemma StepKeepsRow(row: Option<Account>, s: Step)
    requires row.Some?
    ensures After(row, s).Some?
  {
  }

  lemma ClaimHasRow(row: Option<Account>, s: Step)
    requires s.ClaimCheckout? && Matches(row, s)
    ensures After(row, s).Some?
  {
  }

  /**
   Once a request has been granted and until a statement that may end it, marking it as started again under
   the same key succeeds exactly during the twenty hours after the grant, whatever the other workers do.
   */
  lemma RetryWindow(row: Option<Account>, s: Step, between: seq<Step>, now: int)
    requires IsSound(row) && (s.StartTrial? || s.StartCheckout?) && Matches(row, s)
    requires forall i :: 0 <= i < |between| ==> !Ends(between[i], RequestOf(s))
    ensures var r := RequestOf(s);
            var current := Run(After(row, s), between);
            && current.Some?
            && !Matches(current, if s.StartTrial? then StartTrial(s.key, now) else StartCheckout(s.key, now))
            && (CanRetry(ClaimOf(current.value, r.kind), r.key, now) <==> now < s.now + REQUEST_WINDOW)
  {
    hide IsSound, After, Ends, Matches, Run;
    var r := RequestOf(s);
    StepKeepsSound(row, s);
    GrantIsRequesting(row, s);
    RequestPersists(After(row, s), between, r);
    RunKeepsSound(After(row, s), between);
    var again := if s.StartTrial? then StartTrial(s.key, now) else StartCheckout(s.key, now);
    NoGrantWhileRequesting(Run(After(row, s), between), again, r);
  }
}
