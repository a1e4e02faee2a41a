/**
 Applying a provider subscription to the account row: the event-time watermark with reads and writes apart,
 and the transaction that also finalizes a plan change and withdraws pending cancellations.
 */
module BillingSubscription {
  import opened Wrappers
  import opened BillingClaims
  import WebhookLease

  /** The core columns, which every update assigns. */
  datatype Assigned = Assigned(
    status: Status, planCode: Option<string>, subscriptionId: Option<string>, priceId: Option<string>,
    currentPeriodEnd: Option<int>, cancelAtPeriodEnd: bool, trialEndsAt: Option<int>,
    access: AccessStatus, lastEventId: Option<string>)

  /** The account row. `optional` holds the columns that an update may leave alone. */
  datatype Row = Row(
    contaId: string, environment: string, core: Assigned, optional: map<string, string>,
    watermark: Option<int>, accessVersion: nat, trial: Claim,
    pendingOperationId: Option<string>, pendingClaimToken: Option<string>,
    pendingChange: Option<ChangeType>, pendingEffectiveAt: Option<int>)

  /** What the caller saw earlier; the last three columns are compared only when given. */
  datatype Snapshot = Snapshot(
    contaId: string, environment: string, subscriptionId: Option<string>,
    pendingOperationId: Option<string>, pendingClaimToken: Option<string>,
    trialClaimKey: Option<Option<Key>>, watermark: Option<Option<int>>, lastEventId: Option<Option<string>>)

  datatype Finalization = Finalization(
    planChangeId: string, contaId: string, accountId: string, environment: string,
    subscriptionId: string, priceId: string, toPlan: string, upgrade: bool, applied: bool)

  /** None stands for a property the caller leaves undefined; Some(None) writes a null. */
  datatype Update = Update(
    accountId: string, status: Status, planCode: Option<string>, subscriptionId: string, priceId: Option<string>,
    currentPeriodEnd: Option<int>, cancelAtPeriodEnd: bool, trialEndsAt: Option<int>, lastEventId: string,
    access: Option<AccessStatus>, optional: map<string, string>, eventTime: Option<Option<int>>,
    pendingOperationId: Option<Option<string>>, pendingChange: Option<Option<ChangeType>>,
    pendingEffectiveAt: Option<Option<int>>,
    snapshot: Option<Snapshot>, finalization: Option<Finalization>, lease: Option<Lease>)

  /** The webhook event that an update is made for, and the worker that claimed it. */
  datatype Lease = Lease(eventId: string, worker: string)

  datatype UpdateError = LeaseLost | SnapshotChanged | PlanChangeNotFinalized

  /** `deriveAccessStatusFromStripeStatus`. */
  function DerivedAccess(status: Status): AccessStatus {
    match status
    case Active => AccessActive
    case Trialing => AccessActive
    case PastDue => GracePeriod
    case Unpaid => Restricted
    case Paused => Restricted
    case Canceled => AccessCanceled
    case IncompleteExpired => AccessCanceled
    case _ => Pending
  }

  function AssignedBy(u: Update): Assigned {
    Assigned(u.status, u.planCode, Some(u.subscriptionId), u.priceId, u.currentPeriodEnd, u.cancelAtPeriodEnd,
             u.trialEndsAt, if u.access.Some? then u.access.value else DerivedAccess(u.status), Some(u.lastEventId))
  }

  predicate HasEventTime(u: Update) {
    u.eventTime.Some? && u.eventTime.value.Some?
  }

  function EventTime(u: Update): int
    requires HasEventTime(u)
  {
    u.eventTime.value.value
  }

  /** The guard on the row read at the start of the transaction. */
  predicate IsOutdated(current: Row, u: Update) {
    HasEventTime(u) && current.watermark.Some? && current.watermark.value > EventTime(u)
  }

  predicate Agrees<T(==)>(expected: Option<T>, actual: T) {
    expected.Some? ==> expected.value == actual
  }

  predicate SnapshotMatches(s: Snapshot, row: Row) {
    && s.contaId == row.contaId && s.environment == row.environment
    && s.subscriptionId == row.core.subscriptionId
    && s.pendingOperationId == row.pendingOperationId && s.pendingClaimToken == row.pendingClaimToken
    && Agrees(s.trialClaimKey, row.trial.key) && Agrees(s.watermark, row.watermark)
    && Agrees(s.lastEventId, row.core.lastEventId)
  }

  /** The data of the update; the access version counts changes against the row read earlier. */
  function Written(row: Row, current: Row, u: Update): Row {
    row.(core := AssignedBy(u),
         optional := row.optional + u.optional,
         watermark := GetOr(u.eventTime, row.watermark),
         pendingChange := GetOr(u.pendingChange, row.pendingChange),
         pendingEffectiveAt := GetOr(u.pendingEffectiveAt, row.pendingEffectiveAt),
         pendingOperationId := GetOr(u.pendingOperationId, row.pendingOperationId),
         pendingClaimToken := if u.pendingOperationId.Some? then None else row.pendingClaimToken,
         trial := if u.subscriptionId != "" then NO_CLAIM else row.trial,
         accessVersion := row.accessVersion
                          + if u.access.Some? && u.access.value != current.core.access then 1 else 0)
  }

  /** The account write: `current` was read earlier in the transaction, `row` is what the statement finds. */
  function Write(row: Row, current: Row, u: Update): Result<Row, UpdateError> {
    if IsOutdated(current, u) then Ok(row)
    else if u.snapshot.Some? && !SnapshotMatches(u.snapshot.value, row) then Thrown(SnapshotChanged)
    else Ok(Written(row, current, u))
  }

  function WrittenOrKept(row: Row, current: Row, u: Update): Row {
    match Write(row, current, u) case Ok(r) => r case Thrown(_) => row
  }

  // ---------------------------------------------------------------- the watermark

  predicate NotAfter(a: Option<int>, b: Option<int>) {
    a.None? || (b.Some? && a.value <= b.value)
  }

  /**
   One committed change of the row: an update whose caller took its snapshot at row `snapshotAt` of the
   history and whose transaction read row `readAt`, or a statement that leaves the watermark alone.
   */
  datatype Commit = SubscriptionWrite(update: Update, snapshotAt: nat, readAt: nat) | OtherWrite

  /** Rows in commit order; commit `k` leads from row `k` to row `k + 1`. */
  ghost predicate IsHistory(rows: seq<Row>, commits: seq<Commit>) {
    && |rows| == |commits| + 1
    && forall k :: 0 <= k < |commits| ==> IsTransition(rows, commits[k], k)
  }

  ghost predicate IsTransition(rows: seq<Row>, c: Commit, k: nat)
    requires k + 1 < |rows|
  {
    match c
    case OtherWrite => rows[k + 1].watermark == rows[k].watermark
    case SubscriptionWrite(u, snapshotAt, readAt) =>
      snapshotAt <= readAt <= k && rows[k + 1] == WrittenOrKept(rows[k], rows[readAt], u)
  }

  /** The update carries an event time and the watermark its caller saw in the snapshot. */
  ghost predicate IsGuarded(rows: seq<Row>, c: Commit) {
    c.SubscriptionWrite? ==>
      && HasEventTime(c.update)
      && c.snapshotAt < |rows|
      && c.update.snapshot.Some? && c.update.snapshot.value.watermark == Some(rows[c.snapshotAt].watermark)
  }

  /** A guarded write finds the watermark its transaction read, provided nothing moved it back before. */
  lemma GuardedWriteAdvances(rows: seq<Row>, commits: seq<Commit>, k: nat)
    requires IsHistory(rows, commits) && k < |commits| && IsGuarded(rows, commits[k])
    requires forall i, j :: 0 <= i <= j <= k ==> NotAfter(rows[i].watermark, rows[j].watermark)
    ensures NotAfter(rows[k].watermark, rows[k + 1].watermark)
  {
    hide SnapshotMatches, Written;
    assert IsTransition(rows, commits[k], k);
    if commits[k].SubscriptionWrite? {
      var u := commits[k].update;
      var seen, read := rows[commits[k].snapshotAt], rows[commits[k].readAt];
      assert NotAfter(seen.watermark, read.watermark) && NotAfter(read.watermark, rows[k].watermark);
      WriteEffect(rows[k], read, u);
    }
  }

  lemma WriteEffect(row: Row, current: Row, u: Update)
    ensures Write(row, current, u).Ok? && !IsOutdated(current, u) ==>
              && Write(row, current, u).value == Written(row, current, u)
              && Written(row, current, u).watermark == GetOr(u.eventTime, row.watermark)
              && (u.snapshot.Some? ==> Agrees(u.snapshot.value.watermark, row.watermark))
    ensures Write(row, current, u).Thrown? || IsOutdated(current, u) ==> WrittenOrKept(row, current, u) == row
  {
  }

  /** Whatever the interleaving of snapshots, reads and writes, the watermark never moves back. */
  lemma {:induction false} WatermarkNeverMovesBack(rows: seq<Row>, commits: seq<Commit>, n: nat)
    requires IsHistory(rows, commits) && n < |rows|
    requires forall k :: 0 <= k < |commits| ==> IsGuarded(rows, commits[k])
    ensures forall i, j :: 0 <= i <= j <= n ==> NotAfter(rows[i].watermark, rows[j].watermark)
  {
    hide IsTransition, IsGuarded, IsHistory;
    if n > 0 {
      WatermarkNeverMovesBack(rows, commits, n - 1);
      HistoryLength(rows, commits);
      GuardedWriteAdvances(rows, commits, n - 1);
    }
  }

  lemma HistoryLength(rows: seq<Row>, commits: seq<Commit>)
    requires IsHistory(rows, commits)
    ensures |rows| == |commits| + 1
  {
  }

  /**
   An update moves the watermark back exactly when it was not outdated at the read, the row is newer than the event at
   the write, and its snapshot, if it has one, matches the row found.
   */
  lemma UnguardedWrite(row: Row, current: Row, u: Update)
    requires HasEventTime(u)
    ensures !NotAfter(row.watermark, WrittenOrKept(row, current, u).watermark) <==>
            && NotAfter(current.watermark, Some(EventTime(u))) && !NotAfter(row.watermark, Some(EventTime(u)))
            && (u.snapshot.Some? ==> SnapshotMatches(u.snapshot.value, row))
  {
    hide SnapshotMatches;
  }

  /** It happens without a snapshot, and with one that leaves the watermark out, when the row gets newer meanwhile. */
  lemma LateWriteMovesBack(row: Row, u: Update, newer: int)
    requires HasEventTime(u) && EventTime(u) < newer
    ensures var read, found := row.(watermark := None), row.(watermark := Some(newer));
            var partial := Snapshot(row.contaId, row.environment, row.core.subscriptionId,
                                    row.pendingOperationId, row.pendingClaimToken, None, None, None);
            && WrittenOrKept(found, read, u.(snapshot := None)).watermark == Some(EventTime(u))
            && WrittenOrKept(found, read, u.(snapshot := Some(partial))).watermark == Some(EventTime(u))
  {
  }

  // ---------------------------------------------------------------- arrival order

  /** The same columns of a snapshot, taken from a row. */
  function Retaken(s: Snapshot, row: Row): Snapshot {
    Snapshot(row.contaId, row.environment, row.core.subscriptionId, row.pendingOperationId, row.pendingClaimToken,
             if s.trialClaimKey.Some? then Some(row.trial.key) else None,
             if s.watermark.Some? then Some(row.watermark) else None,
             if s.lastEventId.Some? then Some(row.core.lastEventId) else None)
  }

  /** An update whose caller takes its snapshot, if it has one, from the row that the transaction will read. */
  function Prepared(u: Update, row: Row): Update {
    if u.snapshot.Some? then u.(snapshot := Some(Retaken(u.snapshot.value, row))) else u
  }

  /** A snapshot just taken matches, so the update is written unless it is outdated. */
  lemma PreparedIsWritten(u: Update, row: Row)
    ensures u.snapshot.Some? ==> SnapshotMatches(Retaken(u.snapshot.value, row), row)
    ensures WrittenOrKept(row, row, Prepared(u, row)) == if IsOutdated(row, u) then row else Written(row, row, u)
  {
  }

  /** Updates applied one after the other, each prepared from the row that it reads and writes. */
  function ApplyAll(row: Row, updates: seq<Update>): Row
    decreases |updates|
  {
    if updates == [] then row
    else
      var before := ApplyAll(row, updates[..|updates| - 1]);
      WrittenOrKept(before, before, Prepared(updates[|updates| - 1], before))
  }

  /** The updates of a stream have event times, all of them different. */
  predicate IsStream(updates: seq<Update>) {
    && (forall i :: 0 <= i < |updates| ==> HasEventTime(updates[i]))
    && (forall i, j :: 0 <= i < j < |updates| ==> EventTime(updates[i]) != EventTime(updates[j]))
  }

  /** The update is the newest of the stream. */
  ghost predicate IsNewest(updates: seq<Update>, u: Update) {
    u in updates && forall v :: v in updates && HasEventTime(v) && HasEventTime(u) ==> EventTime(v) <= EventTime(u)
  }

  lemma {:induction false} NewestExists(updates: seq<Update>)
    requires IsStream(updates) && updates != []
    ensures exists u :: IsNewest(updates, u)
  {
    var n := |updates| - 1;
    if n == 0 {
      assert IsNewest(updates, updates[0]);
    } else {
      NewestExists(updates[..n]);
      var u :| IsNewest(updates[..n], u);
      var winner := if EventTime(updates[n]) > EventTime(u) then updates[n] else u;
      assert IsNewest(updates, winner);
    }
  }

  /** The core columns are those of an update, each from its own property; the access is given or follows the status. */
  predicate HasColumnsOf(core: Assigned, u: Update) {
    && core.status == u.status
    && core.planCode == u.planCode
    && core.subscriptionId == Some(u.subscriptionId)
    && core.priceId == u.priceId
    && core.currentPeriodEnd == u.currentPeriodEnd
    && core.cancelAtPeriodEnd == u.cancelAtPeriodEnd
    && core.trialEndsAt == u.trialEndsAt
    && core.lastEventId == Some(u.lastEventId)
    && (u.access.Some? ==> core.access == u.access.value)
    && (u.access.None? ==>
        && (core.access == AccessActive <==> u.status in {Active, Trialing})
        && (core.access == GracePeriod <==> u.status == PastDue)
        && (core.access == Restricted <==> u.status in {Unpaid, Paused})
        && (core.access == AccessCanceled <==> u.status in {Canceled, IncompleteExpired}))
  }

  lemma ColumnsAreAssigned(u: Update)
    ensures HasColumnsOf(AssignedBy(u), u)
  {
  }

  /** Two core parts with the columns of one update are the same. */
  lemma ColumnsAreUnique(a: Assigned, b: Assigned, u: Update)
    requires HasColumnsOf(a, u) && HasColumnsOf(b, u)
    ensures a == b
  {
  }

  /** The row ends with the columns and the watermark of the newest update, unless it was newer to begin with. */
  lemma {:induction false} NewestWins(row: Row, updates: seq<Update>, newest: Update)
    requires IsStream(updates) && IsNewest(updates, newest)
    requires NotAfter(row.watermark, Some(EventTime(newest)))
    ensures HasColumnsOf(ApplyAll(row, updates).core, newest)
    ensures ApplyAll(row, updates).watermark == Some(EventTime(newest))
    decreases |updates|
  {
    hide AssignedBy, HasColumnsOf;
    ColumnsAreAssigned(updates[|updates| - 1]);
    var n := |updates| - 1;
    var last := updates[n];
    var before := ApplyAll(row, updates[..n]);
    PreparedIsWritten(last, before);
    if last == newest {
      WatermarkBelow(row, updates[..n], EventTime(newest));
    } else {
      assert IsNewest(updates[..n], newest) by {
        var i :| 0 <= i < |updates| && updates[i] == newest;
        assert updates[..n][i] == newest;
      }
      NewestWins(row, updates[..n], newest);
      var i :| 0 <= i < n && updates[i] == newest;
      assert EventTime(last) != EventTime(updates[i]);
    }
  }

  lemma {:induction false} WatermarkBelow(row: Row, updates: seq<Update>, bound: int)
    requires IsStream(updates) && NotAfter(row.watermark, Some(bound))
    requires forall v :: v in updates && HasEventTime(v) ==> EventTime(v) <= bound
    ensures NotAfter(ApplyAll(row, updates).watermark, Some(bound))
    decreases |updates|
  {
    if updates != [] {
      PreparedIsWritten(updates[|updates| - 1], ApplyAll(row, updates[..|updates| - 1]));
      WatermarkBelow(row, updates[..|updates| - 1], bound);
      assert updates[|updates| - 1] in updates;
    }
  }

  /** A row newer than the whole stream keeps its columns. */
  lemma {:induction false} OldStreamIsIgnored(row: Row, updates: seq<Update>)
    requires IsStream(updates)
    requires forall v :: v in updates && HasEventTime(v) ==> row.watermark.Some? && row.watermark.value > EventTime(v)
    ensures ApplyAll(row, updates) == row
    decreases |updates|
  {
    if updates != [] {
      PreparedIsWritten(updates[|updates| - 1], ApplyAll(row, updates[..|updates| - 1]));
      OldStreamIsIgnored(row, updates[..|updates| - 1]);
      assert updates[|updates| - 1] in updates;
    }
  }

  /** Two arrival orders of the same updates end with the same assigned columns and the same watermark. */
  lemma ArrivalOrderIsIrrelevant(row: Row, updates: seq<Update>, reordered: seq<Update>)
    requires IsStream(updates) && IsStream(reordered)
    requires multiset(updates) == multiset(reordered)
    ensures ApplyAll(row, updates).core == ApplyAll(row, reordered).core
    ensures ApplyAll(row, updates).watermark == ApplyAll(row, reordered).watermark
  {
    hide ApplyAll, HasColumnsOf;
    assert forall u :: u in updates <==> u in multiset(updates);
    assert forall u :: u in reordered <==> u in multiset(reordered);
    assert |updates| == |multiset(updates)| == |reordered|;
    if updates == [] {
      assert updates == reordered;
    } else {
      NewestExists(updates);
      var newest :| IsNewest(updates, newest);
      assert IsNewest(reordered, newest);
      if NotAfter(row.watermark, Some(EventTime(newest))) {
        NewestWins(row, updates, newest);
        NewestWins(row, reordered, newest);
        ColumnsAreUnique(ApplyAll(row, updates).core, ApplyAll(row, reordered).core, newest);
      } else {
        OldStreamIsIgnored(row, updates);
        OldStreamIsIgnored(row, reordered);
      }
    }
  }

  // ---------------------------------------------------------------- the transaction

  datatype ChangeStatus = PendingPayment | PendingEffectiveDate | Applied | ChangeCanceled | Failed | Superseded

  datatype PlanChange = PlanChange(
    contaId: string, accountId: string, environment: string, subscriptionId: Option<string>, priceId: Option<string>,
    toPlan: Option<string>, kind: ChangeType, status: ChangeStatus, endedAt: Option<int>)

  type PlanChanges = map<string, PlanChange>

  predicate IsPendingCancellation(c: PlanChange, accountId: string) {
    c.accountId == accountId && c.kind == CancelAtPeriodEnd && c.status == PendingEffectiveDate
  }

  predicate IsEnded(c: PlanChange) {
    c.status == Applied || c.status == Failed || c.status == ChangeCanceled
  }

  predicate CanFinalize(changes: PlanChanges, f: Finalization) {
    && f.planChangeId in changes
    && var c := changes[f.planChangeId];
       && c.contaId == f.contaId && c.accountId == f.accountId && c.environment == f.environment
       && c.subscriptionId == Some(f.subscriptionId) && c.priceId == Some(f.priceId) && c.toPlan == Some(f.toPlan)
       && c.kind == (if f.upgrade then Upgrade else Downgrade)
       && (c.status == PendingEffectiveDate || (f.upgrade && c.status == PendingPayment))
  }

  function Finalized(changes: PlanChanges, f: Finalization, now: int): PlanChanges
    requires CanFinalize(changes, f)
  {
    var status := if f.applied then Applied else Failed;
    changes[f.planChangeId := changes[f.planChangeId].(status := status, endedAt := Some(now))]
  }

  function WithoutCancellations(changes: PlanChanges, accountId: string, now: int): PlanChanges {
    map id | id in changes ::
      if IsPendingCancellation(changes[id], accountId)
      then changes[id].(status := ChangeCanceled, endedAt := Some(now))
      else changes[id]
  }

  function WithoutPendingCancellation(account: Row): Row {
    if account.pendingChange == Some(CancelAtPeriodEnd)
    then account.(pendingChange := None, pendingEffectiveAt := None)
    else account
  }

  /**
   What other transactions commit between the statements of this one: the account row before the write locks it, and
   plan-change rows before the finalization, before the withdrawal and between the withdrawal and the commit.
   */
  datatype Meanwhile = Meanwhile(
    account: Option<Row>, changes1: PlanChanges, changes2: PlanChanges, changes3: PlanChanges)

  datatype Outcome = Outcome(result: Result<Row, UpdateError>, account: Row, changes: PlanChanges)

  type Events = map<string, WebhookLease.Event>

  /** An update without a lease needs none. */
  predicate HoldsLease(events: Events, u: Update) {
    u.lease.Some? ==>
      u.lease.value.eventId in events && WebhookLease.HoldsLease(events[u.lease.value.eventId], u.lease.value.worker)
  }

  function Transaction(
    events: Events, current: Row, changes: PlanChanges, u: Update, now: int, m: Meanwhile): Outcome
  {
    if !HoldsLease(events, u) then Outcome(Thrown(LeaseLost), current, changes)
    else if IsOutdated(current, u) then Outcome(Ok(current), current, changes)
    else
      var found := GetOr(m.account, current);
      match Write(found, current, u)
      case Thrown(e) => Outcome(Thrown(e), found, changes)
      case Ok(account) =>
        var seen := changes + m.changes1;
        if u.finalization.Some? && !CanFinalize(seen, u.finalization.value)
        then Outcome(Thrown(PlanChangeNotFinalized), found, seen)
        else
          var final := (if u.finalization.Some? then Finalized(seen, u.finalization.value, now) else seen) + m.changes2;
          if u.cancelAtPeriodEnd then Outcome(Ok(account), account, final + m.changes3)
          else
            var settled := WithoutPendingCancellation(account);
            Outcome(Ok(settled), settled, WithoutCancellations(final, u.accountId, now) + m.changes3)
  }

  /** The row lock: nobody else writes the plan change that this transaction has finalized. */
  predicate RespectsLock(u: Update, m: Meanwhile) {
    u.finalization.Some? ==>
      u.finalization.value.planChangeId !in m.changes2 && u.finalization.value.planChangeId !in m.changes3
  }

  predicate IsUntouched(m: Meanwhile, id: string) {
    id !in m.changes1 && id !in m.changes2 && id !in m.changes3
  }

  /**
   Account update and finalization commit together or not at all; only other transactions' rows remain after a throw,
   and a throw means that the lease, the snapshot or the plan change was not as expected.
   */
  lemma AllOrNothing(events: Events, current: Row, changes: PlanChanges, u: Update, now: int, m: Meanwhile)
    requires RespectsLock(u, m) && (HoldsLease(events, u) ==> !IsOutdated(current, u))
    ensures var o := Transaction(events, current, changes, u, now, m);
            var found := GetOr(m.account, current);
            if o.result.Ok? then
              && HoldsLease(events, u)
              && o.result.value == o.account
              && HasColumnsOf(o.account.core, u)
              && o.account.watermark == GetOr(u.eventTime, found.watermark)
              && (u.snapshot.Some? ==> SnapshotMatches(u.snapshot.value, found))
              && (u.finalization.Some? ==>
                  var f := u.finalization.value;
                  && CanFinalize(changes + m.changes1, f)
                  && f.planChangeId in o.changes
                  && o.changes[f.planChangeId].status == (if f.applied then Applied else Failed))
            else if o.result.error == LeaseLost then
              !HoldsLease(events, u) && o.account == current && o.changes == changes
            else
              && o.account == found
              && (o.changes == changes || o.changes == changes + m.changes1)
              && ((u.snapshot.Some? && !SnapshotMatches(u.snapshot.value, found))
                  || (u.finalization.Some? && !CanFinalize(changes + m.changes1, u.finalization.value)))
  {
    hide SnapshotMatches, AssignedBy, HoldsLease, HasColumnsOf;
    ColumnsAreAssigned(u);
  }

  /**
   The other columns after an applied update: what it leaves out stays as found, what it gives is written, a given
   subscription ends the trial claim, a given operation ends the claim token, and the version of the access counts the
   updates that give another access than the row read. Only a pending cancellation may be withdrawn besides.
   */
  lemma OtherColumns(events: Events, current: Row, changes: PlanChanges, u: Update, now: int, m: Meanwhile)
    requires HoldsLease(events, u) && !IsOutdated(current, u)
    ensures var o := Transaction(events, current, changes, u, now, m);
            var found := GetOr(m.account, current);
            var r := o.account;
            var pending := GetOr(u.pendingChange, found.pendingChange);
            var withdrawn := !u.cancelAtPeriodEnd && pending == Some(CancelAtPeriodEnd);
            o.result.Ok? ==>
              && r.contaId == found.contaId && r.environment == found.environment
              && (forall c :: c in r.optional <==> c in u.optional || c in found.optional)
              && (forall c :: c in r.optional ==>
                   r.optional[c] == if c in u.optional then u.optional[c] else found.optional[c])
              && r.trial == (if u.subscriptionId != "" then NO_CLAIM else found.trial)
              && r.pendingOperationId == GetOr(u.pendingOperationId, found.pendingOperationId)
              && r.pendingClaimToken == (if u.pendingOperationId.Some? then None else found.pendingClaimToken)
              && r.accessVersion == found.accessVersion
                                    + (if u.access.Some? && u.access != Some(current.core.access) then 1 else 0)
              && r.pendingChange == (if withdrawn then None else pending)
              && r.pendingEffectiveAt ==
                 (if withdrawn then None else GetOr(u.pendingEffectiveAt, found.pendingEffectiveAt))
  {
    hide SnapshotMatches, AssignedBy, HoldsLease, CanFinalize, WithoutCancellations;
  }

  /** An update prepared from one row is written over another exactly if the two agree on every column it compares. */
  lemma StaleSnapshotIsRefused(s: Snapshot, seen: Row, found: Row)
    ensures SnapshotMatches(Retaken(s, seen), found) <==>
            && seen.contaId == found.contaId && seen.environment == found.environment
            && seen.core.subscriptionId == found.core.subscriptionId
            && seen.pendingOperationId == found.pendingOperationId && seen.pendingClaimToken == found.pendingClaimToken
            && (s.trialClaimKey.Some? ==> seen.trial.key == found.trial.key)
            && (s.watermark.Some? ==> seen.watermark == found.watermark)
            && (s.lastEventId.Some? ==> seen.core.lastEventId == found.core.lastEventId)
  {
  }

  /** The lease check refuses exactly an update whose worker does not hold the event it names, as being processed. */
  lemma LeaseIsRequired(events: Events, current: Row, changes: PlanChanges, u: Update, now: int, m: Meanwhile)
    ensures Transaction(events, current, changes, u, now, m).result == Thrown(LeaseLost) <==>
            && u.lease.Some?
            && var id := u.lease.value.eventId;
               !(id in events && events[id].worker == Some(u.lease.value.worker)
                 && events[id].status == WebhookLease.Processing)
  {
    hide SnapshotMatches, AssignedBy, CanFinalize, Written;
  }

  /**
   A finalization goes through exactly if the plan change found is the one it names in every column and still waits: for
   its date, or for its payment in the case of an upgrade. It ends applied or failed at the time, and is else unchanged.
   */
  lemma FinalizedExactly(events: Events, current: Row, changes: PlanChanges, u: Update, now: int, m: Meanwhile)
    requires RespectsLock(u, m) && HoldsLease(events, u) && !IsOutdated(current, u)
    requires u.finalization.Some? && (u.snapshot.Some? ==> SnapshotMatches(u.snapshot.value, GetOr(m.account, current)))
    ensures var o := Transaction(events, current, changes, u, now, m);
            var f := u.finalization.value;
            var seen := changes + m.changes1;
            && (o.result.Ok? <==>
                && f.planChangeId in seen
                && var c := seen[f.planChangeId];
                   && c.contaId == f.contaId && c.accountId == f.accountId && c.environment == f.environment
                   && c.subscriptionId == Some(f.subscriptionId) && c.priceId == Some(f.priceId)
                   && c.toPlan == Some(f.toPlan) && (c.kind == Upgrade || c.kind == Downgrade)
                   && (f.upgrade <==> c.kind == Upgrade)
                   && (c.status == PendingEffectiveDate || (f.upgrade && c.status == PendingPayment)))
            && (o.result.Ok? ==>
                && f.planChangeId in o.changes
                && o.changes[f.planChangeId] ==
                   seen[f.planChangeId].(status := if f.applied then Applied else Failed, endedAt := Some(now)))
  {
    hide SnapshotMatches, AssignedBy, HoldsLease, Written;
  }

  /** The outdated branch of the transaction. */
  lemma OutdatedChangesNothing(events: Events, current: Row, changes: PlanChanges, u: Update, now: int, m: Meanwhile)
    requires IsOutdated(current, u)
    ensures Transaction(events, current, changes, u, now, m) ==
            Outcome(if HoldsLease(events, u) then Ok(current) else Thrown(LeaseLost), current, changes)
  {
    hide HoldsLease;
  }

  /**
   Once the row of a guarded history was newer than an event, the event changes nothing at any later time, whatever
   happened in between: its transaction returns the row it found, or throws because its lease is lost.
   */
  lemma LateEventChangesNothing(
    rows: seq<Row>, commits: seq<Commit>, i: nat, k: nat,
    events: Events, changes: PlanChanges, u: Update, now: int, m: Meanwhile)
    requires IsHistory(rows, commits) && i <= k < |rows|
    requires forall n :: 0 <= n < |commits| ==> IsGuarded(rows, commits[n])
    requires IsOutdated(rows[i], u)
    ensures var o := Transaction(events, rows[k], changes, u, now, m);
            && o.account == rows[k] && o.changes == changes
            && o.result == if HoldsLease(events, u) then Ok(rows[k]) else Thrown(LeaseLost)
  {
    hide IsHistory, IsGuarded, Transaction, HoldsLease;
    WatermarkNeverMovesBack(rows, commits, k);
    assert NotAfter(rows[i].watermark, rows[k].watermark);
    OutdatedChangesNothing(events, rows[k], changes, u, now, m);
  }

  /**
   After an applied update that does not cancel, no cancellation is pending on the account. A plan change of the account
   is pending cancellation exactly when it was committed so between the withdrawal and the commit.
   */
  lemma NoCancellationLeft(events: Events, current: Row, changes: PlanChanges, u: Update, now: int, m: Meanwhile)
    requires HoldsLease(events, u) && !IsOutdated(current, u) && !u.cancelAtPeriodEnd
    ensures var o := Transaction(events, current, changes, u, now, m);
            o.result.Ok? ==>
              && o.account.pendingChange != Some(CancelAtPeriodEnd)
              && forall id :: id in o.changes && o.changes[id].accountId == u.accountId
                              && o.changes[id].kind == CancelAtPeriodEnd
                              && o.changes[id].status == PendingEffectiveDate ==>
                   id in m.changes3 && o.changes[id] == m.changes3[id]
    ensures var o := Transaction(events, current, changes, u, now, m);
            o.result.Ok? ==>
              forall id :: id in m.changes3 ==> id in o.changes && o.changes[id] == m.changes3[id]
  {
    hide SnapshotMatches, AssignedBy, CanFinalize, HoldsLease;
  }

  /** Such a plan change stays pending after an update that was applied and does not cancel. */
  lemma CancellationDuringUpdate(
    current: Row, changes: PlanChanges, u: Update, now: int, id: string, requested: PlanChange)
    requires IsPendingCancellation(requested, u.accountId)
    ensures var plain := u.(cancelAtPeriodEnd := false, eventTime := None, snapshot := None, finalization := None,
                            lease := None);
            var m := Meanwhile(None, map[], map[], map[id := requested]);
            var o := Transaction(map[], current, changes, plain, now, m);
            o.result.Ok? && id in o.changes && IsPendingCancellation(o.changes[id], u.accountId)
  {
  }

  /** Plan changes that are applied, failed or canceled stay as they are, unless another transaction writes them. */
  lemma EndedChangesStay(
    events: Events, current: Row, changes: PlanChanges, u: Update, now: int, m: Meanwhile, id: string)
    requires id in changes && IsEnded(changes[id]) && IsUntouched(m, id)
    ensures var o := Transaction(events, current, changes, u, now, m);
            id in o.changes && o.changes[id] == changes[id]
  {
    hide SnapshotMatches, AssignedBy, HoldsLease, Written, WithoutPendingCancellation;
  }

  /** Only the finalized plan change and withdrawn cancellations change status. */
  lemma OtherChangesStay(
    events: Events, current: Row, changes: PlanChanges, u: Update, now: int, m: Meanwhile, id: string)
    requires id in changes && IsUntouched(m, id)
    requires u.finalization.Some? ==> u.finalization.value.planChangeId != id
    ensures var o := Transaction(events, current, changes, u, now, m);
            && id in o.changes
            && o.changes[id] ==
               if o.result.Ok? && HoldsLease(events, u) && !IsOutdated(current, u) && !u.cancelAtPeriodEnd
                  && changes[id].accountId == u.accountId && changes[id].kind == CancelAtPeriodEnd
                  && changes[id].status == PendingEffectiveDate
               then changes[id].(status := ChangeCanceled, endedAt := Some(now)) else changes[id]
  {
    hide SnapshotMatches, AssignedBy, HoldsLease, Written, WithoutPendingCancellation;
  }

  class BillingDatabase {
    var account: Row
    var changes: PlanChanges
    var events: Events

    /**
     `updateAccountFromStripeSubscription`. The lease check locks the event, so the lease is held to the end; a thrown
     error rolls back what this transaction wrote.
     */
    method UpdateAccountFromStripeSubscription(u: Update, now: int, m: Meanwhile) returns (r: Result<Row, UpdateError>)
      modifies this`account, this`changes
      ensures Outcome(r, account, changes) == Transaction(events, old(account), old(changes), u, now, m)
    {
      hide SnapshotMatches, AssignedBy, HoldsLease;
      if !HoldsLease(events, u) {
        return Thrown(LeaseLost);
      }
      var current := account;
      if IsOutdated(current, u) {
        return Ok(current);
      }
      account := GetOr(m.account, account);
      var saved := account;
      if u.snapshot.Some? && !SnapshotMatches(u.snapshot.value, account) {
        return Thrown(SnapshotChanged);
      }
      account := Written(account, current, u);
      changes := changes + m.changes1;
      if u.finalization.Some? {
        if !CanFinalize(changes, u.finalization.value) {
          account := saved;
          return Thrown(PlanChangeNotFinalized);
        }
        changes := Finalized(changes, u.finalization.value, now);
      }
      changes := changes + m.changes2;
      if !u.cancelAtPeriodEnd {
        changes := WithoutCancellations(changes, u.accountId, now);
        account := WithoutPendingCancellation(account);
      }
      changes := changes + m.changes3;
      r := Ok(account);
    }
  }
}
