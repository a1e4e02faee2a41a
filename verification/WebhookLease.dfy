/**
 The lease on one webhook event: workers claim the event, change billing state under the claim and finalize
 the event. A billing change locks the event row from its lease check to the end of its transaction.
 */
module WebhookLease {
  import opened Wrappers

  type Worker = string

  datatype EventStatus = Pending | Received | Processing | Processed | Failed | Exhausted | Ignored

  datatype Event = Event(
    status: EventStatus, worker: Option<Worker>, attempts: nat,
    lockedAt: Option<int>, timeoutAt: Option<int>, processedAt: Option<int>, exhaustedAt: Option<int>,
    nextAttemptAt: int, lastError: Option<string>, lastErrorCode: Option<string>)

  /** How an event is finalized. */
  datatype Ending =
    | AsProcessed
    | AsIgnored
    | AsFailed(error: string, errorCode: Option<string>, exhausted: bool, nextAttemptAt: Option<int>)

  /** One statement of one worker; a missing worker id leaves the column alone or drops the condition. */
  datatype Step =
    | Claim(worker: Option<Worker>, now: int, timeoutAt: Option<int>)
    | Finalize(worker: Option<Worker>, ending: Ending, now: int)
    | LockLease(holder: Worker)
    | EndMutation(holder: Worker)

  /** The event row, and the worker whose transaction holds the row lock. */
  datatype State = State(event: Event, lock: Option<Worker>)

  predicate HoldsLease(e: Event, worker: Worker) {
    e.worker == Some(worker) && e.status == Processing
  }

  predicate IsNamed(worker: Option<Worker>) {
    worker.Some? && worker.value != ""
  }

  /** Whether a statement changes the row, or for the lock, whether the lease check finds the row. */
  predicate TakesEffect(e: Event, s: Step) {
    match s
    case Claim(_, _, _) => true
    case Finalize(worker, _, _) => IsNamed(worker) ==> HoldsLease(e, worker.value)
    case LockLease(worker) => HoldsLease(e, worker)
    case EndMutation(_) => true
  }

  function Claimed(e: Event, worker: Option<Worker>, now: int, timeoutAt: Option<int>): Event {
    e.(status := Processing, worker := if worker.Some? then worker else e.worker, attempts := e.attempts + 1,
       lockedAt := Some(now), timeoutAt := if timeoutAt.Some? then timeoutAt else e.timeoutAt)
  }

  /** The first thousand characters of an error. */
  function LastErrorText(error: string): (r: string)
    ensures r <= error && |r| == if |error| < 1000 then |error| else 1000
  {
    if |error| <= 1000 then error else error[..1000]
  }

  function Ended(e: Event, ending: Ending, now: int): Event {
    var free := e.(worker := None, lockedAt := None, timeoutAt := None);
    match ending
    case AsProcessed => free.(status := Processed, processedAt := Some(now), lastError := None, lastErrorCode := None)
    case AsIgnored => free.(status := Ignored, processedAt := Some(now))
    case AsFailed(error, errorCode, exhausted, nextAttemptAt) =>
      free.(status := if exhausted then Exhausted else Failed,
            exhaustedAt := if exhausted then Some(now) else None,
            lastError := Some(LastErrorText(error)),
            lastErrorCode := if errorCode.Some? then errorCode else e.lastErrorCode,
            nextAttemptAt := if !exhausted && nextAttemptAt.Some? then nextAttemptAt.value else e.nextAttemptAt)
  }

  function EventAfter(e: Event, s: Step): Event {
    if !TakesEffect(e, s) then e
    else match s
      case Claim(worker, now, timeoutAt) => Claimed(e, worker, now, timeoutAt)
      case Finalize(_, ending, now) => Ended(e, ending, now)
      case _ => e
  }

  function After(st: State, s: Step): State {
    State(EventAfter(st.event, s),
          if s.LockLease? && TakesEffect(st.event, s) then Some(s.holder)
          else if s.EndMutation? then None
          else st.lock)
  }

  /** A statement waits while another transaction holds the row lock; a mutation ends only its own lock. */
  predicate CanRun(st: State, s: Step) {
    if s.EndMutation? then st.lock == Some(s.holder) else st.lock.None?
  }

  function StateBefore(start: State, steps: seq<Step>, i: nat): State
    requires i <= |steps|
  {
    if i == 0 then start else After(StateBefore(start, steps, i - 1), steps[i - 1])
  }

  ghost predicate IsRun(start: State, steps: seq<Step>) {
    forall i :: 0 <= i < |steps| ==> CanRun(StateBefore(start, steps, i), steps[i])
  }

  /** A new event: pending, without a worker and unlocked. */
  predicate IsNew(st: State) {
    st.event.worker.None? && st.lock.None?
  }

  predicate EffectAt(start: State, steps: seq<Step>, i: nat) {
    i < |steps| && TakesEffect(StateBefore(start, steps, i).event, steps[i])
  }

  predicate Finalizes(start: State, steps: seq<Step>, i: nat) {
    i < |steps| && steps[i].Finalize? && EffectAt(start, steps, i)
  }

  predicate ClaimsFor(steps: seq<Step>, j: nat, worker: Worker) {
    j < |steps| && steps[j].Claim? && steps[j].worker == Some(worker)
  }

  /**
   Step `j` is a claim under the id `worker`, and up to step `i` no other named claim and no finalization followed.
   */
  ghost predicate IsOpenClaim(start: State, steps: seq<Step>, j: nat, i: nat, worker: Worker) {
    && j < i <= |steps| && ClaimsFor(steps, j, worker)
    && (forall k :: j < k < i ==> !(steps[k].Claim? && steps[k].worker.Some?))
    && (forall k :: j < k < i ==> !Finalizes(start, steps, k))
  }

  /** The lease is held exactly by the latest named claimant of an event that is not finalized since. */
  lemma {:induction false} LeaseIsOpenClaim(start: State, steps: seq<Step>, i: nat, worker: Worker)
    requires IsNew(start) && i <= |steps|
    ensures HoldsLease(StateBefore(start, steps, i).event, worker) <==>
            exists j :: IsOpenClaim(start, steps, j, i, worker)
    ensures StateBefore(start, steps, i).event.worker.Some? ==> StateBefore(start, steps, i).event.status == Processing
  {
    if i > 0 {
      LeaseIsOpenClaim(start, steps, i - 1, worker);
      var before, s := StateBefore(start, steps, i - 1).event, steps[i - 1];
      if ClaimsFor(steps, i - 1, worker) {
        assert IsOpenClaim(start, steps, i - 1, i, worker);
      } else if HoldsLease(StateBefore(start, steps, i).event, worker) {
        var j :| IsOpenClaim(start, steps, j, i - 1, worker);
        assert IsOpenClaim(start, steps, j, i, worker);
      }
    }
    forall j | IsOpenClaim(start, steps, j, i, worker) ensures HoldsLease(StateBefore(start, steps, i).event, worker) {
      OpenClaimHolds(start, steps, j, i, worker);
    }
  }

  lemma {:induction false} OpenClaimHolds(start: State, steps: seq<Step>, j: nat, i: nat, worker: Worker)
    requires IsOpenClaim(start, steps, j, i, worker)
    ensures HoldsLease(StateBefore(start, steps, i).event, worker)
    decreases i
  {
    if j < i - 1 {
      OpenClaimHolds(start, steps, j, i - 1, worker);
      assert !Finalizes(start, steps, i - 1);
    }
  }

  /** A finalization under a worker id takes effect exactly for the latest claimant of a still open claim. */
  lemma FinalizationIsFenced(start: State, steps: seq<Step>, i: nat)
    requires IsNew(start) && i < |steps| && steps[i].Finalize? && IsNamed(steps[i].worker)
    ensures EffectAt(start, steps, i) <==> exists j :: IsOpenClaim(start, steps, j, i, steps[i].worker.value)
  {
    LeaseIsOpenClaim(start, steps, i, steps[i].worker.value);
  }

  /** While the row is locked, the locking worker keeps the lease. */
  lemma {:induction false} LockKeepsLease(start: State, steps: seq<Step>, i: nat)
    requires IsNew(start) && IsRun(start, steps) && i <= |steps|
    ensures var st := StateBefore(start, steps, i);
            st.lock.Some? ==> HoldsLease(st.event, st.lock.value)
  {
    if i > 0 {
      LockKeepsLease(start, steps, i - 1);
      assert CanRun(StateBefore(start, steps, i - 1), steps[i - 1]);
    }
  }

  /** A billing mutation ends, and so commits, only under a claim that is the latest and still open. */
  lemma MutationIsFenced(start: State, steps: seq<Step>, i: nat)
    requires IsNew(start) && IsRun(start, steps) && i < |steps| && steps[i].EndMutation?
    ensures exists j :: IsOpenClaim(start, steps, j, i, steps[i].holder)
  {
    LockKeepsLease(start, steps, i);
    assert CanRun(StateBefore(start, steps, i), steps[i]);
    LeaseIsOpenClaim(start, steps, i, steps[i].holder);
  }

  /**
   A lease check on a lease that is held locks the event: then nothing else runs on it until the mutation ends, which
   it can, and which leaves the event as it was and unlocked.
   */
  lemma LockedUntilEnd(st: State, worker: Worker, s: Step)
    requires st.lock.None? && st.event.worker == Some(worker) && st.event.status == Processing
    ensures var locked := After(st, LockLease(worker));
            && CanRun(st, LockLease(worker)) && locked.event == st.event
            && (CanRun(locked, s) <==> s == EndMutation(worker))
            && After(locked, EndMutation(worker)) == st
  {
  }

  /** A lease check on a lease that was lost does not lock the row, so the mutation cannot end. */
  lemma LostLeaseStopsMutation(st: State, worker: Worker)
    requires st.lock.None? && !HoldsLease(st.event, worker)
    ensures After(st, LockLease(worker)) == st && !CanRun(After(st, LockLease(worker)), EndMutation(worker))
  {
  }

  /**
   After a finalization under an id, another one under the same id takes effect exactly when the id was claimed again
   after the first, and that claim is the latest and still open.
   */
  lemma SecondFinalization(start: State, steps: seq<Step>, i: nat, k: nat)
    requires IsNew(start) && i < k < |steps|
    requires Finalizes(start, steps, i) && IsNamed(steps[i].worker)
    requires steps[k].Finalize? && steps[k].worker == steps[i].worker
    ensures Finalizes(start, steps, k) <==>
            exists j :: i < j && IsOpenClaim(start, steps, j, k, steps[i].worker.value)
  {
    hide IsNew, TakesEffect;
    FinalizationIsFenced(start, steps, k);
    if Finalizes(start, steps, k) {
      var j :| IsOpenClaim(start, steps, j, k, steps[i].worker.value);
      assert i < j;
    }
  }

  /** No worker id is claimed twice. */
  ghost predicate AreFresh(steps: seq<Step>) {
    forall i, j :: 0 <= i < j < |steps| && steps[i].Claim? && steps[j].Claim? && steps[i].worker.Some? ==>
      steps[i].worker != steps[j].worker
  }

  /** With a fresh worker id per claim, each claim is finalized at most once. */
  lemma FinalizedAtMostOnce(start: State, steps: seq<Step>, i: nat, k: nat)
    requires IsNew(start) && AreFresh(steps)
    requires i < k && Finalizes(start, steps, i) && Finalizes(start, steps, k) && IsNamed(steps[i].worker)
    ensures steps[k].worker != steps[i].worker
  {
    FinalizationIsFenced(start, steps, i);
    if steps[k].worker == steps[i].worker {
      SecondFinalization(start, steps, i, k);
    }
  }

  /**
   A finalization carries no more than its worker id, so with an id that is claimed again a second one takes effect: a
   late one of the first claimant is accepted as one under the second claim.
   */
  lemma ReusedIdIsNotFenced(e: Event, worker: Worker, now: int)
    requires worker != ""
    ensures var claim := Claim(Some(worker), now, None);
            var finalize := Finalize(Some(worker), AsProcessed, now);
            var steps := [claim, finalize, claim, finalize];
            var start := State(e.(worker := None), None);
            IsNew(start) && Finalizes(start, steps, 1) && Finalizes(start, steps, 3)
  {
    var claim := Claim(Some(worker), now, None);
    var finalize := Finalize(Some(worker), AsProcessed, now);
    var steps := [claim, finalize, claim, finalize];
    var start := State(e.(worker := None), None);
    assert IsOpenClaim(start, steps, 0, 1, worker);
    FinalizationIsFenced(start, steps, 1);
    assert IsOpenClaim(start, steps, 2, 3, worker);
    SecondFinalization(start, steps, 1, 3);
  }

  datatype LeaseError = LeaseLost

  /** The store's condition: no worker is named, or the one who holds the event that is being processed. */
  predicate MayFinalize(e: Event, worker: Option<Worker>) {
    worker.None? || worker == Some("") || (e.worker == worker && e.status == Processing)
  }

  class WebhookEventStore {
    var event: Event

    /** `markWebhookEventProcessing`: unconditional. */
    method MarkProcessing(worker: Option<Worker>, now: int, timeoutAt: Option<int>) returns (r: Event)
      modifies this
      ensures event == EventAfter(old(event), Claim(worker, now, timeoutAt)) && r == event
      ensures event == old(event).(status := Processing, worker := if worker.Some? then worker else old(event).worker,
                                   attempts := old(event).attempts + 1, lockedAt := Some(now),
                                   timeoutAt := if timeoutAt.Some? then timeoutAt else old(event).timeoutAt)
      ensures worker.Some? ==> HoldsLease(event, worker.value)
    {
      event := event.(status := Processing, attempts := event.attempts + 1, lockedAt := Some(now));
      if timeoutAt.Some? {
        event := event.(timeoutAt := timeoutAt);
      }
      if worker.Some? {
        event := event.(worker := worker);
      }
      r := event;
    }

    /** The shared shape of the three finalizations: a conditional update that must count one row. */
    method Finish(worker: Option<Worker>, ending: Ending, now: int) returns (r: Result<Event, LeaseError>)
      modifies this
      ensures event == EventAfter(old(event), Finalize(worker, ending, now))
      ensures r == if TakesEffect(old(event), Finalize(worker, ending, now)) then Ok(event) else Thrown(LeaseLost)
      ensures r.Ok? ==> event.worker.None? && event.status != Processing
      ensures r.Thrown? ==> event == old(event)
    {
      if IsNamed(worker) && !HoldsLease(event, worker.value) {
        return Thrown(LeaseLost);
      }
      event := Ended(event, ending, now);
      r := Ok(event);
    }

    method MarkProcessed(worker: Option<Worker>, now: int) returns (r: Result<Event, LeaseError>)
      modifies this
      ensures event == EventAfter(old(event), Finalize(worker, AsProcessed, now))
      ensures r.Ok? ==>
              event == old(event).(status := Processed, processedAt := Some(now), worker := None, lockedAt := None,
                                   timeoutAt := None, lastError := None, lastErrorCode := None)
      ensures r.Thrown? ==> event == old(event)
      ensures r.Ok? <==> MayFinalize(old(event), worker)
      ensures r.Ok? <==> TakesEffect(old(event), Finalize(worker, AsProcessed, now))
    {
      r := Finish(worker, AsProcessed, now);
    }

    method MarkIgnored(worker: Option<Worker>, now: int) returns (r: Result<Event, LeaseError>)
      modifies this
      ensures event == EventAfter(old(event), Finalize(worker, AsIgnored, now))
      ensures r.Ok? ==>
              event == old(event).(status := Ignored, processedAt := Some(now), worker := None, lockedAt := None,
                                   timeoutAt := None)
      ensures r.Thrown? ==> event == old(event)
      ensures r.Ok? <==> MayFinalize(old(event), worker)
      ensures r.Ok? <==> TakesEffect(old(event), Finalize(worker, AsIgnored, now))
    {
      r := Finish(worker, AsIgnored, now);
    }

    method MarkFailed(
      worker: Option<Worker>, now: int, error: string, errorCode: Option<string>, exhausted: bool,
      nextAttemptAt: Option<int>)
      returns (r: Result<Event, LeaseError>)
      modifies this
      ensures event == EventAfter(old(event),
                                  Finalize(worker, AsFailed(error, errorCode, exhausted, nextAttemptAt), now))
      ensures r.Ok? && !exhausted ==>
              event == old(event).(status := Failed, worker := None, lockedAt := None, timeoutAt := None,
                                   exhaustedAt := None, lastError := Some(LastErrorText(error)),
                                   lastErrorCode := if errorCode.Some? then errorCode else old(event).lastErrorCode,
                                   nextAttemptAt := if nextAttemptAt.Some? then nextAttemptAt.value
                                                    else old(event).nextAttemptAt)
      ensures r.Ok? && exhausted ==>
              event == old(event).(status := Exhausted, worker := None, lockedAt := None, timeoutAt := None,
                                   exhaustedAt := Some(now), lastError := Some(LastErrorText(error)),
                                   lastErrorCode := if errorCode.Some? then errorCode else old(event).lastErrorCode)
      ensures r.Thrown? ==> event == old(event)
      ensures r.Ok? <==> MayFinalize(old(event), worker)
      ensures r.Ok? <==>
              TakesEffect(old(event), Finalize(worker, AsFailed(error, errorCode, exhausted, nextAttemptAt), now))
    {
      r := Finish(worker, AsFailed(error, errorCode, exhausted, nextAttemptAt), now);
    }
  }
}
