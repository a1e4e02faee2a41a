/**
 Daily upload quotas: reserved and used bytes against the reservations that account for them, over every
 interleaving of reserve, complete, release and expire transactions.
 */
module UploadQuota {
  import opened Wrappers

  const RESERVATION_TTL_MS := 15 * 60 * 1000
  const MS_PER_DAY := 86_400_000

  datatype Quota = Quota(contaId: string, day: int, usedBytes: int, reservedBytes: int)

  datatype ReservationStatus = Pending | Completed | Cancelled | Expired

  datatype Reservation = Reservation(
    contaId: string, quotaId: nat, objectKey: string, expectedSize: nat, status: ReservationStatus, expiresAt: int)

  /** Bytes that a completed reservation has turned into used bytes. */
  datatype Commitment = Commitment(reservationId: nat, quotaId: nat, bytes: nat)

  /** The two tables, rows numbered in the order they were created, and the log of commitments. */
  datatype State = State(limit: nat, quotas: seq<Quota>, reservations: seq<Reservation>, log: seq<Commitment>)

  /** One committed transaction. */
  datatype Step =
    | Reserve(contaId: string, day: int, size: nat, objectKey: string, expiresAt: int)
    | Complete(contaId: string, id: nat, actualSize: int, now: int)
    | Release(contaId: string, id: nat, to: ReservationStatus)

  function FindQuota(quotas: seq<Quota>, contaId: string, day: int): (r: Option<nat>)
    ensures r.Some? ==> r.value < |quotas| && quotas[r.value].contaId == contaId && quotas[r.value].day == day
    ensures r.None? ==> forall q :: 0 <= q < |quotas| ==> !(quotas[q].contaId == contaId && quotas[q].day == day)
  {
    if quotas == [] then None
    else
      var n := |quotas| - 1;
      if quotas[n].contaId == contaId && quotas[n].day == day then Some(n) else FindQuota(quotas[..n], contaId, day)
  }

  /** The quota rows after the upsert, and the row of the account and the day. */
  function WithQuota(quotas: seq<Quota>, contaId: string, day: int): (r: (seq<Quota>, nat))
    ensures r.1 < |r.0| && r.0[r.1].contaId == contaId && r.0[r.1].day == day && quotas <= r.0
  {
    match FindQuota(quotas, contaId, day)
    case Some(q) => (quotas, q)
    case None => (quotas + [Quota(contaId, day, 0, 0)], |quotas|)
  }

  predicate IsReservable(limit: nat, size: int) {
    1 <= size <= limit
  }

  predicate Fits(st: State, q: Quota, size: int) {
    q.usedBytes + q.reservedBytes + size <= st.limit
  }

  predicate IsPendingOf(st: State, contaId: string, id: nat) {
    id < |st.reservations| && st.reservations[id].contaId == contaId && st.reservations[id].status == Pending
  }

  predicate CanComplete(st: State, contaId: string, id: nat, actualSize: int, now: int) {
    && IsPendingOf(st, contaId, id) && st.reservations[id].expiresAt > now
    && 1 <= actualSize <= st.reservations[id].expectedSize
  }

  predicate Succeeds(st: State, s: Step) {
    match s
    case Reserve(contaId, day, size, _, _) =>
      IsReservable(st.limit, size) && var (quotas, q) := WithQuota(st.quotas, contaId, day); Fits(st, quotas[q], size)
    case Complete(contaId, id, actualSize, now) => CanComplete(st, contaId, id, actualSize, now)
    case Release(contaId, id, to) => IsPendingOf(st, contaId, id) && to != Pending && to != Completed
  }

  /** Moves a pending reservation to another status and its bytes out of the reserved ones. */
  function Left(st: State, id: nat, to: ReservationStatus, used: nat): State
    requires id < |st.reservations| && st.reservations[id].quotaId < |st.quotas|
  {
    var item := st.reservations[id];
    var q := st.quotas[item.quotaId];
    st.(reservations := st.reservations[id := item.(status := to)],
        quotas := st.quotas[item.quotaId :=
                            q.(reservedBytes := q.reservedBytes - item.expectedSize, usedBytes := q.usedBytes + used)])
  }

  function After(st: State, s: Step): State
    requires AreLinked(st)
  {
    match s
    case Reserve(contaId, day, size, objectKey, expiresAt) =>
      if !IsReservable(st.limit, size) then st
      else
        var (quotas, q) := WithQuota(st.quotas, contaId, day);
        if !Fits(st, quotas[q], size) then st.(quotas := quotas)
        else st.(quotas := quotas[q := quotas[q].(reservedBytes := quotas[q].reservedBytes + size)],
                 reservations := st.reservations + [Reservation(contaId, q, objectKey, size, Pending, expiresAt)])
    case Complete(contaId, id, actualSize, _) =>
      if !Succeeds(st, s) then st
      else
        var commitment := Commitment(id, st.reservations[id].quotaId, actualSize);
        Left(st, id, Completed, actualSize).(log := st.log + [commitment])
    case Release(contaId, id, to) =>
      if !Succeeds(st, s) then st else Left(st, id, to, 0)
  }

  /** The foreign key: every reservation points to a quota of its own account. */
  predicate AreLinked(st: State) {
    forall id :: 0 <= id < |st.reservations| ==>
      && st.reservations[id].quotaId < |st.quotas|
      && st.quotas[st.reservations[id].quotaId].contaId == st.reservations[id].contaId
  }

  function Run(st: State, steps: seq<Step>): (r: State)
    requires AreLinked(st)
    ensures AreLinked(r)
    decreases |steps|
  {
    if steps == [] then st else StepKeepsLinks(st, steps[0]); Run(After(st, steps[0]), steps[1..])
  }

  lemma StepKeepsLinks(st: State, s: Step)
    requires AreLinked(st)
    ensures AreLinked(After(st, s))
  {
  }

  // ---------------------------------------------------------------- the accounts

  function PendingShare(r: Reservation, q: nat): nat {
    if r.quotaId == q && r.status == Pending then r.expectedSize else 0
  }

  function PendingBytes(rs: seq<Reservation>, q: nat): nat {
    if rs == [] then 0 else PendingBytes(rs[..|rs| - 1], q) + PendingShare(rs[|rs| - 1], q)
  }

  function CommittedBytes(log: seq<Commitment>, q: nat): nat {
    if log == [] then 0
    else CommittedBytes(log[..|log| - 1], q) + if log[|log| - 1].quotaId == q then log[|log| - 1].bytes else 0
  }

  lemma {:induction false} PendingBytesUpdate(rs: seq<Reservation>, id: nat, r: Reservation, q: nat)
    requires id < |rs|
    ensures PendingBytes(rs[id := r], q) == PendingBytes(rs, q) - PendingShare(rs[id], q) + PendingShare(r, q)
  {
    var n := |rs| - 1;
    if id == n {
      assert rs[id := r][..n] == rs[..n];
    } else {
      PendingBytesUpdate(rs[..n], id, r, q);
      assert rs[id := r][..n] == rs[..n][id := r];
    }
  }

  /** Reserved bytes are the pending reservations, used bytes the commitments, and both fit the daily limit. */
  ghost predicate IsBalanced(st: State) {
    && AreLinked(st)
    && (forall q :: 0 <= q < |st.quotas| ==>
        && st.quotas[q].reservedBytes == PendingBytes(st.reservations, q)
        && st.quotas[q].usedBytes == CommittedBytes(st.log, q)
        && st.quotas[q].usedBytes + st.quotas[q].reservedBytes <= st.limit)
    && (forall q :: q >= |st.quotas| ==> CommittedBytes(st.log, q) == 0 == PendingBytes(st.reservations, q))
  }

  /** One quota per account and day. */
  predicate HasUniqueQuotas(st: State) {
    forall p, q :: 0 <= p < q < |st.quotas| ==>
      !(st.quotas[p].contaId == st.quotas[q].contaId && st.quotas[p].day == st.quotas[q].day)
  }

  /** The entry belongs to a completed reservation of the same quota and has at most the bytes reserved for it. */
  predicate IsEntry(rs: seq<Reservation>, c: Commitment) {
    && c.reservationId < |rs| && rs[c.reservationId].status == Completed
    && rs[c.reservationId].quotaId == c.quotaId && c.bytes <= rs[c.reservationId].expectedSize
  }

  predicate IsLogged(log: seq<Commitment>, id: nat) {
    exists i :: 0 <= i < |log| && log[i].reservationId == id
  }

  /** The log holds exactly the completed reservations, each once. */
  predicate HasExactLog(st: State) {
    && (forall i :: 0 <= i < |st.log| ==> IsEntry(st.reservations, st.log[i]))
    && (forall i, j :: 0 <= i < j < |st.log| ==> st.log[i].reservationId != st.log[j].reservationId)
    && (forall id :: 0 <= id < |st.reservations| && st.reservations[id].status == Completed ==> IsLogged(st.log, id))
  }

  ghost predicate IsSound(st: State) {
    IsBalanced(st) && HasUniqueQuotas(st) && HasExactLog(st)
  }

  lemma LeavingKeepsBalance(st: State, id: nat, to: ReservationStatus, used: nat, log: seq<Commitment>)
    requires IsBalanced(st) && id < |st.reservations| && st.reservations[id].status == Pending && to != Pending
    requires used <= st.reservations[id].expectedSize
    requires if used == 0 then log == st.log else log == st.log + [Commitment(id, st.reservations[id].quotaId, used)]
    ensures IsBalanced(Left(st, id, to, used).(log := log))
  {
    var r := st.reservations[id];
    var final := Left(st, id, to, used).(log := log);
    forall q: nat
      ensures PendingBytes(final.reservations, q) ==
              PendingBytes(st.reservations, q) - if q == r.quotaId then r.expectedSize else 0
      ensures CommittedBytes(log, q) == CommittedBytes(st.log, q) + if q == r.quotaId then used else 0
    {
      PendingBytesUpdate(st.reservations, id, r.(status := to), q);
      if used > 0 {
        assert log[..|log| - 1] == st.log;
      }
    }
  }

  lemma NewQuotaKeepsBalance(st: State, contaId: string, day: int)
    requires IsBalanced(st)
    ensures IsBalanced(st.(quotas := WithQuota(st.quotas, contaId, day).0))
  {
  }

  lemma ReservingKeepsBalance(st: State, q: nat, r: Reservation)
    requires IsBalanced(st) && q < |st.quotas| && r.quotaId == q && r.status == Pending
    requires st.quotas[q].contaId == r.contaId && Fits(st, st.quotas[q], r.expectedSize)
    ensures var reserved := st.quotas[q].(reservedBytes := st.quotas[q].reservedBytes + r.expectedSize);
            IsBalanced(st.(quotas := st.quotas[q := reserved], reservations := st.reservations + [r]))
  {
    var rs := st.reservations + [r];
    assert rs[..|rs| - 1] == st.reservations;
    assert forall k: nat ::
        PendingBytes(rs, k) == PendingBytes(st.reservations, k) + if k == q then r.expectedSize else 0;
  }

  lemma StepKeepsBalance(st: State, s: Step)
    requires IsBalanced(st)
    ensures IsBalanced(After(st, s))
  {
    hide IsBalanced;
    assert AreLinked(st) by { BalanceIsLinked(st); }
    match s
    case Reserve(contaId, day, size, objectKey, expiresAt) =>
      NewQuotaKeepsBalance(st, contaId, day);
      var (quotas, q) := WithQuota(st.quotas, contaId, day);
      if Succeeds(st, s) {
        ReservingKeepsBalance(st.(quotas := quotas), q, Reservation(contaId, q, objectKey, size, Pending, expiresAt));
      }
    case Complete(contaId, id, actualSize, _) =>
      if Succeeds(st, s) {
        LeavingKeepsBalance(st, id, Completed, actualSize,
                            st.log + [Commitment(id, st.reservations[id].quotaId, actualSize)]);
      }
    case Release(contaId, id, to) =>
      if Succeeds(st, s) {
        LeavingKeepsBalance(st, id, to, 0, st.log);
        assert Left(st, id, to, 0).(log := st.log) == Left(st, id, to, 0);
      }
  }

  lemma BalanceIsLinked(st: State)
    requires IsBalanced(st)
    ensures AreLinked(st)
  {
  }

  lemma StepKeepsLog(st: State, s: Step)
    requires AreLinked(st) && HasExactLog(st)
    ensures HasExactLog(After(st, s))
  {
    match s
    case Reserve(_, _, _, _, _) => LogKeptByGrowth(st, After(st, s));
    case Release(_, _, _) =>
    case Complete(_, id, _, _) =>
      if Succeeds(st, s) {
        LogKeptByCompletion(st, After(st, s), id);
      }
  }

  lemma LogKeptByGrowth(st: State, next: State)
    requires HasExactLog(st) && next.log == st.log && st.reservations <= next.reservations
    requires forall id :: |st.reservations| <= id < |next.reservations| ==> next.reservations[id].status == Pending
    ensures HasExactLog(next)
  {
    assert forall id :: 0 <= id < |st.reservations| ==> next.reservations[id] == st.reservations[id];
  }

  lemma LogKeptByCompletion(st: State, next: State, id: nat)
    requires HasExactLog(st) && id < |st.reservations| && st.reservations[id].status == Pending
    requires next.reservations == st.reservations[id := st.reservations[id].(status := Completed)]
    requires |next.log| == |st.log| + 1 && next.log[..|st.log|] == st.log
    requires var last := next.log[|st.log|];
             last.reservationId == id && last.quotaId == st.reservations[id].quotaId
             && last.bytes <= st.reservations[id].expectedSize
    ensures HasExactLog(next)
  {
    assert forall i :: 0 <= i < |st.log| ==> next.log[i] == st.log[i];
    forall i | 0 <= i < |st.log| ensures IsEntry(next.reservations, next.log[i]) && next.log[i].reservationId != id {
      assert IsEntry(st.reservations, st.log[i]);
    }
    forall other | 0 <= other < |next.reservations| && next.reservations[other].status == Completed
      ensures IsLogged(next.log, other)
    {
      if other == id {
        assert next.log[|st.log|].reservationId == other;
      } else {
        assert IsLogged(st.log, other);
        var i :| 0 <= i < |st.log| && st.log[i].reservationId == other;
        assert next.log[i].reservationId == other;
      }
    }
  }

  lemma StepKeepsUnique(st: State, s: Step)
    requires AreLinked(st) && HasUniqueQuotas(st)
    ensures HasUniqueQuotas(After(st, s))
  {
  }

  /** In every run the accounts stay balanced, below the limit, and each completed reservation is counted once. */
  lemma {:induction false} RunKeepsSound(st: State, steps: seq<Step>)
    requires IsSound(st)
    ensures IsSound(Run(st, steps))
    decreases |steps|
  {
    hide After, HasExactLog, HasUniqueQuotas;
    if steps != [] {
      StepKeepsBalance(st, steps[0]);
      StepKeepsLog(st, steps[0]);
      StepKeepsUnique(st, steps[0]);
      RunKeepsSound(After(st, steps[0]), steps[1..]);
    }
  }

  /** A reservation keeps its owner, quota, size and deadline; once it has left PENDING it keeps its status. */
  predicate IsLaterVersion(r: Reservation, later: Reservation) {
    later == r.(status := later.status) && (r.status != Pending ==> later.status == r.status)
  }

  /** Over any run reservations are only added, and each leaves PENDING at most once. */
  lemma {:induction false} LeavesPendingOnce(st: State, steps: seq<Step>, id: nat)
    requires AreLinked(st) && id < |st.reservations|
    ensures id < |Run(st, steps).reservations|
    ensures IsLaterVersion(st.reservations[id], Run(st, steps).reservations[id])
    decreases |steps|
  {
    if steps != [] {
      StepKeepsLinks(st, steps[0]);
      LeavesPendingOnce(After(st, steps[0]), steps[1..], id);
    }
  }

  // ---------------------------------------------------------------- from reservation to completion

  /**
   A reservation succeeds exactly for a size of at least one byte that the limit allows beside what the account has used
   and reserved on that day. It is then pending, and its quota holds its bytes. A refused one leaves at most a new,
   empty quota.
   */
  lemma ReservesExactly(st: State, s: Step)
    requires AreLinked(st) && HasUniqueQuotas(st) && s.Reserve?
    ensures Succeeds(st, s) <==>
            && 1 <= s.size <= st.limit
            && forall q :: 0 <= q < |st.quotas| && st.quotas[q].contaId == s.contaId && st.quotas[q].day == s.day ==>
                 st.quotas[q].usedBytes + st.quotas[q].reservedBytes + s.size <= st.limit
    ensures !Succeeds(st, s) ==>
            var isKnown := exists q :: 0 <= q < |st.quotas|
                                       && st.quotas[q].contaId == s.contaId && st.quotas[q].day == s.day;
            After(st, s) == if isKnown || !(1 <= s.size <= st.limit) then st
                            else st.(quotas := st.quotas + [Quota(s.contaId, s.day, 0, 0)])
    ensures Succeeds(st, s) ==>
            var next := After(st, s);
            var created := Last(next.reservations);
            && next.reservations == st.reservations + [created]
            && created == Reservation(s.contaId, created.quotaId, s.objectKey, s.size, Pending, s.expiresAt)
            && created.quotaId < |next.quotas|
            && next.quotas[created.quotaId].contaId == s.contaId && next.quotas[created.quotaId].day == s.day
            && (created.quotaId < |st.quotas| ==>
                next.quotas == st.quotas[created.quotaId := st.quotas[created.quotaId].(
                  reservedBytes := st.quotas[created.quotaId].reservedBytes + s.size)])
            && (created.quotaId >= |st.quotas| ==> next.quotas == st.quotas + [Quota(s.contaId, s.day, 0, s.size)])
  {
    var (quotas, q) := WithQuota(st.quotas, s.contaId, s.day);
    if q < |st.quotas| {
      assert forall p :: 0 <= p < |st.quotas| && st.quotas[p].contaId == s.contaId && st.quotas[p].day == s.day ==>
          p == q;
    }
  }

  function Last(rs: seq<Reservation>): Reservation {
    if rs == [] then Reservation("", 0, "", 0, Expired, 0) else rs[|rs| - 1]
  }

  /** Another transaction than the completion or release of a reservation. */
  predicate LeavesPending(s: Step, id: nat) {
    match s
    case Reserve(_, _, _, _, _) => true
    case Complete(_, other, _, _) => other != id
    case Release(_, other, _) => other != id
  }

  lemma {:induction false} StaysPending(st: State, steps: seq<Step>, id: nat)
    requires AreLinked(st) && id < |st.reservations|
    requires forall i :: 0 <= i < |steps| ==> LeavesPending(steps[i], id)
    ensures id < |Run(st, steps).reservations| && Run(st, steps).reservations[id] == st.reservations[id]
    decreases |steps|
  {
    if steps != [] {
      StepKeepsLinks(st, steps[0]);
      StaysPending(After(st, steps[0]), steps[1..], id);
    }
  }

  /**
   A reservation that nobody ends meanwhile is completed by exactly its own account, with a size of at least one byte
   and at most the reserved one, until exactly its deadline.
   */
  lemma ReservedCompletesUntilDeadline(st: State, s: Step, steps: seq<Step>, contaId: string, actualSize: int, now: int)
    requires AreLinked(st) && s.Reserve? && Succeeds(st, s)
    requires forall i :: 0 <= i < |steps| ==> LeavesPending(steps[i], |st.reservations|)
    ensures AreLinked(After(st, s))
    ensures Succeeds(Run(After(st, s), steps), Complete(contaId, |st.reservations|, actualSize, now)) <==>
            contaId == s.contaId && 1 <= actualSize <= s.size && now < s.expiresAt
  {
    StepKeepsLinks(st, s);
    StaysPending(After(st, s), steps, |st.reservations|);
  }

  /** Leaving completes or releases the reservation, and its quota gives up the reserved bytes for the used ones. */
  lemma LeavingIs(st: State, s: Step)
    requires AreLinked(st) && (s.Complete? || s.Release?) && Succeeds(st, s)
    ensures s.id < |st.reservations| && st.reservations[s.id].quotaId < |st.quotas|
    ensures var next := After(st, s);
            var was := st.reservations[s.id];
            var q := st.quotas[was.quotaId];
            var used := if s.Complete? then s.actualSize else 0;
            && next.reservations == st.reservations[s.id := was.(status := if s.Complete? then Completed else s.to)]
            && next.quotas == st.quotas[was.quotaId := Quota(q.contaId, q.day, q.usedBytes + used,
                                                             q.reservedBytes - was.expectedSize)]
            && next.log == st.log + if s.Complete? then [Commitment(s.id, was.quotaId, s.actualSize)] else []
  {
  }

  // ---------------------------------------------------------------- the operations

  datatype ReserveResult = Reserved(id: nat, reservation: Reservation) | QuotaExceeded

  class UploadQuotas {
    var st: State

    method OtherTransactions(gap: seq<Step>)
      requires AreLinked(st)
      modifies this
      ensures AreLinked(st) && st == Run(old(st), gap)
    {
      st := Run(st, gap);
    }

    /** `reserveTenantUpload` at time `now`. */
    method ReserveTenantUpload(contaId: string, fileSize: int, objectKey: string, now: int) returns (r: ReserveResult)
      requires AreLinked(st)
      modifies this
      ensures AreLinked(st)
      ensures if IsReservable(old(st).limit, fileSize)
              then st == After(old(st),
                               Reserve(contaId, now / MS_PER_DAY, fileSize, objectKey, now + RESERVATION_TTL_MS))
              else st == old(st) && r.QuotaExceeded?
      ensures r.Reserved? ==>
              && r.id == |old(st).reservations| < |st.reservations| && st.reservations[r.id] == r.reservation
              && r.reservation.contaId == contaId && r.reservation.expectedSize == fileSize
              && r.reservation.status == Pending && r.reservation.expiresAt == now + RESERVATION_TTL_MS
      ensures r.QuotaExceeded? ==> st.reservations == old(st).reservations
      ensures r.Reserved? <==>
              fileSize >= 1
              && Succeeds(old(st), Reserve(contaId, now / MS_PER_DAY, fileSize, objectKey, now + RESERVATION_TTL_MS))
    {
      if !IsReservable(st.limit, fileSize) {
        return QuotaExceeded;
      }
      var (quotas, q) := WithQuota(st.quotas, contaId, now / MS_PER_DAY);
      st := st.(quotas := quotas);
      if !Fits(st, quotas[q], fileSize) {
        return QuotaExceeded;
      }
      var reservation := Reservation(contaId, q, objectKey, fileSize, Pending, now + RESERVATION_TTL_MS);
      st := st.(quotas := quotas[q := quotas[q].(reservedBytes := quotas[q].reservedBytes + fileSize)]);
      st := st.(reservations := st.reservations + [reservation]);
      r := Reserved(|st.reservations| - 1, reservation);
    }

    /**
     `completeTenantUpload`: reads the reservation, then moves it if it is still pending. Whatever commits in
     between, this acts as one transaction at the time of its write.
     */
    method CompleteTenantUpload(contaId: string, id: nat, actualSize: int, now: int, gap: seq<Step>)
      returns (done: bool)
      requires AreLinked(st)
      modifies this
      ensures AreLinked(st)
      ensures id < |old(st).reservations| ==>
              && st == After(Run(old(st), gap), Complete(contaId, id, actualSize, now))
              && (done <==> Succeeds(Run(old(st), gap), Complete(contaId, id, actualSize, now)))
              && id < |Run(old(st), gap).reservations|
              && (done <==>
                  var read, found := old(st).reservations[id], Run(old(st), gap).reservations[id];
                  && read.contaId == contaId && read.status == Pending && now < read.expiresAt
                  && 1 <= actualSize <= read.expectedSize && found.status == Pending)
              && (done ==> id < |st.reservations| && st.reservations[id].status == Completed)
      ensures id >= |old(st).reservations| ==> !done && st == Run(old(st), gap)
    {
      if id >= |st.reservations| {
        OtherTransactions(gap);
        return false;
      }
      LeavesPendingOnce(st, gap, id);
      var item := st.reservations[id];
      var found := item.contaId == contaId && item.status == Pending && item.expiresAt > now;
      OtherTransactions(gap);
      if !found || actualSize < 1 || actualSize > item.expectedSize {
        return false;
      }
      if !IsPendingOf(st, contaId, id) {
        return false;
      }
      var q := st.quotas[item.quotaId];
      st := st.(reservations := st.reservations[id := st.reservations[id].(status := Completed)],
                quotas := st.quotas[item.quotaId := q.(reservedBytes := q.reservedBytes - item.expectedSize,
                                                       usedBytes := q.usedBytes + actualSize)],
                log := st.log + [Commitment(id, item.quotaId, actualSize)]);
      StepKeepsLinks(Run(old(st), gap), Complete(contaId, id, actualSize, now));
      done := true;
    }

    /** `releaseTenantUpload`, with the read and the write apart in the same way. */
    method ReleaseTenantUpload(contaId: string, id: nat, to: ReservationStatus, gap: seq<Step>) returns (done: bool)
      requires AreLinked(st) && (to == Cancelled || to == Expired)
      modifies this
      ensures AreLinked(st)
      ensures id < |old(st).reservations| ==>
              && st == After(Run(old(st), gap), Release(contaId, id, to))
              && (done <==> Succeeds(Run(old(st), gap), Release(contaId, id, to)))
              && id < |Run(old(st), gap).reservations|
              && (done <==>
                  var read, found := old(st).reservations[id], Run(old(st), gap).reservations[id];
                  read.contaId == contaId && read.status == Pending && found.status == Pending)
              && id < |st.reservations| && !IsPendingOf(st, contaId, id)
      ensures id >= |old(st).reservations| ==> !done && st == Run(old(st), gap)
    {
      if id >= |st.reservations| {
        OtherTransactions(gap);
        return false;
      }
      LeavesPendingOnce(st, gap, id);
      var item := st.reservations[id];
      var found := item.contaId == contaId && item.status == Pending;
      OtherTransactions(gap);
      if !found || !IsPendingOf(st, contaId, id) {
        return false;
      }
      var q := st.quotas[item.quotaId];
      st := st.(reservations := st.reservations[id := st.reservations[id].(status := to)],
                quotas := st.quotas[item.quotaId := q.(reservedBytes := q.reservedBytes - item.expectedSize)]);
      StepKeepsLinks(Run(old(st), gap), Release(contaId, id, to));
      assert q == q.(usedBytes := q.usedBytes + 0);
      done := true;
    }

    /**
     `expireTenantUploadReservations`: lists the overdue reservations, then expires those still pending one by one.
     */
    method ExpireTenantUploadReservations(contaId: string, now: int, gap: seq<Step>) returns (keys: seq<string>)
      requires AreLinked(st)
      modifies this
      ensures AreLinked(st)
      ensures (st, keys) == ExpireAll(Run(old(st), gap), contaId, Overdue(old(st).reservations, contaId, now))
    {
      hide AreLinked, Overdue;
      var overdue := Overdue(st.reservations, contaId, now);
      OverdueExist(st.reservations, contaId, now);
      ghost var start := Run(st, gap);
      forall id | id in overdue ensures id < |start.reservations| {
        LeavesPendingOnce(st, gap, id);
      }
      OtherTransactions(gap);
      keys := [];
      for i := 0 to |overdue|
        invariant AreLinked(st) && |st.reservations| == |start.reservations|
        invariant (st, keys) == ExpireAll(start, contaId, overdue[..i])
      {
        var id := overdue[i];
        assert id in overdue;
        assert overdue[..i + 1][..i] == overdue[..i];
        StepKeepsLinks(st, Release(contaId, id, Expired));
        StepKeepsCount(st, Release(contaId, id, Expired));
        if IsPendingOf(st, contaId, id) {
          keys := keys + [st.reservations[id].objectKey];
          st := Left(st, id, Expired, 0);
        }
      }
      assert overdue[..|overdue|] == overdue;
    }

    /**
     `withTenantUploadQuota`: reserves, runs the action, completes, and releases when anything fails. The gaps are
     transactions of others during the action, the completion and the release.
     */
    method WithTenantUploadQuota(
      contaId: string, fileSize: int, objectKey: string, now: int, later: int, actionFails: bool,
      gap1: seq<Step>, gap2: seq<Step>, gap3: seq<Step>) returns (reserved: bool, thrown: bool, ghost id: nat)
      requires AreLinked(st)
      modifies this
      ensures AreLinked(st)
      ensures reserved <==>
              fileSize >= 1
              && Succeeds(old(st), Reserve(contaId, now / MS_PER_DAY, fileSize, objectKey, now + RESERVATION_TTL_MS))
      ensures reserved ==> id < |st.reservations| && st.reservations[id].contaId == contaId
      ensures reserved && thrown ==>
              fileSize >= 1 &&
              var first := After(old(st),
                                 Reserve(contaId, now / MS_PER_DAY, fileSize, objectKey, now + RESERVATION_TTL_MS));
              actionFails || !Succeeds(Run(Run(first, gap1), gap2), Complete(contaId, id, fileSize, later))
      ensures reserved && !thrown ==> !actionFails && st.reservations[id].status == Completed
      ensures reserved && thrown ==> st.reservations[id].status != Pending
      ensures !reserved ==> !thrown && st.reservations == old(st).reservations
    {
      hide After, Succeeds;
      var reservation := ReserveTenantUpload(contaId, fileSize, objectKey, now);
      thrown := false;
      if reservation.QuotaExceeded? {
        reserved, id := false, 0;
        return;
      }
      reserved, id := true, reservation.id;
      var key := reservation.id;
      LeavesPendingOnce(st, gap1, key);
      OtherTransactions(gap1);
      if !actionFails {
        LeavesPendingOnce(st, gap2, key);
        CompleteKeepsReservation(Run(st, gap2), contaId, key, fileSize, later);
        var completed := CompleteTenantUpload(contaId, key, fileSize, later, gap2);
        if completed {
          return;
        }
      }
      thrown := true;
      LeavesPendingOnce(st, gap3, key);
      ReleaseKeepsReservation(Run(st, gap3), contaId, key);
      var _ := ReleaseTenantUpload(contaId, key, Cancelled, gap3);
    }
  }

  lemma StepKeepsCount(st: State, s: Step)
    requires AreLinked(st) && s.Release?
    ensures |After(st, s).reservations| == |st.reservations|
    ensures Succeeds(st, s) ==> s.id < |st.reservations| && st.reservations[s.id].quotaId < |st.quotas|
  {
  }

  lemma CompleteKeepsReservation(st: State, contaId: string, id: nat, actualSize: int, now: int)
    requires AreLinked(st) && id < |st.reservations|
    ensures var next := After(st, Complete(contaId, id, actualSize, now));
            id < |next.reservations| && next.reservations[id].contaId == st.reservations[id].contaId
  {
  }

  lemma ReleaseKeepsReservation(st: State, contaId: string, id: nat)
    requires AreLinked(st) && id < |st.reservations|
    ensures var next := After(st, Release(contaId, id, Cancelled));
            id < |next.reservations| && next.reservations[id].contaId == st.reservations[id].contaId
  {
  }

  /** The pending reservations of an account whose deadline has passed. */
  function Overdue(rs: seq<Reservation>, contaId: string, now: int): seq<nat> {
    if rs == [] then []
    else
      var n := |rs| - 1;
      Overdue(rs[..n], contaId, now)
      + if rs[n].contaId == contaId && rs[n].status == Pending && rs[n].expiresAt <= now then [n] else []
  }

  lemma {:induction false} OverdueExist(rs: seq<Reservation>, contaId: string, now: int)
    ensures forall id: nat :: id in Overdue(rs, contaId, now) <==>
              id < |rs| && rs[id].contaId == contaId && rs[id].status == Pending && rs[id].expiresAt <= now
  {
    if rs != [] {
      var n := |rs| - 1;
      OverdueExist(rs[..n], contaId, now);
      assert forall id: nat :: id < n ==> rs[..n][id] == rs[id];
    }
  }

  /** Expires the listed reservations in order, collecting the object keys of those that were still pending. */
  function ExpireAll(st: State, contaId: string, ids: seq<nat>): (State, seq<string>)
    requires AreLinked(st)
    ensures AreLinked(ExpireAll(st, contaId, ids).0)
  {
    if ids == [] then (st, [])
    else
      var (before, keys) := ExpireAll(st, contaId, ids[..|ids| - 1]);
      var id := ids[|ids| - 1];
      StepKeepsLinks(before, Release(contaId, id, Expired));
      (After(before, Release(contaId, id, Expired)),
       if IsPendingOf(before, contaId, id) then keys + [before.reservations[id].objectKey] else keys)
  }

  /** The object keys of the listed reservations of an account that are pending, in the order of the list. */
  function PendingKeys(rs: seq<Reservation>, contaId: string, ids: seq<nat>): seq<string> {
    if ids == [] then []
    else
      var id := ids[|ids| - 1];
      PendingKeys(rs, contaId, ids[..|ids| - 1])
      + if id < |rs| && rs[id].contaId == contaId && rs[id].status == Pending then [rs[id].objectKey] else []
  }

  /** A listing names each reservation once. */
  predicate IsListing(ids: seq<nat>) {
    forall i, j :: 0 <= i < j < |ids| ==> ids[i] != ids[j]
  }

  lemma {:induction false} OverdueIsListing(rs: seq<Reservation>, contaId: string, now: int)
    ensures IsListing(Overdue(rs, contaId, now))
    ensures forall i :: 0 <= i < |Overdue(rs, contaId, now)| ==> Overdue(rs, contaId, now)[i] < |rs|
  {
    if rs != [] {
      OverdueIsListing(rs[..|rs| - 1], contaId, now);
    }
  }

  /**
   Expiring a listing expires exactly the listed reservations of the account that are pending when it starts, leaves all
   others alone, and returns exactly the object keys of the expired ones.
   */
  lemma {:induction false} ExpiresExactly(st: State, contaId: string, ids: seq<nat>)
    requires AreLinked(st) && IsListing(ids)
    ensures var (after, keys) := ExpireAll(st, contaId, ids);
            && |after.reservations| == |st.reservations| && keys == PendingKeys(st.reservations, contaId, ids)
            && forall id: nat :: id < |st.reservations| ==>
                 after.reservations[id] ==
                 if id in ids && st.reservations[id].contaId == contaId && st.reservations[id].status == Pending
                 then st.reservations[id].(status := Expired) else st.reservations[id]
  {
    if ids != [] {
      var n := |ids| - 1;
      ExpiresExactly(st, contaId, ids[..n]);
      assert forall id :: id in ids <==> id in ids[..n] || id == ids[n];
      assert ids[n] !in ids[..n];
    }
  }

  /** Expiring keeps the accounts sound, and afterwards no reservation that was listed is pending. */
  lemma {:induction false} ExpireAllExpires(st: State, contaId: string, ids: seq<nat>)
    requires IsSound(st)
    ensures IsSound(ExpireAll(st, contaId, ids).0)
    ensures forall id :: id in ids ==> !IsPendingOf(ExpireAll(st, contaId, ids).0, contaId, id)
  {
    hide HasExactLog, HasUniqueQuotas;
    if ids != [] {
      var n := |ids| - 1;
      ExpireAllExpires(st, contaId, ids[..n]);
      var before := ExpireAll(st, contaId, ids[..n]).0;
      var s := Release(contaId, ids[n], Expired);
      StepKeepsBalance(before, s);
      StepKeepsLog(before, s);
      StepKeepsUnique(before, s);
      assert forall id :: id in ids ==> id == ids[n] || id in ids[..n];
    }
  }
}
