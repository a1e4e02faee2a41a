/**
 School price bands: the band of a student count, the change of band after three equal monthly closes, and the
 plan a checkout resolves to.
 */
module PriceBand {
  import opened Wrappers
  import opened CivilDate

  /** The bands in ascending order, numbered from 1. */
  type Rank = r: int | 1 <= r <= 8 witness 1

  /** A plan code or a snapshot candidate: one of the eight bands or a value outside them. */
  datatype Code = Band(rank: Rank) | Specialist | Custom | OtherPlan

  const MAX_SAFE_INTEGER := 9_007_199_254_740_991

  function MaxStudents(r: Rank): int {
    match r as int
    case 1 => 25
    case 2 => 50
    case 3 => 100
    case 4 => 150
    case 5 => 200
    case 6 => 300
    case 7 => 400
    case _ => 500
  }

  function MinStudents(r: Rank): int {
    match r as int
    case 1 => 1
    case 2 => 26
    case 3 => 51
    case 4 => 101
    case 5 => 151
    case 6 => 201
    case 7 => 301
    case _ => 401
  }

  predicate Holds(r: Rank, count: int) {
    MinStudents(r) <= count <= MaxStudents(r)
  }

  /** The first band of the table, from `r` on, that holds the count. */
  function FindBand(count: int, r: Rank): (b: Option<Rank>)
    ensures b.Some? ==> Holds(b.value, count)
    decreases 8 - r
  {
    if Holds(r, count) then Some(r) else if r == 8 then None else FindBand(count, r + 1)
  }

  /** `resolveSchoolCommercialTarget`. */
  function CommercialTarget(count: int): Option<Code> {
    if count < 0 || count > MAX_SAFE_INTEGER then None
    else if count == 0 then Some(Band(1))
    else if count > 500 then Some(Specialist)
    else match FindBand(count, 1) case Some(r) => Some(Band(r)) case None => None
  }

  lemma {:induction false} FindBandFinds(count: int, r: Rank)
    requires MinStudents(r) <= count <= 500
    ensures FindBand(count, r).Some?
    decreases 8 - r
  {
    if !Holds(r, count) {
      FindBandFinds(count, r + 1);
    }
  }

  /** The bands cover 1 to 500 students without a gap or an overlap; no students count as the smallest band. */
  lemma TargetIsExact(count: int, r: Rank)
    requires 0 <= count <= MAX_SAFE_INTEGER
    ensures CommercialTarget(count) == Some(Specialist) <==> count > 500
    ensures count >= 1 ==> (CommercialTarget(count) == Some(Band(r)) <==> Holds(r, count))
    ensures count == 0 ==> CommercialTarget(count) == Some(Band(1))
  {
    if 1 <= count <= 500 {
      FindBandFinds(count, 1);
    }
  }

  /** The ladder of bands by their upper edges. */
  const EDGES: seq<int> := [0, 25, 50, 100, 150, 200, 300, 400, 500]

  /** A count from 1 on pays the band whose edge is the next one from the count up. */
  lemma BandByEdges(count: int, r: Rank)
    requires 1 <= count <= MAX_SAFE_INTEGER
    ensures CommercialTarget(count) == Some(Band(r)) <==> EDGES[r - 1] < count <= EDGES[r]
  {
    hide CommercialTarget;
    TargetIsExact(count, r);
  }

  /** No target at all for counts that are negative or not safe integers. */
  lemma NoTargetExactly(count: int)
    ensures CommercialTarget(count) == None <==> count < 0 || count >= 9_007_199_254_740_992
  {
    if 1 <= count <= 500 {
      FindBandFinds(count, 1);
    }
  }

  // ---------------------------------------------------------------- stable bands

  /** A monthly close: the start of its period and the band its student count called for. */
  datatype Snapshot = Snapshot(periodStart: int, candidate: Option<Code>)

  /** The stable sort by period, newest first. */
  function NewestFirst(snapshots: seq<Snapshot>): (r: seq<Snapshot>)
    ensures multiset(r) == multiset(snapshots) && |r| == |snapshots|
  {
    if snapshots == [] then []
    else
      assert snapshots == [snapshots[0]] + snapshots[1..];
      Insert(snapshots[0], NewestFirst(snapshots[1..]))
  }

  function Insert(x: Snapshot, sorted: seq<Snapshot>): (r: seq<Snapshot>)
    ensures multiset(r) == multiset(sorted) + multiset{x} && |r| == |sorted| + 1
  {
    if sorted == [] || x.periodStart >= sorted[0].periodStart then [x] + sorted
    else
      assert sorted == [sorted[0]] + sorted[1..];
      [sorted[0]] + Insert(x, sorted[1..])
  }

  /** `isPreviousUtcMonth`. */
  predicate IsPreviousMonth(newer: int, older: int) {
    var n, o := CivilOf(DayOfTime(newer)), CivilOf(DayOfTime(older));
    var expected := DateUtc(n.year, n.month - 2, 1);
    && expected.Some?
    && CivilOf(DayOfTime(expected.value)).year == o.year && CivilOf(DayOfTime(expected.value)).month == o.month
  }

  /** `resolveStableSchoolPriceBand`. */
  function StableBand(current: Option<Code>, snapshots: seq<Snapshot>): Option<Code> {
    var latest := NewestFirst(snapshots);
    if |latest| < 3 then None
    else
      var newest, second, third := latest[0], latest[1], latest[2];
      if newest.candidate != second.candidate || second.candidate != third.candidate
         || !IsPreviousMonth(newest.periodStart, second.periodStart)
         || !IsPreviousMonth(second.periodStart, third.periodStart)
         || newest.candidate == current
      then None
      else newest.candidate
  }

  /** Months counted over the years. */
  function MonthNumber(t: int): int {
    12 * CivilOf(DayOfTime(t)).year + CivilOf(DayOfTime(t)).month
  }

  /** The first day of the month before, as the check builds it; None beyond the first month that a Date can hold. */
  function ExpectedMonth(newer: int): Time {
    var n := CivilOf(DayOfTime(newer));
    DateUtc(n.year, n.month - 2, 1)
  }

  /**
   The month before, over year ends, is the one with the next smaller month number. Beside the first month that a Date
   can hold, the only exception are the years 0 to 99, which the check takes for 1900 to 1999.
   */
  lemma PreviousMonthIsExact(newer: int, older: int)
    ensures var isEarly := 0 <= CivilOf(DayOfTime(newer)).year <= 99;
            IsPreviousMonth(newer, older) <==>
            && ExpectedMonth(newer).Some?
            && MonthNumber(older) == MonthNumber(newer) - 1 + if isEarly then 12 * 1900 else 0
  {
    hide CivilOf, DayFromYear, DaysBeforeMonth, MakeDay;
    var n, o := CivilOf(DayOfTime(newer)), CivilOf(DayOfTime(older));
    CivilOfDay(DayOfTime(newer));
    CivilOfDay(DayOfTime(older));
    var year := FullYear(n.year);
    var e := if n.month == 1 then Civil(year - 1, 12, 1) else Civil(year, n.month - 1, 1);
    DayOfCivil(e);
    FirstOfMonthBefore(year, n.month);
  }

  lemma FirstOfMonthBefore(year: int, month: int)
    requires 1 <= month <= 12
    ensures MakeDay(year, month - 2, 1) ==
            DayOf(if month == 1 then Civil(year - 1, 12, 1) else Civil(year, month - 1, 1))
  {
    hide DayFromYear, DaysBeforeMonth;
  }

  /** In the years 101 to 9999 there is no exception. */
  lemma PreviousMonthOfLog(newer: int, older: int)
    requires 101 <= CivilOf(DayOfTime(newer)).year <= 9999
    ensures IsPreviousMonth(newer, older) <==> MonthNumber(older) == MonthNumber(newer) - 1
  {
    hide CivilOf, DayFromYear, DaysBeforeMonth, IsPreviousMonth, MonthNumber;
    PreviousMonthIsExact(newer, older);
    CivilOfDay(DayOfTime(newer));
    var n := CivilOf(DayOfTime(newer));
    var e := if n.month == 1 then Civil(n.year - 1, 12, 1) else Civil(n.year, n.month - 1, 1);
    YearsFit(e);
    assert MakeDay(n.year, n.month - 2, 1) == DayOf(e);
  }

  predicate IsSorted(s: seq<Snapshot>) {
    forall i, j :: 0 <= i < j < |s| ==> s[i].periodStart >= s[j].periodStart
  }

  predicate HasDistinctPeriods(s: seq<Snapshot>) {
    forall i, j :: 0 <= i < j < |s| ==> s[i].periodStart != s[j].periodStart
  }

  lemma {:induction false} InsertSorts(x: Snapshot, sorted: seq<Snapshot>)
    requires IsSorted(sorted)
    ensures IsSorted(Insert(x, sorted))
    ensures forall y :: y in Insert(x, sorted) <==> y == x || y in sorted
  {
    if sorted != [] && x.periodStart < sorted[0].periodStart {
      InsertSorts(x, sorted[1..]);
      var r := Insert(x, sorted[1..]);
      assert forall i :: 0 <= i < |r| ==> r[i] in r;
    }
  }

  lemma {:induction false} NewestFirstSorts(s: seq<Snapshot>)
    ensures IsSorted(NewestFirst(s))
    ensures forall y :: y in NewestFirst(s) <==> y in s
  {
    if s != [] {
      NewestFirstSorts(s[1..]);
      InsertSorts(s[0], NewestFirst(s[1..]));
    }
  }

  /** Equal contents with distinct periods have only one sorted order. */
  lemma {:induction false} SortedIsUnique(a: seq<Snapshot>, b: seq<Snapshot>)
    requires IsSorted(a) && IsSorted(b) && HasDistinctPeriods(a) && HasDistinctPeriods(b)
    requires multiset(a) == multiset(b)
    ensures a == b
  {
    assert |a| == |multiset(a)| == |multiset(b)| == |b|;
    if a != [] {
      FirstIsNewest(a, b);
      RestOf(a);
      RestOf(b);
      SortedIsUnique(a[1..], b[1..]);
    }
  }

  lemma RestOf(s: seq<Snapshot>)
    requires s != []
    ensures multiset(s[1..]) == multiset(s) - multiset{s[0]}
  {
    assert s == [s[0]] + s[1..];
  }

  lemma FirstIsNewest(a: seq<Snapshot>, b: seq<Snapshot>)
    requires IsSorted(a) && IsSorted(b) && HasDistinctPeriods(a) && multiset(a) == multiset(b)
    requires a != [] && b != []
    ensures a[0] == b[0]
  {
    assert a[0] in multiset(a) && b[0] in multiset(b);
    assert a[0] in b && b[0] in a;
  }

  lemma PermutationIsDistinct(a: seq<Snapshot>, b: seq<Snapshot>)
    requires multiset(a) == multiset(b) && HasDistinctPeriods(a)
    ensures HasDistinctPeriods(b)
  {
    forall i, j | 0 <= i < j < |b| ensures b[i].periodStart != b[j].periodStart {
      if b[i] == b[j] {
        assert b == b[..i] + [b[i]] + b[i + 1..j] + [b[j]] + b[j + 1..];
        assert multiset(b)[b[i]] >= 2;
        DistinctCountsOnce(a, b[i]);
      } else {
        assert b[i] in multiset(b) && b[j] in multiset(b);
        assert b[i] in a && b[j] in a;
      }
    }
  }

  lemma {:induction false} DistinctCountsOnce(a: seq<Snapshot>, x: Snapshot)
    requires HasDistinctPeriods(a)
    ensures multiset(a)[x] <= 1
  {
    if a != [] {
      assert a == [a[0]] + a[1..];
      DistinctCountsOnce(a[1..], x);
      if x == a[0] {
        assert x !in a[1..];
      }
    }
  }

  /** The decision does not depend on the order in which the snapshots are listed. */
  lemma OrderIsIrrelevant(current: Option<Code>, a: seq<Snapshot>, b: seq<Snapshot>)
    requires multiset(a) == multiset(b) && HasDistinctPeriods(a)
    ensures StableBand(current, a) == StableBand(current, b)
  {
    hide IsPreviousMonth;
    NewestFirstSorts(a);
    NewestFirstSorts(b);
    PermutationIsDistinct(a, NewestFirst(a));
    PermutationIsDistinct(a, NewestFirst(b));
    SortedIsUnique(NewestFirst(a), NewestFirst(b));
  }

  /** The snapshots `older` do not matter beside three or more newer ones. */
  lemma OlderIsIrrelevant(current: Option<Code>, newer: seq<Snapshot>, older: seq<Snapshot>)
    requires HasDistinctPeriods(newer + older) && |newer| >= 3
    requires forall n, o :: n in newer && o in older ==> n.periodStart > o.periodStart
    ensures StableBand(current, newer + older) == StableBand(current, newer)
  {
    hide IsPreviousMonth, NewestFirst, IsSorted, HasDistinctPeriods;
    var n, o, all := NewestFirst(newer), NewestFirst(older), NewestFirst(newer + older);
    NewestFirstSorts(newer + older);
    JoinedIsSorted(newer, older);
    PermutationIsDistinct(newer + older, n + o);
    PermutationIsDistinct(newer + older, all);
    SortedIsUnique(n + o, all);
    assert |n| == |newer|;
  }

  lemma JoinedIsSorted(newer: seq<Snapshot>, older: seq<Snapshot>)
    requires forall n, o :: n in newer && o in older ==> n.periodStart > o.periodStart
    ensures IsSorted(NewestFirst(newer) + NewestFirst(older))
  {
    hide NewestFirst;
    var n, o := NewestFirst(newer), NewestFirst(older);
    NewestFirstSorts(newer);
    NewestFirstSorts(older);
    var joined: seq<Snapshot> := n + o;
    forall i, j | 0 <= i < j < |joined| ensures joined[i].periodStart >= joined[j].periodStart {
      if i < |n| <= j {
        assert n[i] in n && o[j - |n|] in o;
      }
    }
  }

  /** Deciding again after applying the decision yields no change. */
  lemma DecidingAgainChangesNothing(current: Option<Code>, snapshots: seq<Snapshot>)
    ensures StableBand(current, snapshots).Some? ==> StableBand(StableBand(current, snapshots), snapshots) == None
  {
    hide IsPreviousMonth, NewestFirst;
  }

  // ---------------------------------------------------------------- whole runs

  /** One snapshot per month, appended month by month; months may be missing. */
  predicate IsMonthlyLog(snapshots: seq<Snapshot>) {
    && (forall i :: 0 <= i < |snapshots| ==> 101 <= CivilOf(DayOfTime(snapshots[i].periodStart)).year <= 9999)
    && (forall i, j :: 0 <= i < j < |snapshots| ==> snapshots[i].periodStart < snapshots[j].periodStart)
  }

  /** A log in ascending order sorts to its reverse: the newest three are its last three. */
  lemma {:induction false} LogSortsBackwards(s: seq<Snapshot>)
    requires forall i, j :: 0 <= i < j < |s| ==> s[i].periodStart < s[j].periodStart
    ensures |NewestFirst(s)| == |s|
    ensures forall i :: 0 <= i < |s| ==> NewestFirst(s)[i] == s[|s| - 1 - i]
  {
    if s != [] {
      LogSortsBackwards(s[1..]);
      InsertOldest(s[0], NewestFirst(s[1..]));
    }
  }

  lemma {:induction false} InsertOldest(x: Snapshot, sorted: seq<Snapshot>)
    requires forall i :: 0 <= i < |sorted| ==> x.periodStart < sorted[i].periodStart
    ensures Insert(x, sorted) == sorted + [x]
  {
    if sorted != [] {
      InsertOldest(x, sorted[1..]);
    }
  }

  /** After the newest close the band changes exactly when three closes of consecutive months agree on another one. */
  lemma DecisionIsExact(current: Option<Code>, log: seq<Snapshot>, code: Code)
    requires IsMonthlyLog(log)
    ensures StableBand(current, log) == Some(code) <==>
            && |log| >= 3 && current != Some(code)
            && var n := |log| - 1;
               && log[n].candidate == log[n - 1].candidate == log[n - 2].candidate == Some(code)
               && MonthNumber(log[n].periodStart) == MonthNumber(log[n - 1].periodStart) + 1
                                                  == MonthNumber(log[n - 2].periodStart) + 2
  {
    hide CivilOf, IsPreviousMonth, MonthNumber, NewestFirst;
    LogSortsBackwards(log);
    if |log| >= 3 {
      var n := |log| - 1;
      PreviousMonthOfLog(log[n].periodStart, log[n - 1].periodStart);
      PreviousMonthOfLog(log[n - 1].periodStart, log[n - 2].periodStart);
    }
  }

  /**
   The band in force before close `k`. At each close the decision may be applied or, for reasons outside this
   module, not; a specialist decision is never a band to apply.
   */
  function BandBefore(start: Option<Code>, log: seq<Snapshot>, applies: nat -> bool, k: nat): Option<Code>
    requires k <= |log|
  {
    if k == 0 then start
    else
      var before := BandBefore(start, log, applies, k - 1);
      var decision := StableBand(before, log[..k]);
      if decision.Some? && decision.value.Band? && applies(k - 1) then decision else before
  }

  predicate ChangesAt(start: Option<Code>, log: seq<Snapshot>, applies: nat -> bool, k: nat)
    requires k < |log|
  {
    BandBefore(start, log, applies, k + 1) != BandBefore(start, log, applies, k)
  }

  /** A change at close `k` means that the last three closes up to `k` call for the new band. */
  lemma ChangeIsSupported(start: Option<Code>, log: seq<Snapshot>, applies: nat -> bool, k: nat)
    requires IsMonthlyLog(log) && k < |log| && ChangesAt(start, log, applies, k)
    ensures k >= 2
    ensures BandBefore(start, log, applies, k + 1) ==
            log[k].candidate == log[k - 1].candidate == log[k - 2].candidate
    ensures MonthNumber(log[k].periodStart) == MonthNumber(log[k - 2].periodStart) + 2
  {
    hide CivilOf, StableBand, MonthNumber;
    var before := BandBefore(start, log, applies, k);
    var decision := StableBand(before, log[..k + 1]);
    DecisionIsExact(before, log[..k + 1], decision.value);
  }

  /** Any two changes of the band lie at least three monthly closes apart. */
  lemma ChangesAreThreeClosesApart(start: Option<Code>, log: seq<Snapshot>, applies: nat -> bool, i: nat, j: nat)
    requires IsMonthlyLog(log) && i < j < |log|
    requires ChangesAt(start, log, applies, i) && ChangesAt(start, log, applies, j)
    ensures j >= i + 3
  {
    hide BandBefore, IsMonthlyLog, MonthNumber;
    ChangeIsSupported(start, log, applies, i);
    ChangeIsSupported(start, log, applies, j);
    if j == i + 2 && ChangesAt(start, log, applies, i + 1) {
      ChangeIsSupported(start, log, applies, i + 1);
    }
  }

  // ---------------------------------------------------------------- checkout

  datatype Onboarding = Onboarding(completed: bool, studentCount: Option<int>)

  datatype Invitation = Invitation(isCustom: bool, stripePriceId: Option<string>, studentCount: Option<int>)

  datatype Context = Context(
    activeStudents: int, planCode: Option<Code>, isStatusCanceled: bool, isAccessCanceled: bool,
    onboarding: Option<Onboarding>, snapshots: seq<Snapshot>, invitation: Option<Invitation>)

  datatype Resolution =
    | Resolved(plan: Code, currentBand: Option<Code>, studentCount: int, priceId: Option<string>)
    | ConfirmedSpecialist
    | AboveSelfService(studentCount: int)
    | Unstable

  /** The count declared in a completed onboarding; zero counts as none. */
  function Declared(c: Context): Option<int> {
    if c.onboarding.Some? && c.onboarding.value.completed && GetOr(c.onboarding.value.studentCount, 0) != 0
    then c.onboarding.value.studentCount else None
  }

  /** Whether a completed onboarding holds a count at all, zero included. */
  predicate HasDeclaration(c: Context) {
    c.onboarding.Some? && c.onboarding.value.completed && c.onboarding.value.studentCount.Some?
  }

  /** `resolvePlatformBillingCheckoutPlan` on a loaded context. */
  function CheckoutPlan(c: Context): Resolution {
    if c.invitation.Some? && c.invitation.value.isCustom then
      var declared := GetOr(Declared(c), GetOr(c.invitation.value.studentCount, 0));
      var count := if HasDeclaration(c) then declared else if c.activeStudents > 0 then c.activeStudents else declared;
      if GetOr(c.invitation.value.stripePriceId, "") == "" then Unstable
      else Resolved(Custom, None, count, c.invitation.value.stripePriceId)
    else
      var currentBand := if c.planCode.Some? && c.planCode.value.Band? then c.planCode else None;
      var stable := StableBand(currentBand, c.snapshots);
      if stable == Some(Specialist) then ConfirmedSpecialist
      else if c.planCode.Some? && !c.planCode.value.Band? && !(c.isStatusCanceled && c.isAccessCanceled) then Unstable
      else if currentBand.Some? then Resolved(currentBand.value, currentBand, c.activeStudents, None)
      else
        var count := if c.invitation.Some? && HasDeclaration(c) then GetOr(Declared(c), 0)
                     else if c.activeStudents > 0 then c.activeStudents else GetOr(Declared(c), 0);
        match CommercialTarget(count)
        case Some(Band(r)) => Resolved(Band(r), currentBand, count, None)
        case _ => AboveSelfService(count)
  }

  /** The context with other live and declared student counts. */
  function WithCounts(c: Context, activeStudents: int, onboarding: Option<Onboarding>): Context {
    c.(activeStudents := activeStudents, onboarding := onboarding)
  }

  /** A confirmed band is the plan whatever the live and declared counts are, until the closes call for a specialist. */
  lemma ConfirmedBandIgnoresCounts(c: Context, r: Rank, activeStudents: int, onboarding: Option<Onboarding>)
    requires c.planCode == Some(Band(r)) && !(c.invitation.Some? && c.invitation.value.isCustom)
    ensures var other := CheckoutPlan(WithCounts(c, activeStudents, onboarding));
            if StableBand(Some(Band(r)), c.snapshots) == Some(Specialist)
            then other == CheckoutPlan(c) == ConfirmedSpecialist
            else other == Resolved(Band(r), Some(Band(r)), activeStudents, None)
                 && CheckoutPlan(c) == Resolved(Band(r), Some(Band(r)), c.activeStudents, None)
  {
    hide StableBand;
  }

  /** Without a plan and without a specialist decision, the plan is the band of the effective count. */
  lemma NewSchoolPaysItsBand(c: Context, r: Rank)
    requires c.planCode.None? && c.invitation.None? && 1 <= c.activeStudents <= MAX_SAFE_INTEGER
    requires StableBand(None, c.snapshots) != Some(Specialist)
    ensures CheckoutPlan(c) == Resolved(Band(r), None, c.activeStudents, None) <==> Holds(r, c.activeStudents)
    ensures CheckoutPlan(c) == AboveSelfService(c.activeStudents) <==> c.activeStudents > 500
  {
    hide StableBand, CommercialTarget;
    TargetIsExact(c.activeStudents, r);
    var target := CommercialTarget(c.activeStudents);
    if c.activeStudents <= 500 {
      TargetIsBand(c.activeStudents);
    }
  }

  /** The count of a completed onboarding, or none. */
  function Completed(c: Context): Option<int> {
    if c.onboarding.Some? && c.onboarding.value.completed then c.onboarding.value.studentCount else None
  }

  /**
   A custom invitation resolves to its own price, or not at all without one. Its count is the declared one if the
   onboarding is completed, else the live one, and the invitation's own where these are zero or missing.
   */
  lemma CustomInvitationPlan(c: Context)
    requires c.invitation.Some? && c.invitation.value.isCustom
    ensures var own := if c.invitation.value.studentCount.Some? then c.invitation.value.studentCount.value else 0;
            var count := match Completed(c)
                         case Some(n) => if n != 0 then n else own
                         case None => if c.activeStudents > 0 then c.activeStudents else own;
            var price := c.invitation.value.stripePriceId;
            CheckoutPlan(c) ==
            if price.None? || price == Some("") then Unstable else Resolved(Custom, None, count, price)
  {
    hide StableBand, CommercialTarget;
  }

  /** Without a custom invitation the plan is unstable exactly for one outside the bands that is not fully canceled. */
  lemma UnstableExactly(c: Context)
    requires c.invitation.Some? ==> !c.invitation.value.isCustom
    requires var band := if c.planCode.Some? && c.planCode.value.Band? then c.planCode else None;
             StableBand(band, c.snapshots) != Some(Specialist)
    ensures CheckoutPlan(c) == Unstable <==>
            c.planCode.Some? && !c.planCode.value.Band? && !(c.isStatusCanceled && c.isAccessCanceled)
  {
    hide StableBand, CommercialTarget;
  }

  /**
   Without a band in force the plan follows a count: for an invited school the declared one if the onboarding holds one,
   else the live one, else the declared one. The count pays its band, none the first, and one beyond them a specialist.
   */
  lemma PlanFollowsCount(c: Context, r: Rank)
    requires c.invitation.Some? ==> !c.invitation.value.isCustom
    requires c.planCode.None? || (!c.planCode.value.Band? && c.isStatusCanceled && c.isAccessCanceled)
    requires StableBand(None, c.snapshots) != Some(Specialist)
    ensures var declared := if Completed(c).Some? then Completed(c).value else 0;
            var count := if c.invitation.Some? && Completed(c).Some? then declared
                         else if c.activeStudents > 0 then c.activeStudents else declared;
            && (CheckoutPlan(c) == Resolved(Band(r), None, count, None) <==>
                (count == 0 && r == 1) || EDGES[r - 1] < count <= EDGES[r])
            && (CheckoutPlan(c) == AboveSelfService(count) <==> count > 500 || count < 0)
  {
    hide StableBand, CommercialTarget;
    var declared := if Completed(c).Some? then Completed(c).value else 0;
    var count := if c.invitation.Some? && Completed(c).Some? then declared
                 else if c.activeStudents > 0 then c.activeStudents else declared;
    CountPays(count, r);
  }

  lemma CountPays(count: int, r: Rank)
    ensures CommercialTarget(count) == Some(Band(r)) <==> (count == 0 && r == 1) || EDGES[r - 1] < count <= EDGES[r]
    ensures (CommercialTarget(count).Some? && CommercialTarget(count).value.Band?) <==> 0 <= count <= 500
  {
    NoTargetExactly(count);
    if 1 <= count <= MAX_SAFE_INTEGER {
      BandByEdges(count, r);
      if count <= 500 {
        TargetIsBand(count);
      } else {
        TargetIsExact(count, r);
      }
    }
  }

  lemma TargetIsBand(count: int)
    requires 1 <= count <= 500
    ensures CommercialTarget(count).Some? && CommercialTarget(count).value.Band?
  {
    FindBandFinds(count, 1);
  }
}
