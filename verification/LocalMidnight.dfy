/**
 The instant at which a civil date starts in a timezone: a fixed-point iteration on the wall clock,
 and a minute-by-minute scan for the dates whose midnight the timezone skips.
 */
module LocalMidnight {
  import opened Wrappers
  import opened CivilDate

  const MINUTE := 60_000
  const HOUR := 3_600_000

  /** A timezone: the offset from UTC, in milliseconds, observed at each instant. */
  type Zone = int -> int

  datatype StartError = NoDate | InvalidTime | NoLocalStart

  function WallClock(zone: Zone, t: int): int {
    t + zone(t)
  }

  /** What the formatter's parts rebuild: the wall clock by its fields, down to the second. */
  function Observed(zone: Zone, t: int): int {
    var w := WallClock(zone, t);
    var c := CivilOf(DayOfTime(w));
    MakeDay(FullYear(c.year), c.month - 1, c.day) * MS_PER_DAY + w % MS_PER_DAY / 1000 * 1000
  }

  function LocalKey(zone: Zone, t: int): string {
    KeyText(Some(WallClock(zone, t)))
  }

  /** The wall clock the search aims at. Splitting the key of a negative year at its dashes shifts the fields. */
  function Target(c: Civil): Time {
    if c.year >= 0 then DateUtc(c.year, c.month - 1, c.day) else DateUtc(0, -c.year - 1, c.month)
  }

  /**
   Dates before the year 100 are misread: those of the years 0 to 99 start in the 1900s, and those of the last twelve
   years before the year 0 on the day of their month in the month of their year, in 1900.
   */
  lemma EarlyDatesAreMisread(c: Civil)
    requires c.month < 13 && 1 <= c.month
    ensures 0 <= c.year <= 99 ==> Target(c) == DateUtc(1900 + c.year, c.month - 1, c.day)
    ensures -12 <= c.year < 0 && c.month <= 12 ==>
              Target(c) == Some(DayOf(Civil(1900, -c.year, c.month)) * MS_PER_DAY)
  {
    hide MakeDay;
    if -12 <= c.year < 0 {
      YearsFit(Civil(1900, -c.year, c.month));
    }
  }

  /** At most `left` corrections; the flag tells whether one of them was zero. */
  function Iterate(zone: Zone, target: int, candidate: int, left: nat): (int, bool)
    decreases left
  {
    if left == 0 then (candidate, false)
    else
      var correction := target - Observed(zone, candidate);
      if correction == 0 then (candidate, true) else Iterate(zone, target, candidate + correction, left - 1)
  }

  /** The first minute from `instant` to `end` that lies on the given date. */
  function Scan(zone: Zone, key: string, instant: int, end: int): Option<int>
    decreases end - instant
  {
    if instant > end then None
    else if LocalKey(zone, instant) == key then Some(instant)
    else Scan(zone, key, instant + MINUTE, end)
  }

  function StartInstant(zone: Zone, value: Time): Result<int, StartError> {
    match value
    case None => Thrown(NoDate)
    case Some(t) =>
      match Target(CivilOf(DayOfTime(t)))
      case None => Thrown(InvalidTime)
      case Some(target) =>
        var (candidate, found) := Iterate(zone, target, target, 4);
        if found then Ok(candidate)
        else match Scan(zone, KeyText(value), candidate - 18 * HOUR, candidate + 36 * HOUR)
          case Some(instant) => Ok(instant)
          case None => Thrown(NoLocalStart)
  }

  /** `getAcademicDateStartInstant`. */
  method GetAcademicDateStartInstant(value: Time, zone: Zone) returns (r: Result<int, StartError>)
    ensures r == StartInstant(zone, value)
  {
    hide CivilOf, Target, Observed, KeyText, LocalKey;
    if value.None? {
      return Thrown(NoDate);
    }
    var key := KeyText(value);
    var wanted := Target(CivilOf(DayOfTime(value.value)));
    if wanted.None? {
      return Thrown(InvalidTime);
    }
    var target := wanted.value;
    var candidate := target;
    for attempt := 0 to 4
      invariant Iterate(zone, target, candidate, 4 - attempt) == Iterate(zone, target, target, 4)
    {
      var correction := target - Observed(zone, candidate);
      candidate := candidate + correction;
      if correction == 0 {
        return Ok(candidate);
      }
    }
    var instant, end := candidate - 18 * HOUR, candidate + 36 * HOUR;
    while instant <= end
      invariant Scan(zone, key, instant, end) == Scan(zone, key, candidate - 18 * HOUR, end)
    {
      if LocalKey(zone, instant) == key {
        return Ok(instant);
      }
      instant := instant + MINUTE;
    }
    r := Thrown(NoLocalStart);
  }

  /**
   Around the given midnight the timezone has offset `a` before the instant `change` and `b` from then on;
   both offsets and the change are whole minutes and the jump is under 18 hours.
   With `a == b` the offset does not change at all.
   */
  ghost predicate OneChange(zone: Zone, target: int, a: int, b: int, change: int) {
    && a % MINUTE == 0 && b % MINUTE == 0 && change % MINUTE == 0
    && -18 * HOUR <= a <= 18 * HOUR && -18 * HOUR <= b <= 18 * HOUR
    && -18 * HOUR < b - a < 18 * HOUR
    && forall t :: InWindow(target, t) ==> zone(t) == if t < change then a else b
  }

  predicate InWindow(target: int, t: int) {
    target - 36 * HOUR <= t <= target + 36 * HOUR
  }

  /** The instant shows the wall clock of the wanted midnight. */
  predicate ShowsMidnight(zone: Zone, target: int, t: int) {
    InWindow(target, t) && WallClock(zone, t) == target
  }

  /** The instant is the earliest one of the local date that starts at `target`. */
  ghost predicate IsFirstOfDate(zone: Zone, target: int, r: int) {
    && InWindow(target, r) && OnDate(zone, target, r)
    && forall t :: InWindow(target, t) && OnDate(zone, target, t) ==> r <= t
  }

  predicate OnDate(zone: Zone, target: int, t: int) {
    target <= WallClock(zone, t) < target + MS_PER_DAY
  }

  /** The stored value whose date is looked up, and the midnight that date has in UTC. */
  predicate Wanted(value: Time, target: int) {
    && value.Some?
    && 1000 <= CivilOf(DayOfTime(value.value)).year <= 9999
    && target == DayOfTime(value.value) * MS_PER_DAY
  }

  lemma TargetIsMidnight(value: Time, target: int)
    requires Wanted(value, target)
    ensures Target(CivilOf(DayOfTime(value.value))) == Some(target)
  {
    hide CivilOf, MakeDay, IsCivil, DayFromYear;
    CivilOfDay(DayOfTime(value.value));
    YearsFit(CivilOf(DayOfTime(value.value)));
  }

  /** Rebuilding a whole-second wall clock from its fields loses nothing. */
  lemma ObservedIsWallClock(zone: Zone, t: int)
    requires WallClock(zone, t) % 1000 == 0 && CivilOf(DayOfTime(WallClock(zone, t))).year >= 100
    ensures Observed(zone, t) == WallClock(zone, t)
  {
    hide CivilOf, MakeDay, IsCivil;
    var w := WallClock(zone, t);
    CivilOfDay(DayOfTime(w));
    assert w % MS_PER_DAY % 1000 == 0 by {
      assert w == MS_PER_DAY * (w / MS_PER_DAY) + w % MS_PER_DAY;
    }
  }

  /** Near a four-digit year the year stays above 100. */
  lemma YearNear(value: Time, target: int, t: int)
    requires Wanted(value, target)
    requires target - 100 * HOUR <= t <= target + 100 * HOUR
    ensures CivilOf(DayOfTime(t)).year >= 100
  {
    hide CivilOf, MakeDay, IsCivil, YearOfDay;
    var d := DayOfTime(value.value);
    CivilOfDay(d);
    DayWithinYear(CivilOf(d));
    YearsIncrease(100, 1000);
    YearsIncrease(1000, CivilOf(d).year);
    NotBeforeYear(DayOfTime(t), 100);
    YearOfCivil(DayOfTime(t));
  }

  /** Whole-minute instants of the window are read off exactly. */
  lemma ObservedInWindow(zone: Zone, value: Time, target: int, a: int, b: int, change: int, t: int)
    requires Wanted(value, target) && OneChange(zone, target, a, b, change)
    requires InWindow(target, t) && t % MINUTE == 0
    ensures Observed(zone, t) == WallClock(zone, t) == t + if t < change then a else b
  {
    hide CivilOf, Observed, Wanted;
    YearNear(value, target, WallClock(zone, t));
    MinutesAdd(t, if t < change then a else b);
    ObservedIsWallClock(zone, t);
  }

  lemma WholeMinutes(n: int, m: int)
    ensures (MINUTE * n + MINUTE * m) % MINUTE == 0 && (MINUTE * n - MINUTE * m) % MINUTE == 0
    ensures (MINUTE * n + MINUTE * m) % 1000 == 0
  {
    MultipleOfMinute(n + m);
    MultipleOfMinute(n - m);
  }

  lemma MultipleOfMinute(k: int)
    ensures (MINUTE * k) % MINUTE == 0 && (MINUTE * k) % 1000 == 0
  {
    assert MINUTE * k == 1000 * (60 * k);
  }

  lemma MinutesAdd(x: int, y: int)
    requires x % MINUTE == 0 && y % MINUTE == 0
    ensures (x + y) % MINUTE == 0 && (x - y) % MINUTE == 0 && (x + y) % 1000 == 0
  {
    WholeMinutes(x / MINUTE, y / MINUTE);
    assert x == MINUTE * (x / MINUTE) && y == MINUTE * (y / MINUTE);
  }

  /** The local date is the wanted one exactly when the wall clock lies within its 24 hours. */
  lemma LocalKeyIsDate(zone: Zone, value: Time, target: int, t: int)
    requires Wanted(value, target)
    ensures LocalKey(zone, t) == KeyText(value) <==> OnDate(zone, target, t)
  {
    hide CivilOf, KeyOf, IsCivil, ParseDateOnly;
    KeyParses(value.value);
    KeyParses(WallClock(zone, t));
    assert OnDate(zone, target, t) <==> DayOfTime(WallClock(zone, t)) == DayOfTime(value.value);
  }

  /** Which of the two candidate instants shows midnight. */
  lemma MidnightCandidates(zone: Zone, target: int, a: int, b: int, change: int)
    requires OneChange(zone, target, a, b, change)
    ensures ShowsMidnight(zone, target, target - a) <==> a == b || target - a < change
    ensures ShowsMidnight(zone, target, target - b) <==> a == b || target - b >= change
    ensures forall t :: ShowsMidnight(zone, target, t) ==> t == target - a || t == target - b
  {
  }

  /** Four attempts are enough for two candidates that point at each other. */
  lemma FourAttempts(zone: Zone, target: int, first: int, other: int)
    requires target + (target - Observed(zone, target)) == first
    requires Observed(zone, first) != target ==> first + (target - Observed(zone, first)) == other
    requires Observed(zone, other) != target ==> other + (target - Observed(zone, other)) == first
    ensures var (r, found) := Iterate(zone, target, target, 4);
            && found == (Observed(zone, first) == target || Observed(zone, other) == target)
            && (r == first || r == other)
            && (Observed(zone, first) == target ==> r == first)
            && (Observed(zone, first) != target && found ==> r == other)
  {
    hide Observed, Iterate;
    IterateStep(zone, target, target, 4);
    IterateStep(zone, target, first, 3);
    IterateStep(zone, target, other, 2);
    IterateStep(zone, target, first, 1);
    IterateStep(zone, target, other, 1);
  }

  /** The iteration only ever visits the target and the two candidate instants. */
  lemma IterateFinds(zone: Zone, value: Time, target: int, a: int, b: int, change: int)
    requires Wanted(value, target) && OneChange(zone, target, a, b, change)
    ensures var (r, found) := Iterate(zone, target, target, 4);
            && (r == target - a || r == target - b)
            && found == (ShowsMidnight(zone, target, target - a) || ShowsMidnight(zone, target, target - b))
            && (found ==> r == if ShowsMidnight(zone, target, target - zone(target)) then target - zone(target)
                               else target - a - b + zone(target))
  {
    hide CivilOf, Observed, Wanted, Iterate;
    WantedIsMinute(value, target);
    MinutesAdd(target, a);
    MinutesAdd(target, b);
    ObservedInWindow(zone, value, target, a, b, change, target);
    ObservedInWindow(zone, value, target, a, b, change, target - a);
    ObservedInWindow(zone, value, target, a, b, change, target - b);
    FourAttempts(zone, target, target - zone(target), target - a - b + zone(target));
  }

  lemma WantedIsMinute(value: Time, target: int)
    requires Wanted(value, target)
    ensures target % MINUTE == 0
  {
    hide CivilOf, DayOfTime;
    WholeMinutes(1440 * DayOfTime(value.value), 0);
  }

  lemma IterateStep(zone: Zone, target: int, candidate: int, left: nat)
    requires left > 0
    ensures Iterate(zone, target, candidate, left) ==
            if Observed(zone, candidate) == target then (candidate, true)
            else Iterate(zone, target, candidate + target - Observed(zone, candidate), left - 1)
    ensures Iterate(zone, target, candidate, 0) == (candidate, false)
  {
  }

  /** A scan in whole minutes stops at the change when every earlier instant lies on an earlier date. */
  lemma {:induction false} ScanReaches(zone: Zone, value: Time, target: int, instant: int, end: int, change: int)
    requires Wanted(value, target)
    requires instant <= change <= end && (change - instant) % MINUTE == 0
    requires forall t :: instant <= t < change ==> !OnDate(zone, target, t)
    requires OnDate(zone, target, change)
    ensures Scan(zone, KeyText(value), instant, end) == Some(change)
    decreases change - instant
  {
    hide CivilOf, KeyText, LocalKey, OnDate;
    LocalKeyIsDate(zone, value, target, instant);
    if instant < change {
      ScanReaches(zone, value, target, instant + MINUTE, end, change);
    }
  }

  /** The search succeeds: it stands on midnight whenever the date has one, and on the change otherwise. */
  lemma StartIs(zone: Zone, value: Time, target: int, a: int, b: int, change: int)
    requires Wanted(value, target) && OneChange(zone, target, a, b, change)
    ensures StartInstant(zone, value).Ok?
    ensures var r := StartInstant(zone, value).value;
            if exists t :: ShowsMidnight(zone, target, t)
            then ShowsMidnight(zone, target, r)
                 && r == if ShowsMidnight(zone, target, target - zone(target)) then target - zone(target)
                         else target - a - b + zone(target)
            else r == change && target - b < change <= target - a
  {
    hide CivilOf, Iterate, Target, Scan, KeyText;
    TargetIsMidnight(value, target);
    MidnightCandidates(zone, target, a, b, change);
    IterateFinds(zone, value, target, a, b, change);
    var (candidate, found) := Iterate(zone, target, target, 4);
    if !found {
      WantedIsMinute(value, target);
      var start := candidate - 18 * HOUR;
      assert forall t :: start <= t < change ==> !OnDate(zone, target, t);
      assert (change - start) % MINUTE == 0 by {
        MinutesAdd(target, a);
        MinutesAdd(target, b);
        MinutesAdd(candidate, 18 * HOUR);
        MinutesAdd(change, start);
      }
      ScanReaches(zone, value, target, start, candidate + 36 * HOUR, change);
    }
  }

  /** Whenever some instant shows midnight, the result is such an instant. */
  lemma FindsMidnight(zone: Zone, value: Time, target: int, a: int, b: int, change: int)
    requires Wanted(value, target) && OneChange(zone, target, a, b, change)
    requires exists t :: ShowsMidnight(zone, target, t)
    ensures StartInstant(zone, value).Ok? && WallClock(zone, StartInstant(zone, value).value) == target
  {
    hide CivilOf, StartInstant, Wanted, OneChange;
    StartIs(zone, value, target, a, b, change);
  }

  /** When midnight is skipped, the result is the first instant of the date. */
  lemma SkippedMidnight(zone: Zone, value: Time, target: int, a: int, b: int, change: int)
    requires Wanted(value, target) && OneChange(zone, target, a, b, change)
    requires !exists t :: ShowsMidnight(zone, target, t)
    ensures StartInstant(zone, value).Ok? && IsFirstOfDate(zone, target, StartInstant(zone, value).value)
  {
    hide CivilOf, StartInstant, Wanted;
    StartIs(zone, value, target, a, b, change);
  }

  /**
   The result is the first instant of its date in every case but one: when clocks go back so that midnight
   shows twice, and the change lies no later than midnight UTC, the second midnight is returned.
   */
  lemma StartIsFirst(zone: Zone, value: Time, target: int, a: int, b: int, change: int)
    requires Wanted(value, target) && OneChange(zone, target, a, b, change)
    ensures StartInstant(zone, value).Ok?
    ensures IsFirstOfDate(zone, target, StartInstant(zone, value).value) <==>
            !(target - a < change <= target - b && change <= target)
  {
    hide CivilOf, StartInstant, Wanted;
    StartIs(zone, value, target, a, b, change);
    MidnightCandidates(zone, target, a, b, change);
    var r := StartInstant(zone, value).value;
    if target - a < change <= target - b {
      assert OnDate(zone, target, target - a);
    }
  }

  /**
   Such a timezone exists for every date: with clocks that go back from three to two hours east two hours before
   midnight UTC, an hour after the first local midnight, the second one is returned.
   */
  lemma SecondMidnightIsReturned(value: Time, target: int)
    requires Wanted(value, target)
    ensures var zone: Zone := t => if t < target - 2 * HOUR then 3 * HOUR else 2 * HOUR;
            && ShowsMidnight(zone, target, target - 3 * HOUR)
            && StartInstant(zone, value) == Ok(target - 2 * HOUR)
            && !IsFirstOfDate(zone, target, target - 2 * HOUR)
  {
    hide CivilOf, StartInstant, Wanted;
    var zone: Zone := t => if t < target - 2 * HOUR then 3 * HOUR else 2 * HOUR;
    TargetIsMinute(value, target);
    StartIs(zone, value, target, 3 * HOUR, 2 * HOUR, target - 2 * HOUR);
    StartIsFirst(zone, value, target, 3 * HOUR, 2 * HOUR, target - 2 * HOUR);
    assert ShowsMidnight(zone, target, target - 3 * HOUR);
  }

  lemma TargetIsMinute(value: Time, target: int)
    requires Wanted(value, target)
    ensures (target - 2 * HOUR) % MINUTE == 0
  {
    WantedIsMinute(value, target);
    MinutesAdd(target, 2 * HOUR);
  }
}
