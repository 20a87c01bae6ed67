/**
 Calendar months, with the month lengths and leap years of section 5.7 and Appendix C of
 RFC 3339, and the retention gate built on them. Timestamps are in UTC, years 1 to 9999.
 */
module RetentionCalendar {
  import opened Wrappers

  const MIN_YEAR := 1
  const MAX_YEAR := 9999
  const MICROSECONDS_PER_DAY := 86_400_000_000

  datatype Date = Date(year: int, month: int, day: int)

  datatype Timestamp = Timestamp(date: Date, time: nat)

  predicate IsLeap(year: int) {
    year % 4 == 0 && (year % 100 != 0 || year % 400 == 0)
  }

  function DaysIn(leap: bool, month: int): (days: int)
    requires 1 <= month <= 12
    ensures 28 <= days <= 31
  {
    if month == 2 then (if leap then 29 else 28)
    else if month == 4 || month == 6 || month == 9 || month == 11 then 30
    else 31
  }

  function DaysInMonth(year: int, month: int): (days: int)
    requires 1 <= month <= 12
    ensures 28 <= days <= 31
  {
    DaysIn(IsLeap(year), month)
  }

  predicate ValidDate(d: Date) {
    MIN_YEAR <= d.year <= MAX_YEAR && 1 <= d.month <= 12 && 1 <= d.day <= DaysInMonth(d.year, d.month)
  }

  predicate ValidTimestamp(t: Timestamp) {
    ValidDate(t.date) && t.time < MICROSECONDS_PER_DAY
  }

  function MonthIndex(d: Date): int {
    d.year * 12 + d.month - 1
  }

  function Min(a: int, b: int): int {
    if a <= b then a else b
  }

  datatype CalendarError = NegativeMonths | OutOfRange

  function AddCalendarMonths(value: Timestamp, months: int): (r: Result<Timestamp, CalendarError>)
    requires ValidTimestamp(value)
    ensures r.Err? <==> months < 0 || MonthIndex(value.date) + months > MAX_YEAR * 12 + 11
  {
    if months < 0 then Err(NegativeMonths)
    else
      var targetIndex := value.date.year * 12 + (value.date.month - 1) + months;
      var targetYear, targetMonth := targetIndex / 12, targetIndex % 12 + 1;
      if targetYear > MAX_YEAR then Err(OutOfRange)
      else
        var targetDay := Min(value.date.day, DaysInMonth(targetYear, targetMonth));
        Ok(value.(date := Date(targetYear, targetMonth, targetDay)))
  }

  /** The same day `months` calendar months on, or the last day of that month; same time. */
  lemma AddedMonths(value: Timestamp, months: int)
    requires ValidTimestamp(value) && AddCalendarMonths(value, months).Ok?
    ensures var r := AddCalendarMonths(value, months).value;
            && ValidTimestamp(r) && r.time == value.time
            && MonthIndex(r.date) == MonthIndex(value.date) + months
            && r.date.day <= value.date.day
            && (r.date.day < value.date.day ==> r.date.day == DaysInMonth(r.date.year, r.date.month))
  {
  }

  predicate DateAtMost(a: Date, b: Date) {
    a.year < b.year || (a.year == b.year && (a.month < b.month || (a.month == b.month && a.day <= b.day)))
  }

  lemma SameMonthIndex(a: Date, b: Date)
    requires 1 <= a.month <= 12 && 1 <= b.month <= 12
    ensures MonthIndex(a) == MonthIndex(b) <==> a.year == b.year && a.month == b.month
    ensures MonthIndex(a) < MonthIndex(b) <==> a.year < b.year || (a.year == b.year && a.month < b.month)
  {
  }

  /** Adding months keeps the order of calendar dates. */
  lemma AddingIsMonotone(a: Timestamp, b: Timestamp, months: int)
    requires ValidTimestamp(a) && ValidTimestamp(b) && DateAtMost(a.date, b.date)
    requires AddCalendarMonths(b, months).Ok?
    ensures AddCalendarMonths(a, months).Ok?
    ensures DateAtMost(AddCalendarMonths(a, months).value.date, AddCalendarMonths(b, months).value.date)
  {
    SameMonthIndex(a.date, b.date);
    AddedMonths(a, months);
    AddedMonths(b, months);
    SameMonthIndex(AddCalendarMonths(a, months).value.date, AddCalendarMonths(b, months).value.date);
  }

  /**
   Adding in two steps never lands later than adding at once, and lands on the same day
   exactly when the month in between is long enough for the day that adding at once gives.
   */
  lemma AddingInTwoSteps(value: Timestamp, a: int, b: int)
    requires ValidTimestamp(value) && a >= 0 && b >= 0 && AddCalendarMonths(value, a + b).Ok?
    ensures AddCalendarMonths(value, a).Ok?
    ensures var between := AddCalendarMonths(value, a).value;
            var atOnce := AddCalendarMonths(value, a + b).value;
            && ValidTimestamp(between)
            && AddCalendarMonths(between, b).Ok?
            && var stepped := AddCalendarMonths(between, b).value;
            && DateAtMost(stepped.date, atOnce.date) && stepped.time == atOnce.time
            && (stepped == atOnce <==> atOnce.date.day <= DaysInMonth(between.date.year, between.date.month))
            && (value.date.day <= 28 ==> stepped == atOnce)
  {
    AddedMonths(value, a);
    AddedMonths(value, a + b);
    var between := AddCalendarMonths(value, a).value;
    AddedMonths(between, b);
    SameMonthIndex(AddCalendarMonths(between, b).value.date, AddCalendarMonths(value, a + b).value.date);
  }

  // ---- day numbers

  function DaysBeforeYear(year: int): int {
    if year <= MIN_YEAR then 0 else DaysBeforeYear(year - 1) + if IsLeap(year - 1) then 366 else 365
  }

  /** The Gregorian count: every fourth year has a leap day, but of the centuries only every fourth. */
  lemma {:induction false} GregorianDays(year: int)
    requires year >= MIN_YEAR
    ensures var n := year - 1;
            DaysBeforeYear(year) == 365 * n + n / 4 - n / 100 + n / 400
  {
    if year > MIN_YEAR {
      GregorianDays(year - 1);
      LeapDayCounts(year - 1);
    }
  }

  lemma LeapDayCounts(year: int)
    requires year >= MIN_YEAR
    ensures var n := year - 1;
            year / 4 - year / 100 + year / 400 == n / 4 - n / 100 + n / 400 + if IsLeap(year) then 1 else 0
  {
    Carries(year, 4);
    Carries(year, 100);
    Carries(year, 400);
  }

  lemma Carries(year: int, step: int)
    requires year >= 1 && step in {4, 100, 400}
    ensures year / step == (year - 1) / step + if year % step == 0 then 1 else 0
  {
  }

  function DaysBeforeMonth(leap: bool, month: int): int
    requires 1 <= month <= 12
    decreases month
  {
    if month == 1 then 0 else DaysBeforeMonth(leap, month - 1) + DaysIn(leap, month - 1)
  }

  /** Days counted from the start of year 1. */
  function DayNumber(d: Date): int
    requires ValidDate(d)
  {
    DaysBeforeYear(d.year) + DaysBeforeMonth(IsLeap(d.year), d.month) + d.day
  }

  function NextDay(d: Date): Date
    requires ValidDate(d)
  {
    if d.day < DaysInMonth(d.year, d.month) then d.(day := d.day + 1)
    else if d.month < 12 then Date(d.year, d.month + 1, 1)
    else Date(d.year + 1, 1, 1)
  }

  lemma {:induction false} MonthTable(leap: bool, month: int)
    requires 1 <= month <= 12
    ensures DaysBeforeMonth(leap, month) ==
            [0, 31, 59, 90, 120, 151, 181, 212, 243, 273, 304, 334][month - 1] + if month > 2 && leap then 1 else 0
    decreases month
  {
    if month > 1 {
      MonthTable(leap, month - 1);
    }
  }

  lemma YearEnd(year: int)
    requires MIN_YEAR <= year < MAX_YEAR
    ensures DayNumber(Date(year + 1, 1, 1)) == DayNumber(Date(year, 12, 31)) + 1
  {
    MonthTable(IsLeap(year), 12);
  }

  lemma MonthEnd(d: Date)
    requires ValidDate(d) && d.month < 12 && d.day == DaysInMonth(d.year, d.month)
    ensures DayNumber(Date(d.year, d.month + 1, 1)) == DayNumber(d) + 1
  {
  }

  lemma NextDayWithinMonth(d: Date)
    requires ValidDate(d) && d.day < DaysInMonth(d.year, d.month)
    ensures ValidDate(NextDay(d)) && DayNumber(NextDay(d)) == DayNumber(d) + 1
  {
  }

  lemma NextDayAtMonthEnd(d: Date)
    requires ValidDate(d) && d.day == DaysInMonth(d.year, d.month) && d.month < 12
    ensures ValidDate(NextDay(d)) && DayNumber(NextDay(d)) == DayNumber(d) + 1
  {
    MonthEnd(d);
  }

  lemma NextDayAtYearEnd(d: Date)
    requires ValidDate(d) && d.month == 12 && d.day == DaysInMonth(d.year, d.month) && d.year < MAX_YEAR
    ensures ValidDate(NextDay(d)) && DayNumber(NextDay(d)) == DayNumber(d) + 1
  {
    YearEnd(d.year);
  }

  /** The day number counts days: it grows by one from each day to the next. */
  lemma DayNumberCounts(d: Date)
    requires ValidDate(d) && d != Date(MAX_YEAR, 12, 31)
    ensures ValidDate(NextDay(d)) && DayNumber(NextDay(d)) == DayNumber(d) + 1
  {
    if d.day < DaysInMonth(d.year, d.month) {
      NextDayWithinMonth(d);
    } else if d.month < 12 {
      NextDayAtMonthEnd(d);
    } else {
      NextDayAtYearEnd(d);
    }
  }

  /** Does a year counted from this date contain a leap day? */
  predicate YearAheadHasLeapDay(d: Date) {
    (IsLeap(d.year) && (d.month == 1 || (d.month == 2 && d.day <= 28))) || (IsLeap(d.year + 1) && d.month > 2)
  }

  lemma AYearApart(leap: bool, nextLeap: bool, month: int, day: int)
    requires 1 <= month <= 12 && 1 <= day <= DaysIn(leap, month) && !(leap && nextLeap)
    ensures (if leap then 366 else 365) + DaysBeforeMonth(nextLeap, month) + Min(day, DaysIn(nextLeap, month))
            - DaysBeforeMonth(leap, month) - day ==
            if (leap && (month == 1 || (month == 2 && day <= 28))) || (nextLeap && month > 2) then 366 else 365
  {
    MonthTable(leap, month);
    MonthTable(nextLeap, month);
  }

  lemma NoTwoLeapYears(year: int)
    ensures !(IsLeap(year) && IsLeap(year + 1))
  {
  }

  lemma TwelveMonthsOn(value: Timestamp)
    requires ValidTimestamp(value) && AddCalendarMonths(value, 12).Ok?
    ensures var d := value.date;
            value.date.year < MAX_YEAR &&
            AddCalendarMonths(value, 12).value ==
            value.(date := Date(d.year + 1, d.month, Min(d.day, DaysInMonth(d.year + 1, d.month))))
  {
  }

  /** Twelve months are 365 days, or 366 when the year ahead has a leap day; same time of day. */
  lemma TwelveMonthsAreAYear(value: Timestamp)
    requires ValidTimestamp(value) && AddCalendarMonths(value, 12).Ok?
    ensures var r := AddCalendarMonths(value, 12).value;
            && ValidTimestamp(r) && r.time == value.time
            && DayNumber(r.date) - DayNumber(value.date) == if YearAheadHasLeapDay(value.date) then 366 else 365
  {
    var d := value.date;
    AddedMonths(value, 12);
    TwelveMonthsOn(value);
    NoTwoLeapYears(d.year);
    AYearApart(IsLeap(d.year), IsLeap(d.year + 1), d.month, d.day);
  }

  // ---- the retention gate

  function Instant(t: Timestamp): int
    requires ValidTimestamp(t)
  {
    DayNumber(t.date) * MICROSECONDS_PER_DAY + t.time
  }

  const AUDIT_RETENTION_MONTHS := 12

  datatype PurgeError =
    | VersionMismatch
    | OrganizationNotFound
    | NotDeleted
    | DeadlineOutOfRange
    | TooEarly
    | NotPurged

  datatype Purged = Purged(deadline: Timestamp, count: nat, verified: bool)

  /** Whether an organization was deleted, and when; an audit row is named by its organization. */
  datatype State = State(organizations: map<nat, Option<Timestamp>>, logs: seq<nat>)

  ghost predicate ValidDeletions(s: State) {
    forall o :: o in s.organizations && s.organizations[o].Some? ==> ValidTimestamp(s.organizations[o].value)
  }

  function Others(logs: seq<nat>, organization: nat): (rest: seq<nat>)
    ensures |rest| <= |logs|
    ensures rest == logs <==> organization !in logs
    ensures forall r :: r in rest <==> r in logs && r != organization
  {
    if logs == [] then []
    else (if logs[0] == organization then [] else [logs[0]]) + Others(logs[1..], organization)
  }

  function Purge(s: State, organization: nat, versionMatches: bool, requireAlreadyPurged: bool, now: Timestamp)
    : (State, Result<Purged, PurgeError>)
    requires ValidDeletions(s) && ValidTimestamp(now)
  {
    if !versionMatches then (s, Err(VersionMismatch))
    else if organization !in s.organizations then (s, Err(OrganizationNotFound))
    else if s.organizations[organization].None? then (s, Err(NotDeleted))
    else
      var deadline := AddCalendarMonths(s.organizations[organization].value, AUDIT_RETENTION_MONTHS);
      if deadline.Err? then (s, Err(DeadlineOutOfRange))
      else
        AddedMonths(s.organizations[organization].value, AUDIT_RETENTION_MONTHS);
        if Instant(now) < Instant(deadline.value) then (s, Err(TooEarly))
        else
          var rest := Others(s.logs, organization);
          if requireAlreadyPurged then
            if rest != s.logs then (s, Err(NotPurged)) else (s, Ok(Purged(deadline.value, 0, true)))
          else (s.(logs := rest), Ok(Purged(deadline.value, |s.logs| - |rest|, false)))
  }

  /**
   Audit rows go only when the organization has been deleted for at least a year of 365
   days; then all its rows are gone, no other row is, and otherwise nothing changes.
   */
  lemma PurgeOnlyAfterAYear(s: State, organization: nat, versionMatches: bool, require_: bool, now: Timestamp)
    requires ValidDeletions(s) && ValidTimestamp(now)
    ensures var (s', r) := Purge(s, organization, versionMatches, require_, now);
            && (s' != s ==> r.Ok?)
            && (r.Ok? ==>
                  && organization in s.organizations && s.organizations[organization].Some?
                  && Instant(now) >= Instant(s.organizations[organization].value) + 365 * MICROSECONDS_PER_DAY
                  && s' == s.(logs := Others(s.logs, organization)) && organization !in s'.logs
                  && r.value.count == |s.logs| - |s'.logs|)
  {
    if organization in s.organizations && s.organizations[organization].Some? {
      var deleted := s.organizations[organization].value;
      if AddCalendarMonths(deleted, AUDIT_RETENTION_MONTHS).Ok? {
        TwelveMonthsAreAYear(deleted);
      }
    }
  }

  /** The organization and audit tables behind the purge. */
  class RetentionStore {
    var organizations: map<nat, Option<Timestamp>>
    var logs: seq<nat>

    function Snapshot(): State
      reads this
    {
      State(organizations, logs)
    }

    constructor (s: State)
      ensures Snapshot() == s
    {
      organizations, logs := s.organizations, s.logs;
    }

    method Execute(organization: nat, versionMatches: bool, requireAlreadyPurged: bool, now: Timestamp)
      returns (r: Result<Purged, PurgeError>)
      requires ValidDeletions(Snapshot()) && ValidTimestamp(now)
      modifies this`logs
      ensures (Snapshot(), r) == Purge(old(Snapshot()), organization, versionMatches, requireAlreadyPurged, now)
    {
      if !versionMatches {
        return Err(VersionMismatch);
      }
      if organization !in organizations {
        return Err(OrganizationNotFound);
      }
      if organizations[organization].None? {
        return Err(NotDeleted);
      }
      var deadline := AddCalendarMonths(organizations[organization].value, AUDIT_RETENTION_MONTHS);
      if deadline.Err? {
        return Err(DeadlineOutOfRange);
      }
      AddedMonths(organizations[organization].value, AUDIT_RETENTION_MONTHS);
      if Instant(now) < Instant(deadline.value) {
        return Err(TooEarly);
      }
      if requireAlreadyPurged {
        if organization in logs {
          return Err(NotPurged);
        }
        return Ok(Purged(deadline.value, 0, true));
      }
      var before := |logs|;
      logs := Others(logs, organization);
      return Ok(Purged(deadline.value, before - |logs|, false));
    }
  }
}
