/** When a purge goes through, which rows it removes, and why one is refused. */
module PurgeResults {
  import opened Wrappers
  import opened RetentionCalendar

  /** The deletion is at least twelve calendar months past. */
  ghost predicate IsDue(deleted: Timestamp, now: Timestamp)
    requires ValidTimestamp(deleted) && ValidTimestamp(now)
  {
    && deleted.date.year < 9999
    && Instant(OneYearOn(deleted)) <= Instant(now)
  }

  /** The same day of the next year, at the same time; the 28th of February for a leap day. */
  function OneYearOn(t: Timestamp): (r: Timestamp)
    requires ValidTimestamp(t) && t.date.year < 9999
    ensures ValidTimestamp(r)
  {
    var isLeapDay := t.date.month == 2 && t.date.day == 29;
    if isLeapDay then
      LeapDayNeedsLeapYear(t.date);
      t.(date := Date(t.date.year + 1, 2, 28))
    else t.(date := Date(t.date.year + 1, t.date.month, t.date.day))
  }

  lemma LeapDayNeedsLeapYear(d: Date)
    requires ValidDate(d) && d.month == 2 && d.day == 29
    ensures IsLeap(d.year) && !IsLeap(d.year + 1)
  {
    NoTwoLeapYears(d.year);
  }

  lemma DeadlineIsOneYearOn(deleted: Timestamp)
    requires ValidTimestamp(deleted)
    ensures AddCalendarMonths(deleted, 12).Ok? <==> deleted.date.year < 9999
    ensures deleted.date.year < 9999 ==> AddCalendarMonths(deleted, 12) == Ok(OneYearOn(deleted))
  {
    if deleted.date.year < 9999 {
      TwelveMonthsOn(deleted);
      if deleted.date.month == 2 && deleted.date.day == 29 {
        LeapDayNeedsLeapYear(deleted.date);
      }
    }
  }

  lemma {:induction false} OthersKeptAt(logs: seq<nat>, organization: nat, r: nat)
    ensures multiset(Others(logs, organization))[r] == if r == organization then 0 else multiset(logs)[r]
  {
    if logs != [] {
      OthersKeptAt(logs[1..], organization, r);
      assert logs == [logs[0]] + logs[1..];
    }
  }

  lemma OthersKept(logs: seq<nat>, organization: nat)
    ensures multiset(Others(logs, organization)) == multiset(logs)[organization := 0]
  {
    forall r ensures multiset(Others(logs, organization))[r] == multiset(logs)[organization := 0][r] {
      OthersKeptAt(logs, organization, r);
    }
  }

  lemma {:induction false} OthersCount(logs: seq<nat>, organization: nat)
    ensures |logs| - |Others(logs, organization)| == multiset(logs)[organization]
  {
    if logs != [] {
      OthersCount(logs[1..], organization);
      assert logs == [logs[0]] + logs[1..];
    }
  }

  /**
   A purge with the right policy version goes through exactly for an organization deleted a
   year ago or longer, and, where it is only to be verified, of which no row is left. It then
   removes every row of the organization, and as many as it says, and no other row.
   */
  lemma PurgeResult(s: State, organization: nat, versionMatches: bool, verifyOnly: bool, now: Timestamp)
    requires ValidDeletions(s) && ValidTimestamp(now)
    ensures var (s', r) := Purge(s, organization, versionMatches, verifyOnly, now);
            var deleted := organization in s.organizations && s.organizations[organization].Some?;
            && (r.Ok? <==> versionMatches && deleted && IsDue(s.organizations[organization].value, now)
                           && (verifyOnly ==> organization !in s.logs))
            && s'.organizations == s.organizations
            && (r.Err? || verifyOnly ==> s' == s)
            && (r.Ok? ==>
                  && multiset(s'.logs) == multiset(s.logs)[organization := 0]
                  && r.value == Purged(OneYearOn(s.organizations[organization].value),
                                       multiset(s.logs)[organization], verifyOnly))
  {
    if organization in s.organizations && s.organizations[organization].Some? {
      DeadlineIsOneYearOn(s.organizations[organization].value);
    }
    OthersKept(s.logs, organization);
    OthersCount(s.logs, organization);
  }

  /** Why a purge is refused, in the order in which it looks. */
  lemma PurgeRefusal(s: State, organization: nat, versionMatches: bool, verifyOnly: bool, now: Timestamp)
    requires ValidDeletions(s) && ValidTimestamp(now)
    ensures var r := Purge(s, organization, versionMatches, verifyOnly, now).1;
            && (r == Err(VersionMismatch) <==> !versionMatches)
            && (r == Err(OrganizationNotFound) <==> versionMatches && organization !in s.organizations)
            && (r == Err(NotDeleted) <==>
                  versionMatches && organization in s.organizations && s.organizations[organization].None?)
            && (r == Err(NotPurged) ==> verifyOnly && organization in s.logs)
  {
  }
}
