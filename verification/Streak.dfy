/**
 Goal streaks. `Run` says what a streak is, with no reference to any list or loop: the days
 d, d-1, d-2, ... that are all achieved. The two loops of the program walk a truncated,
 newest-first query result instead; the lemmas show what that computes.
 */
module Streak {
  import opened Common
  import opened Calendar

  const STREAK_QUERY_LIMIT: nat := 366

  function UpTo(days: set<int>, today: int): set<int> {
    set d | d in days && d <= today
  }

  /** The number of consecutive days of `days` that end at day d: maximal, by the second clause. */
  function Run(days: set<int>, d: int): (r: nat)
    ensures forall x | d - r < x <= d :: x in days
    ensures d - r !in days
    decreases UpTo(days, d)
  {
    if d in days then
      assert d in UpTo(days, d) && UpTo(days, d - 1) <= UpTo(days, d);
      1 + Run(days, d - 1)
    else 0
  }

  /** The streak a user has on `today`: it may still end yesterday while today is open. */
  function StreakOn(days: set<int>, today: int): nat {
    if today in days then Run(days, today) else Run(days, today - 1)
  }

  /** The contract of Run determines it. */
  lemma RunIsUnique(days: set<int>, d: int, r: nat)
    requires (forall x | d - r < x <= d :: x in days) && d - r !in days
    ensures Run(days, d) == r
  {
  }

  /** A run ending on or before a day only looks at days up to it. */
  lemma RunUpTo(days: set<int>, today: int, d: int)
    requires d <= today
    ensures Run(UpTo(days, today), d) == Run(days, d)
  {
    RunIsUnique(UpTo(days, today), d, Run(days, d));
  }

  /** A newly achieved day, later than all others, extends the run before it and no other run. */
  lemma RunAfterAchieving(days: set<int>, today: int, d: int)
    requires forall x | x in days :: x < today
    requires d <= today
    ensures Run(days + {today}, d) == if d == today then 1 + Run(days, today - 1) else Run(days, d)
  {
    if d == today {
      var r := Run(days, today - 1);
      RunIsUnique(days + {today}, today, 1 + r);
    } else {
      RunIsUnique(days + {today}, d, Run(days, d));
    }
  }

  /** How many leading rows are the days expected, expected - 1, expected - 2, ... */
  function LeadingRun(rows: seq<int>, expected: int): nat {
    if rows == [] || rows[0] != expected then 0 else 1 + LeadingRun(rows[1..], expected - 1)
  }

  /** Walking the newest `limit` rows measures the run, up to the limit. */
  lemma {:induction false} LeadingRunMeasuresRun(days: set<int>, today: int, limit: nat)
    requires forall d | d in days :: d <= today
    ensures LeadingRun(NewestFirst(days, limit), today) == Min(limit, Run(days, today))
    decreases limit
  {
    if limit > 0 && days != {} {
      var latest := Greatest(days);
      if latest == today {
        LeadingRunMeasuresRun(days - {today}, today - 1, limit - 1);
        RunIsUnique(days - {today}, today - 1, Run(days, today - 1));
      }
    }
  }

  /** currentGoalStreakFromDates on any list: a list that starts neither today nor yesterday counts nothing. */
  function StreakFromDates(activityDates: seq<int>, today: int): nat {
    if activityDates == [] then 0
    else if activityDates[0] == today then LeadingRun(activityDates, today)
    else LeadingRun(activityDates, today - 1)
  }

  method CurrentGoalStreakFromDates(activityDates: seq<int>, todayKey: DateKey) returns (streak: nat)
    requires Valid(todayKey)
    ensures streak == StreakFromDates(activityDates, ToDay(todayKey))
  {
    hide FirstDay, Valid, ToDay, FromDay, AddDaysToDateKey;
    if |activityDates| == 0 {
      return 0;
    }
    var expectedKey := todayKey;
    var firstKey := FromDay(activityDates[0]);
    KeyRoundTrip(todayKey);
    if firstKey != todayKey {
      var yesterdayKey := AddDaysToDateKey(todayKey, -1);
      KeyRoundTrip(yesterdayKey);
      if firstKey != yesterdayKey {
        return 0;
      }
      expectedKey := yesterdayKey;
    }
    ghost var start := ToDay(expectedKey);
    streak := 0;
    for i := 0 to |activityDates|
      invariant streak == i && Valid(expectedKey) && ToDay(expectedKey) == start - i
      invariant LeadingRun(activityDates, start) == i + LeadingRun(activityDates[i..], start - i)
    {
      var dateKey := FromDay(activityDates[i]);
      KeyRoundTrip(expectedKey);
      assert activityDates[i..][1..] == activityDates[i + 1..];
      if dateKey != expectedKey {
        break;
      }
      streak := streak + 1;
      expectedKey := AddDaysToDateKey(expectedKey, -1);
    }
  }

  /**
   Fed the newest 366 achieved days up to today, the function returns the streak as `Run` defines
   it, cut off at 366.
   */
  lemma StreakFromDatesIsStreak(days: set<int>, today: int)
    ensures StreakFromDates(NewestFirst(UpTo(days, today), STREAK_QUERY_LIMIT), today)
         == Min(STREAK_QUERY_LIMIT, StreakOn(days, today))
  {
    var seen := UpTo(days, today);
    if today in days {
      LeadingRunMeasuresRun(seen, today, STREAK_QUERY_LIMIT);
      RunUpTo(days, today, today);
      assert Greatest(seen) == today;
    } else {
      LeadingRunMeasuresRun(seen, today - 1, STREAK_QUERY_LIMIT);
      RunUpTo(days, today, today - 1);
    }
  }
}
