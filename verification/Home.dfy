/**
 The home view: a direct reading of the daily activities, with no cached statistics. It is the
 simple form the cached streak must match.
 */
module Home {
  import opened Common
  import opened Calendar
  import opened Streak
  import opened Ledger
  import opened LedgerStreaks

  datatype Resume = Resume(
    dailyStreak: nat,
    todayTargetMin: int,
    todayStudiedMin: nat,
    weekTargetMin: int,
    weekStudiedMin: nat,
    weekGoalConfigured: bool,
    weeklyAttendance: seq<bool>)

  function Within(daily: map<int, Activity>, from: int, to: int): map<int, Activity> {
    map d | d in daily && from <= d < to :: daily[d]
  }

  ghost function GetResume(daily: map<int, Activity>, dailyGoalMin: Option<int>, weeklyGoalMin: Option<int>, todayKey: DateKey): Resume
    requires Valid(todayKey)
  {
    var weekStartKey := StartOfIsoWeekDateKey(todayKey);
    var weekActivities := Within(daily, ToDay(weekStartKey), ToDay(AddDaysToDateKey(weekStartKey, 7)));
    var streakActivities := NewestFirst(UpTo(Achieved(daily), ToDay(todayKey)), STREAK_QUERY_LIMIT);
    var studiedSeconds := if ToDay(todayKey) in weekActivities then weekActivities[ToDay(todayKey)].studySeconds else 0;
    var achievedSet := set d | d in weekActivities && weekActivities[d].goalAchieved :: FromDay(d);
    var dailyTarget := if dailyGoalMin.Some? then dailyGoalMin.value else 0;
    Resume(
      StreakFromDates(streakActivities, ToDay(todayKey)),
      dailyTarget,
      studiedSeconds / 60,
      if weeklyGoalMin.Some? then weeklyGoalMin.value else dailyTarget * 7,
      Sum(DaySeconds(weekActivities)) / 60,
      weeklyGoalMin.Some?,
      seq(7, i requires 0 <= i < 7 => AddDaysToDateKey(weekStartKey, i) in achievedSet))
  }

  /** Box i of the week is ticked exactly when the goal of day i of the current ISO week, from Monday, is achieved. */
  lemma AttendanceIsExact(daily: map<int, Activity>, goal: Option<int>, weekly: Option<int>, todayKey: DateKey, i: int)
    requires Valid(todayKey) && 0 <= i < 7
    ensures |GetResume(daily, goal, weekly, todayKey).weeklyAttendance| == 7
    ensures GetResume(daily, goal, weekly, todayKey).weeklyAttendance[i] <==>
            ToDay(StartOfIsoWeekDateKey(todayKey)) + i in Achieved(daily)
  {
    hide FirstDay, FromDay, StartOfIsoWeekDateKey, AddDaysToDateKey, NewestFirst, Valid, ToDay;
    var weekStartKey := StartOfIsoWeekDateKey(todayKey);
    var week := Within(daily, ToDay(weekStartKey), ToDay(AddDaysToDateKey(weekStartKey, 7)));
    var k, day := AddDaysToDateKey(weekStartKey, i), ToDay(weekStartKey) + i;
    KeyRoundTrip(k);
    assert FromDay(day) == k;
    if d :| d in week && week[d].goalAchieved && FromDay(d) == k {
      assert d == day;
    }
  }

  /** The seconds of a week are those of its seven days and no others; today is one of them. */
  lemma StudyTimesAreExact(daily: map<int, Activity>, goal: Option<int>, weekly: Option<int>, todayKey: DateKey)
    requires Valid(todayKey)
    ensures var r := GetResume(daily, goal, weekly, todayKey);
            && r.todayStudiedMin == (if ToDay(todayKey) in daily then daily[ToDay(todayKey)].studySeconds / 60 else 0)
            && r.weekStudiedMin == Sum(map d | d in daily && 0 <= d - ToDay(StartOfIsoWeekDateKey(todayKey)) < 7
                                         :: daily[d].studySeconds) / 60
  {
    hide FirstDay, FromDay, StartOfIsoWeekDateKey, AddDaysToDateKey, NewestFirst, Valid, ToDay, WeekDay;
    var start := StartOfIsoWeekDateKey(todayKey);
    assert DaySeconds(Within(daily, ToDay(start), ToDay(AddDaysToDateKey(start, 7))))
        == map d | d in daily && 0 <= d - ToDay(start) < 7 :: daily[d].studySeconds;
  }

  /** The targets shown: the daily goal, or 0 without one, and the weekly goal, or seven daily ones without it. */
  lemma TargetsAreExact(daily: map<int, Activity>, goal: Option<int>, weekly: Option<int>, todayKey: DateKey)
    requires Valid(todayKey)
    ensures var r := GetResume(daily, goal, weekly, todayKey);
            && (goal == None ==> r.todayTargetMin == 0) && (forall g | goal == Some(g) :: r.todayTargetMin == g)
            && (weekly == None ==> !r.weekGoalConfigured && r.weekTargetMin == 7 * r.todayTargetMin)
            && (forall g | weekly == Some(g) :: r.weekGoalConfigured && r.weekTargetMin == g)
  {
    hide FirstDay, FromDay, StartOfIsoWeekDateKey, AddDaysToDateKey, NewestFirst, ToDay, StreakFromDates;
  }

  /** The streak shown is the run of achieved days ending today or yesterday, up to the query limit. */
  lemma StreakShownIsExact(daily: map<int, Activity>, goal: Option<int>, weekly: Option<int>, todayKey: DateKey)
    requires Valid(todayKey)
    ensures GetResume(daily, goal, weekly, todayKey).dailyStreak
         == Min(STREAK_QUERY_LIMIT, StreakOn(Achieved(daily), ToDay(todayKey)))
  {
    hide FirstDay, FromDay, StartOfIsoWeekDateKey, AddDaysToDateKey, NewestFirst, Valid, ToDay, StreakFromDates, StreakOn;
    StreakFromDatesIsStreak(Achieved(daily), ToDay(todayKey));
  }

  /** Just after a save with study time on a day no earlier than any before, the cached streak is the one shown. */
  lemma CacheMatchesHome(c: Content, r: Rows, s: int, p: Progress, weekly: Option<int>, todayKey: DateKey)
    requires s in c.sections && Valid(todayKey) && p.stayTimeSeconds > 0
    requires Forward(r, ToDay(todayKey)) && StreakExact(r) && BestExact(r)
    ensures var r' := Saved(c, r, s, p, ToDay(todayKey));
            r'.stats.currentStreak == GetResume(r'.daily, r'.dailyGoalMin, weekly, todayKey).dailyStreak
  {
    hide Saved, GetResume, Valid, ToDay, BestExact, Forward, StreakExact;
    var r' := Saved(c, r, s, p, ToDay(todayKey));
    SaveKeepsStreaks(c, r, s, p, ToDay(todayKey));
    StreakShownIsExact(r'.daily, r'.dailyGoalMin, weekly, todayKey);
  }
}
