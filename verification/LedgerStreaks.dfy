/** The cached streak, the best streak and the badges, against the history of achieved days. */
module LedgerStreaks {
  import opened Common
  import opened Streak
  import opened Achievements
  import opened Ledger

  /** The streak the history gives on a day, up to the query limit. */
  function StreakOf(r: Rows, day: int): nat {
    Min(STREAK_QUERY_LIMIT, StreakOn(Achieved(r.daily), day))
  }

  /** The cached streak is that streak. */
  predicate StreakExactOn(r: Rows, day: int) {
    r.stats.currentStreak == StreakOf(r, day)
  }

  /** Exact on the day of the latest activity, which is the day the cache was last brought up to date. */
  predicate StreakExact(r: Rows) {
    if r.daily == map[] then r.stats.currentStreak == 0 else StreakExactOn(r, Greatest(r.daily.Keys))
  }

  function CappedRun(days: set<int>, d: int): nat {
    Min(STREAK_QUERY_LIMIT, Run(days, d))
  }

  /** The longest run that ends on any of the days, up to the query limit. */
  ghost predicate IsBest(days: set<int>, best: nat) {
    && (forall d | d in days :: CappedRun(days, d) <= best)
    && (if days == {} then best == 0 else exists d :: d in days && CappedRun(days, d) == best)
  }

  ghost predicate BestExact(r: Rows) {
    IsBest(Achieved(r.daily), r.stats.maxStreak)
  }

  /** The user's local date has not gone back. */
  predicate Forward(r: Rows, today: int) {
    forall d | d in r.daily :: d <= today
  }

  predicate RecentGoal(r: Rows, today: int) {
    today in Achieved(r.daily) || today - 1 in Achieved(r.daily)
  }

  lemma RecalculateIsExact(r: Rows, today: int)
    requires today in Achieved(r.daily)
    ensures StreakExactOn(RecalculateGoalStreak(r, today), today)
    ensures RecalculateGoalStreak(r, today).stats.currentStreak == CappedRun(Achieved(r.daily), today)
  {
    hide Achieved, NewestFirst, LeadingRun;
    var days := Achieved(r.daily);
    LeadingRunMeasuresRun(UpTo(days, today), today, STREAK_QUERY_LIMIT);
    RunUpTo(days, today, today);
  }

  /** Expiry looks one day back: it keeps the cache while today or yesterday is achieved, and clears it otherwise. */
  lemma ExpiryTest(r: Rows, today: int)
    ensures ExpireCachedGoalStreak(r, today)
         == if RecentGoal(r, today) then r else r.(stats := r.stats.(currentStreak := 0))
  {
    hide Achieved;
    var days := Achieved(r.daily);
    var seen := UpTo(days, today);
    assert today in days ==> today in seen;
    assert today - 1 in days ==> today - 1 in seen;
    assert seen != {} && today - Greatest(seen) <= 1 ==> Greatest(seen) == today || Greatest(seen) == today - 1;
  }

  /**
   After study is recorded on any day, in any order of days, the cache is exact for that day,
   unless the goal was not newly met while today or yesterday is achieved: then the stored number is
   left alone, and it is exact exactly when it already was the streak of that day.
   */
  lemma RecordStreak(r: Rows, stay: nat, today: int)
    ensures var r' := RecordDailyActivity(r, stay, today);
            StreakExactOn(r', today) <==>
            GoalJustMet(Studied(r, stay, today)) || !RecentGoal(r, today) || StreakExactOn(r, today)
  {
    var a, r1 := Studied(r, stay, today), AddStudy(r, stay, today);
    RecordAchieves(r, stay, today);
    if GoalJustMet(a) {
      RecalculateIsExact(r1.(daily := r1.daily[today := a.(goalAchieved := true)]), today);
    } else {
      assert Achieved(r1.daily) == Achieved(r.daily);
      ExpiryTest(r1, today);
      hide Achieved, ExpireCachedGoalStreak;
    }
  }

  /** The cached streak is the one of some day on which the user studied; with no such day it is 0. */
  ghost predicate StreakOfSomeDay(r: Rows) {
    if r.daily == map[] then r.stats.currentStreak == 0 && StreakExactOn(r, 0)
    else exists d :: d in r.daily && StreakExactOn(r, d)
  }

  /**
   In any order of days: if the cache holds the streak of day d, then after study on another day it is
   exact for that day if and only if the goal was newly met, or neither that day nor the one before it
   is achieved, or the history gives the two days the same streak. Otherwise it still holds that of d.
   */
  lemma RecordStreakFromHistory(r: Rows, stay: nat, today: int, d: int)
    requires StreakExactOn(r, d)
    ensures var r' := RecordDailyActivity(r, stay, today);
            && (StreakExactOn(r', today) <==>
                GoalJustMet(Studied(r, stay, today)) || !RecentGoal(r, today) || StreakOf(r, today) == StreakOf(r, d))
            && (!StreakExactOn(r', today) ==> StreakExactOn(r', d))
  {
    RecordStreak(r, stay, today);
    RecordAchieves(r, stay, today);
    if !GoalJustMet(Studied(r, stay, today)) && RecentGoal(r, today) {
      assert Achieved(r.daily) + {} == Achieved(r.daily);
      LeftAlone(r, stay, today);
    }
    hide RecordDailyActivity, GoalJustMet, Achieved, StreakOn;
  }

  lemma LeftAlone(r: Rows, stay: nat, today: int)
    requires !GoalJustMet(Studied(r, stay, today)) && RecentGoal(r, today)
    ensures RecordDailyActivity(r, stay, today).stats.currentStreak == r.stats.currentStreak
  {
    RecordAchieves(r, stay, today);
    ExpiryTest(AddStudy(r, stay, today), today);
    assert Achieved(AddStudy(r, stay, today).daily) == Achieved(r.daily);
    hide Achieved, ExpireCachedGoalStreak;
  }

  /** So the cache always holds the streak of some day of study. */
  lemma RecordKeepsStreakOfSomeDay(r: Rows, stay: nat, today: int)
    requires StreakOfSomeDay(r)
    ensures StreakOfSomeDay(RecordDailyActivity(r, stay, today))
  {
    RecordAchieves(r, stay, today);
    hide RecordDailyActivity, StreakExactOn, Achieved;
    if r.daily == map[] {
      RecordStreakFromHistory(r, stay, today, 0);
      assert r.daily.Keys == {};
      EmptyHistory(r, stay, today);
    } else {
      var d :| d in r.daily && StreakExactOn(r, d);
      RecordStreakFromHistory(r, stay, today, d);
      assert d in RecordDailyActivity(r, stay, today).daily.Keys && today in RecordDailyActivity(r, stay, today).daily.Keys;
    }
  }

  lemma EmptyHistory(r: Rows, stay: nat, today: int)
    requires r.daily == map[]
    ensures StreakExactOn(RecordDailyActivity(r, stay, today), today)
  {
    RecordStreak(r, stay, today);
    assert !RecentGoal(r, today);
    hide RecordDailyActivity, StreakOn;
  }

  /** Days that only move forward keep the cache exact: after every recorded study it is the streak of that day. */
  lemma RecordKeepsStreakExact(r: Rows, stay: nat, today: int)
    requires Forward(r, today) && StreakExact(r)
    ensures var r' := RecordDailyActivity(r, stay, today);
            StreakExact(r') && StreakExactOn(r', today) && Forward(r', today)
  {
    var days := Achieved(r.daily);
    RecordStreak(r, stay, today);
    RecordAchieves(r, stay, today);
    var r' := RecordDailyActivity(r, stay, today);
    assert Greatest(r'.daily.Keys) == today;
    if RecentGoal(r, today) {
      var last := Greatest(r.daily.Keys);
      assert last == today || last == today - 1;
      hide Run, RecordDailyActivity;
      assert StreakExactOn(r, today);
    }
  }

  /**
   A date that goes back by one day can leave the cache stale: with days 7, 8 and 10 achieved, studying
   on day 9 leaves 1 where the streak is 2. LedgerRuns has the run that comes to this.
   */
  lemma BackwardDaysGoStale(r: Rows)
    requires Achieved(r.daily) == r.daily.Keys == {7, 8, 10} && StreakExact(r) && r.dailyGoalMin == Some(10)
    ensures var r' := RecordDailyActivity(r, 1, 9);
            && Achieved(r'.daily) == {7, 8, 10}
            && r'.stats.currentStreak == 1 && StreakOn(Achieved(r'.daily), 9) == 2
  {
    var days := Achieved(r.daily);
    assert Greatest(r.daily.Keys) == 10 by { assert 10 in r.daily.Keys; }
    RunIsUnique(days, 10, 1);
    RunIsUnique(days, 8, 2);
    RecordAchieves(r, 1, 9);
    ExpiryTest(AddStudy(r, 1, 9), 9);
    hide Run, ExpireCachedGoalStreak;
    assert days + {} == days;
    assert Achieved(AddStudy(r, 1, 9).daily) == days;
  }

  /** What recording study does to the two streaks, whatever the order of days. */
  lemma RecordStreakStats(r: Rows, stay: nat, today: int)
    ensures var s, s' := r.stats, RecordDailyActivity(r, stay, today).stats;
            && s.maxStreak <= s'.maxStreak
            && s.totalStudyMin <= s'.totalStudyMin
            && (s'.maxStreak > s.maxStreak ==> s'.maxStreak == s'.currentStreak)
            && (s.currentStreak <= s.maxStreak ==> s'.currentStreak <= s'.maxStreak)
            && (!GoalJustMet(Studied(r, stay, today)) ==> s'.maxStreak == s.maxStreak)
  {
    hide NewestFirst, LeadingRun, UpTo, GoalJustMet;
  }

  /** Meeting the goal raises the best streak to the run it ends, if that is longer. */
  lemma RecordRaisesBest(r: Rows, stay: nat, today: int)
    requires GoalJustMet(Studied(r, stay, today))
    ensures RecordDailyActivity(r, stay, today).stats.maxStreak
         == Max(r.stats.maxStreak, CappedRun(Achieved(r.daily) + {today}, today))
  {
    var r1 := AddStudy(r, stay, today);
    var r2 := r1.(daily := r1.daily[today := Studied(r, stay, today).(goalAchieved := true)]);
    RecordAchieves(r, stay, today);
    hide NewestFirst, LeadingRun, UpTo, Achieved, Run;
    assert RecordDailyActivity(r, stay, today).daily == r2.daily;
    RecalculateIsExact(r2, today);
  }

  lemma RecordKeepsBestExact(r: Rows, stay: nat, today: int)
    requires Forward(r, today) && BestExact(r)
    ensures BestExact(RecordDailyActivity(r, stay, today))
  {
    hide RecordDailyActivity, IsBest, CappedRun;
    RecordAchieves(r, stay, today);
    RecordStreakStats(r, stay, today);
    assert Studied(r, stay, today).goalAchieved <==> today in Achieved(r.daily);
    assert Achieved(r.daily) + {} == Achieved(r.daily);
    if GoalJustMet(Studied(r, stay, today)) {
      RecordRaisesBest(r, stay, today);
      NewDayBest(Achieved(r.daily), today, r.stats.maxStreak);
    }
  }

  lemma CappedRunKept(days: set<int>, today: int, d: int)
    requires (forall x | x in days :: x < today) && d < today
    ensures CappedRun(days + {today}, d) == CappedRun(days, d)
  {
    RunAfterAchieving(days, today, d);
  }

  /** The best run after a new latest achieved day is the better of the old best and the run it ends. */
  lemma NewDayBest(days: set<int>, today: int, best: nat)
    requires forall d | d in days :: d < today
    requires IsBest(days, best)
    ensures IsBest(days + {today}, Max(best, CappedRun(days + {today}, today)))
  {
    hide Run, CappedRun;
    var days' := days + {today};
    forall d | d in days ensures CappedRun(days', d) == CappedRun(days, d) {
      CappedRunKept(days, today, d);
    }
    assert today in days';
    if days != {} {
      var d :| d in days && CappedRun(days, d) == best;
      assert d in days' && CappedRun(days', d) == best;
    }
  }

  // ---- The same for a whole save ----

  lemma SaveStats(c: Content, r: Rows, s: int, p: Progress, today: int)
    requires s in c.sections
    ensures var r0 := r.(logs := r.logs[s := Logged(c, r, s, p)], pages := PageLogged(r, s, p));
            var r1 := if p.stayTimeSeconds > 0 then RecordDailyActivity(r0, p.stayTimeSeconds, today) else r0;
            var r' := Saved(c, r, s, p, today);
            && r'.daily == r1.daily
            && r'.stats == r1.stats.(totalCompletedLessons := r'.stats.totalCompletedLessons)
            && r.stats.totalCompletedLessons <= r'.stats.totalCompletedLessons
            && r'.badges == (if r.logs == map[] then Award(c.badgeIds, r.badges, "first_start") else r.badges)
                            + Earned(c.badgeIds, r'.stats)
  {
    hide Logged, PageLogged, CompletesLesson, RecordDailyActivity, Earned, Award;
  }

  /** Whatever the days, a save leaves the badges exactly those the statistics call for. */
  lemma SaveKeepsBadges(c: Content, r: Rows, s: int, p: Progress, today: int)
    requires s in c.sections && WellFormed(c)
    requires BadgesExact(c.badgeIds, r.stats, r.badges, r.logs != map[])
    ensures var r' := Saved(c, r, s, p, today);
            r'.logs != map[] && BadgesExact(c.badgeIds, r'.stats, r'.badges, true)
  {
    hide Earned, Award, BadgesExact, Complete;
    var r', r0 := Saved(c, r, s, p, today), r.(logs := r.logs[s := Logged(c, r, s, p)], pages := PageLogged(r, s, p));
    SaveStats(c, r, s, p, today);
    SaveWrites(c, r, s, p, today);
    RecordStreakStats(r0, p.stayTimeSeconds, today);
    assert s in r'.logs;
    assert r.stats.currentStreak <= r.stats.maxStreak by { CurrentWithinBest(c.badgeIds, r.stats, r.badges, r.logs != map[]); }
    hide Saved;
    CheckKeepsBadgesExact(c.badgeIds, r.stats, r'.stats, r.badges, r.logs != map[], true);
  }

  lemma CurrentWithinBest(ids: map<string, int>, s: Stats, badges: set<int>, started: bool)
    requires Complete(ids) && BadgesExact(ids, s, badges, started)
    ensures s.currentStreak <= s.maxStreak
  {
  }

  /** A save on a day that is not earlier than any before keeps both streaks exact. */
  lemma SaveKeepsStreaks(c: Content, r: Rows, s: int, p: Progress, today: int)
    requires s in c.sections && Forward(r, today) && StreakExact(r) && BestExact(r)
    ensures var r' := Saved(c, r, s, p, today);
            && StreakExact(r') && BestExact(r') && Forward(r', today)
            && (p.stayTimeSeconds > 0 ==> StreakExactOn(r', today))
  {
    hide Saved, RecordDailyActivity, Achieved, Run;
    SaveStats(c, r, s, p, today);
    var r0 := r.(logs := r.logs[s := Logged(c, r, s, p)], pages := PageLogged(r, s, p));
    if p.stayTimeSeconds > 0 {
      RecordKeepsStreakExact(r0, p.stayTimeSeconds, today);
      RecordKeepsBestExact(r0, p.stayTimeSeconds, today);
    }
  }

  /** In any order of days a save leaves the cache with the streak of some day of study. */
  lemma SaveKeepsStreakOfSomeDay(c: Content, r: Rows, s: int, p: Progress, today: int)
    requires s in c.sections && StreakOfSomeDay(r)
    ensures StreakOfSomeDay(Saved(c, r, s, p, today))
  {
    hide Saved, RecordDailyActivity, Achieved, StreakOn;
    SaveStats(c, r, s, p, today);
    var r0 := r.(logs := r.logs[s := Logged(c, r, s, p)], pages := PageLogged(r, s, p));
    hide Logged, PageLogged;
    if p.stayTimeSeconds > 0 {
      RecordKeepsStreakOfSomeDay(r0, p.stayTimeSeconds, today);
    }
  }

  /** Everything a save keeps about one user, in any order of days. */
  lemma SaveKeepsConsistent(c: Content, r: Rows, s: int, p: Progress, today: int)
    requires WellFormed(c) && s in c.sections && Consistent(c, r) && Refusal(c, r, s, p).None?
    ensures Consistent(c, Saved(c, r, s, p, today))
  {
    hide Saved, BadgesExact;
    SaveKeepsTime(c, r, s, p, today);
    SaveKeepsPages(c, r, s, p, today);
    SaveKeepsMinutes(c, r, s, p, today);
    SaveKeepsLessons(c, r, s, p, today);
    SaveKeepsCourses(c, r, s, p, today);
    SaveKeepsRatings(c, r, s, p, today);
    SaveKeepsBadges(c, r, s, p, today);
  }
}
