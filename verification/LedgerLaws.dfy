/**
 What one save does, said of the rows it finds and the request it gets, case by case: when a section
 completes, what a day remembers, which error is reported, where each second goes.
 */
module LedgerLaws {
  import opened Common
  import Streaks = Streak
  import opened Achievements
  import opened Ledger
  import opened LedgerRuns

  /** A save leaves a section complete exactly if it was, or by force, or by request, or by reaching the last page; no other section changes. */
  lemma CompletesExactly(c: Content, r: Rows, s: int, p: Progress, today: int)
    requires s in c.sections
    ensures var after := Completed(Saved(c, r, s, p, today).logs);
            && (s in after <==>
                || (s in r.logs && r.logs[s].isCompleted) || p.forceComplete || p.isCompleted
                || 0 < c.sections[s].totalPages <= p.currentPage)
            && (forall x | x != s :: x in after <==> x in r.logs && r.logs[x].isCompleted)
  {
    SaveWrites(c, r, s, p, today);
    hide Saved, PageLogged, CompletesLesson;
  }

  /** The rest of the section's log: the furthest page, the seconds and the rating. */
  lemma LogsExactly(c: Content, r: Rows, s: int, p: Progress, today: int)
    requires s in c.sections
    ensures var logs' := Saved(c, r, s, p, today).logs;
            && logs'.Keys == r.logs.Keys + {s}
            && (forall x | x in r.logs && x != s :: logs'[x] == r.logs[x])
            && logs'[s].maxPageReached == (if s in r.logs && p.currentPage <= r.logs[s].maxPageReached && 0 <= r.logs[s].maxPageReached
                                           then r.logs[s].maxPageReached else if p.currentPage <= 0 then 0 else p.currentPage)
            && logs'[s].totalStaySeconds == (if s in r.logs then r.logs[s].totalStaySeconds else 0) + p.stayTimeSeconds
            && logs'[s].difficulty == (if p.difficulty.Some? then p.difficulty else if s in r.logs then r.logs[s].difficulty else None)
  {
    SaveWrites(c, r, s, p, today);
    hide Saved, PageLogged, CompletesLesson, Completes;
  }

  /** The seconds recorded for a page of a section. */
  function SecondsOn(pages: map<int, map<int, nat>>, s: int, n: int): nat {
    if s in pages && n in pages[s] then pages[s][n] else 0
  }

  /** The seconds of a save go to the page it names, of its own section, and to no other page. */
  lemma PagesExactly(c: Content, r: Rows, s: int, p: Progress, today: int, x: int, n: int)
    requires s in c.sections
    ensures SecondsOn(Saved(c, r, s, p, today).pages, x, n) ==
            SecondsOn(r.pages, x, n) + if x == s && p.pageNumber == Some(n) then p.stayTimeSeconds else 0
  {
    SaveWrites(c, r, s, p, today);
    hide Saved, Logged, CompletesLesson;
  }

  /**
   What recording study leaves of the day: its seconds, the first goal the day had, and whether it is
   achieved, which it is from the moment its seconds reach that goal. Other days stay as they are.
   */
  lemma RecordsDay(r: Rows, stay: nat, today: int)
    ensures var r' := RecordDailyActivity(r, stay, today);
            var seconds := (if today in r.daily then r.daily[today].studySeconds else 0) + stay;
            var goal := if today in r.daily && r.daily[today].dailyGoalMinSnapshot.Some?
                        then r.daily[today].dailyGoalMinSnapshot else r.dailyGoalMin;
            var was := today in r.daily && r.daily[today].goalAchieved;
            var meets := goal.Some? && goal.value != 0 && seconds >= 60 * goal.value;
            && r'.daily == r.daily[today := Activity(seconds, goal, was || meets)]
            && r'.stats.totalStudyMin == r.stats.totalStudyMin + seconds / 60 - (seconds - stay) / 60
            && r'.stats.lastAttendanceDate == (if meets && !was then Some(today) else r.stats.lastAttendanceDate)
  {
    hide NewestFirst, Streaks.LeadingRun, Streaks.UpTo;
  }

  /** A goal changed during the day does not move the goal of a day that has one. */
  lemma GoalIsRemembered(r: Rows, first: nat, goal: Option<int>, second: nat, today: int)
    requires today !in r.daily && r.dailyGoalMin.Some?
    ensures var r1 := RecordDailyActivity(r, first, today);
            var r2 := RecordDailyActivity(r1.(dailyGoalMin := goal), second, today);
            && r2.daily[today].dailyGoalMinSnapshot == r.dailyGoalMin
            && (r2.daily[today].goalAchieved <==> r.dailyGoalMin.value != 0 && first + second >= 60 * r.dailyGoalMin.value)
  {
    RecordsDay(r, first, today);
    var r1 := RecordDailyActivity(r, first, today).(dailyGoalMin := goal);
    RecordsDay(r1, second, today);
    hide RecordDailyActivity;
  }

  /** A save with study time records it as above; one without leaves the days alone. */
  lemma SaveRecordsDay(c: Content, r: Rows, s: int, p: Progress, today: int)
    requires s in c.sections
    ensures var r' := Saved(c, r, s, p, today);
            && r'.daily == (if p.stayTimeSeconds > 0 then RecordDailyActivity(r, p.stayTimeSeconds, today).daily else r.daily)
            && r'.dailyGoalMin == r.dailyGoalMin
  {
    hide Logged, PageLogged, CompletesLesson, Earned, Award, RecordDailyActivity;
    var r0 := r.(logs := r.logs[s := Logged(c, r, s, p)], pages := PageLogged(r, s, p));
    RecordsDay(r, p.stayTimeSeconds, today);
    RecordsDay(r0, p.stayTimeSeconds, today);
  }

  /** Which error a refused save reports, in the order of the checks. */
  lemma RefusedFor(c: Content, w: World, u: int, s: int, p: Progress)
    ensures var e := SaveRefusal(c, w, u, s, p);
            var known := s in c.sections && u in w.users;
            var badPage := known && p.pageNumber.Some?
                           && (c.sections[s].totalPages <= 0 || p.pageNumber.value >= c.sections[s].totalPages);
            var notGrammar := known && p.difficulty.Some? && !c.sections[s].isGrammar;
            var incomplete := known && p.difficulty.Some?
                              && !p.forceComplete && !p.isCompleted && !(0 < c.sections[s].totalPages <= p.currentPage)
                              && !(s in w.users[u].logs && w.users[u].logs[s].isCompleted);
            && (e == Some(SectionNotFound) <==> s !in c.sections)
            && (e == Some(UserNotFound) <==> s in c.sections && u !in w.users)
            && (e == Some(InvalidPageNumber) <==> badPage)
            && (e == Some(DifficultyGrammarOnly) <==> !badPage && notGrammar)
            && (e == Some(DifficultyRequiresCompletion) <==> !badPage && !notGrammar && incomplete)
            && (e == None <==> known && !badPage && !notGrammar && !incomplete)
  {
  }

  /** A save enqueues one badge job if it completes its section for the first time, one course job if it so completes a lesson, and no other. */
  lemma JobsExactly(c: Content, w: World, u: int, s: int, p: Progress, today: int)
    requires SaveRefusal(c, w, u, s, p).None?
    ensures var r, w' := w.users[u], AfterSave(c, w, u, s, p, today);
            var before, after := Completed(r.logs), Completed(w'.users[u].logs);
            var lesson := c.sections[s].lesson;
            && w'.jobs == w.jobs
                 + (if s in after && s !in before then multiset{SectionCompleted(u, s)} else multiset{})
                 + (if SectionsOf(c, lesson) <= after && !(SectionsOf(c, lesson) <= before)
                    then multiset{LessonCompleted(u, lesson)} else multiset{})
  {
    var r := w.users[u];
    SaveWrites(c, r, s, p, today);
    CountsTellCompletion(c, r, s, p);
    assert FirstCompletion(c, r, s, p) <==> s in Completed(r.logs[s := Logged(c, r, s, p)]) && s !in Completed(r.logs);
    hide Saved, Logged, FirstCompletion, CompletesLesson, Completed, SectionsOf, Refusal;
  }

  /**
   A delivery takes its job from the queue exactly when it is acknowledged. A badge job changes nothing
   but the badges of its user; a course job works on the rows of its user only.
   */
  lemma DeliveriesExactly(c: Content, w: World, u: int, x: int, acknowledged: bool)
    requires WellFormed(c) && u in w.users
    ensures var w1, w2 := Step(c, w, SectionJob(u, x, acknowledged)), Step(c, w, LessonJob(u, x, acknowledged));
            && w1.counters == w.counters && w2.counters == w.counters
            && (SectionCompleted(u, x) in w.jobs ==>
                && w1.jobs == (if acknowledged then w.jobs - multiset{SectionCompleted(u, x)} else w.jobs)
                && w1.users == w.users[u := w.users[u].(badges := w.users[u].badges + Earned(c.badgeIds, w.users[u].stats))])
            && (LessonCompleted(u, x) in w.jobs ==>
                && w2.jobs == (if acknowledged then w.jobs - multiset{LessonCompleted(u, x)} else w.jobs)
                && w2.users.Keys == w.users.Keys && forall v | v in w.users && v != u :: w2.users[v] == w.users[v])
            && (SectionCompleted(u, x) !in w.jobs ==> w1 == w) && (LessonCompleted(u, x) !in w.jobs ==> w2 == w)
  {
    hide Earned, AfterLessonJob;
  }

  /** Signing up gives empty rows, zero statistics and the sign-up badge; setting a goal changes the goal alone. */
  lemma AccountsExactly(c: Content, w: World, u: int, goal: Option<int>)
    requires WellFormed(c)
    ensures var w1, w2 := Step(c, w, SignUp(u)), Step(c, w, SetGoal(u, goal));
            && (u in w.users ==> w1 == w && w2 == w.(users := w.users[u := w.users[u].(dailyGoalMin := goal)]))
            && (u !in w.users ==>
                && w2 == w && w1.counters == w.counters && w1.jobs == w.jobs
                && w1.users == w.users[u := Rows(None, map[], map[], map[], Stats(0, 0, 0, 0, 0, None), {c.badgeIds["signed_up"]}, {})])
  {
    hide Earned, StatBadgeRules;
    assert {} + {c.badgeIds["signed_up"]} == {c.badgeIds["signed_up"]};
  }
}
