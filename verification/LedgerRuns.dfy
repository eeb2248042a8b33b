/**
 All users together: saves, sign-ups, goal changes, and the queue of jobs that check badges and record
 course completions, in any order. A job may be delivered more than once before it leaves the queue.
 */
module LedgerRuns {
  import opened Common
  import Streaks = Streak
  import opened Achievements
  import opened Ledger
  import opened LedgerStreaks

  datatype Counters = Counters(easy: int, normal: int, hard: int)

  datatype Job = SectionCompleted(user: int, section: int) | LessonCompleted(user: int, lesson: int)

  /** The tables: the rows of each user, the rating counters of each section, and the pending jobs. */
  datatype World = World(users: map<int, Rows>, counters: map<int, Counters>, jobs: multiset<Job>)

  datatype Event =
    | SignUp(user: int)
    | SetGoal(user: int, goal: Option<int>)
    | Save(user: int, section: int, progress: Progress, today: int)
    | SectionJob(user: int, section: int, acknowledged: bool)
    | LessonJob(user: int, lesson: int, acknowledged: bool)

  /** The counters of a section start at zero. */
  function CountersOf(counters: map<int, Counters>, s: int): Counters {
    if s in counters then counters[s] else Counters(0, 0, 0)
  }

  function CountOf(k: Counters, d: Difficulty): int {
    match d case EASY => k.easy case NORMAL => k.normal case HARD => k.hard
  }

  function Adjusted(k: Counters, d: Difficulty, delta: int): Counters {
    match d
    case EASY => k.(easy := k.easy + delta)
    case NORMAL => k.(normal := k.normal + delta)
    case HARD => k.(hard := k.hard + delta)
  }

  /** The counters of all sections after one rating of section s changes. */
  function Rerated(counters: map<int, Counters>, s: int, before: Option<Difficulty>, now: Option<Difficulty>): map<int, Counters> {
    if now.None? || now == before then counters
    else
      var k := CountersOf(counters, s);
      counters[s := Adjusted(if before.Some? then Adjusted(k, before.value, -1) else k, now.value, 1)]
  }

  function RatingOf(r: Rows, s: int): Option<Difficulty> {
    if s in r.logs then r.logs[s].difficulty else None
  }

  function NewRows(c: Content): Rows {
    Rows(None, map[], map[], map[], Stats(0, 0, 0, 0, 0, None), Award(c.badgeIds, {}, "signed_up"), {})
  }

  function SaveRefusal(c: Content, w: World, user: int, s: int, p: Progress): Option<SaveError> {
    if s !in c.sections then Some(SectionNotFound)
    else if user !in w.users then Some(UserNotFound)
    else Refusal(c, w.users[user], s, p)
  }

  function AfterSave(c: Content, w: World, user: int, s: int, p: Progress, today: int): World
    requires SaveRefusal(c, w, user, s, p).None?
  {
    var r := w.users[user];
    World(w.users[user := Saved(c, r, s, p, today)],
          Rerated(w.counters, s, RatingOf(r, s), p.difficulty),
          w.jobs + JobsOf(c, r, user, s, p))
  }

  /** What a save enqueues: a badge check when it first completes the section, and a course check when it completes the lesson. */
  function JobsOf(c: Content, r: Rows, user: int, s: int, p: Progress): multiset<Job>
    requires s in c.sections
  {
    (if FirstCompletion(c, r, s, p) then multiset{SectionCompleted(user, s)} else multiset{})
    + (if CompletesLesson(c, r, s, p) then multiset{LessonCompleted(user, c.sections[s].lesson)} else multiset{})
  }

  function Acknowledged(jobs: multiset<Job>, job: Job, acknowledged: bool): multiset<Job> {
    if acknowledged then jobs - multiset{job} else jobs
  }

  /** handleLessonCompleted: the count test, the existing row, then the row, the statistic and the badges. */
  function AfterLessonJob(c: Content, r: Rows, lesson: int): Rows
    requires WellFormed(c)
  {
    if lesson !in c.courseOf then r
    else
      var course := c.courseOf[lesson];
      var ids := SectionsOfCourse(c, course);
      if ids == {} || |ids * Completed(r.logs)| < |ids| || course in r.completions then r
      else
        var stats := r.stats.(totalCompletedCourses := r.stats.totalCompletedCourses + 1);
        r.(completions := r.completions + {course}, stats := stats, badges := r.badges + Earned(c.badgeIds, stats))
  }

  function Step(c: Content, w: World, e: Event): World
    requires WellFormed(c)
  {
    match e
    case SignUp(u) => if u in w.users then w else w.(users := w.users[u := NewRows(c)])
    case SetGoal(u, goal) => if u in w.users then w.(users := w.users[u := w.users[u].(dailyGoalMin := goal)]) else w
    case Save(u, s, p, today) => if SaveRefusal(c, w, u, s, p).None? then AfterSave(c, w, u, s, p, today) else w
    case SectionJob(u, s, acknowledged) =>
      if SectionCompleted(u, s) in w.jobs && u in w.users then
        var r := w.users[u];
        w.(users := w.users[u := r.(badges := r.badges + Earned(c.badgeIds, r.stats))],
           jobs := Acknowledged(w.jobs, SectionCompleted(u, s), acknowledged))
      else w
    case LessonJob(u, l, acknowledged) =>
      if LessonCompleted(u, l) in w.jobs && u in w.users then
        w.(users := w.users[u := AfterLessonJob(c, w.users[u], l)],
           jobs := Acknowledged(w.jobs, LessonCompleted(u, l), acknowledged))
      else w
  }

  const EMPTY := World(map[], map[], multiset{})

  function Run(c: Content, events: seq<Event>): World
    requires WellFormed(c)
  {
    if events == [] then EMPTY else Step(c, Run(c, events[..|events| - 1]), events[|events| - 1])
  }

  // ---- What every world reached satisfies ----

  function Raters(users: map<int, Rows>, s: int, d: Difficulty): set<int> {
    set u | u in users && RatingOf(users[u], s) == Some(d)
  }

  /** The three counters of a section are the histogram of its ratings. */
  ghost predicate Histogram(w: World) {
    forall s, d :: CountOf(CountersOf(w.counters, s), d) == |Raters(w.users, s, d)|
  }

  /** A finished course that is not recorded yet still has a job that will record it. */
  ghost predicate NoCourseLost(c: Content, w: World)
    requires WellFormed(c)
  {
    forall u, course | u in w.users && CourseDone(c, w.users[u].logs, course) && course !in w.users[u].completions ::
      exists l :: l in c.courseOf && c.courseOf[l] == course && LessonCompleted(u, l) in w.jobs
  }

  ghost predicate Inv(c: Content, w: World)
    requires WellFormed(c)
  {
    && (forall u | u in w.users :: Consistent(c, w.users[u]))
    && Histogram(w)
    && NoCourseLost(c, w)
  }

  lemma AdjustedCount(k: Counters, d: Difficulty, delta: int, e: Difficulty)
    ensures CountOf(Adjusted(k, d, delta), e) == CountOf(k, e) + if d == e then delta else 0
  {
  }

  /** A changed rating leaves one counter and enters another; nothing else moves. */
  lemma ReratedCounts(counters: map<int, Counters>, s: int, before: Option<Difficulty>, now: Option<Difficulty>, x: int, d: Difficulty)
    ensures var after := if now.Some? then now else before;
            CountOf(CountersOf(Rerated(counters, s, before, now), x), d) == CountOf(CountersOf(counters, x), d)
              + if x == s then (if after == Some(d) then 1 else 0) - (if before == Some(d) then 1 else 0) else 0
  {
    hide CountOf, Adjusted;
    if now.Some? && now != before && x == s {
      var k := CountersOf(counters, s);
      if before.Some? {
        AdjustedCount(k, before.value, -1, d);
        AdjustedCount(Adjusted(k, before.value, -1), now.value, 1, d);
      } else {
        AdjustedCount(k, now.value, 1, d);
      }
    }
  }

  lemma SaveKeepsHistogram(c: Content, w: World, user: int, s: int, p: Progress, today: int)
    requires SaveRefusal(c, w, user, s, p).None? && Histogram(w)
    ensures Histogram(AfterSave(c, w, user, s, p, today))
  {
    hide Saved, CompletesLesson, Refusal, Rerated, CountersOf;
    var r, w' := w.users[user], AfterSave(c, w, user, s, p, today);
    SaveWrites(c, r, s, p, today);
    var before, after := RatingOf(r, s), RatingOf(w'.users[user], s);
    assert after == if p.difficulty.Some? then p.difficulty else before;
    assert forall x | x != s :: RatingOf(w'.users[user], x) == RatingOf(r, x) by { hide Logged; }
    assert w'.counters == Rerated(w.counters, s, before, p.difficulty);
    hide Logged, AfterSave, RatingOf, CountOf;
    forall x, d ensures CountOf(CountersOf(w'.counters, x), d) == |Raters(w'.users, x, d)| {
      RatersAfter(w.users, user, w'.users[user], x, d);
      ReratedCounts(w.counters, s, before, p.difficulty, x, d);
    }
  }

  /** Replacing the rows of one user moves that user between rating classes and nobody else. */
  lemma RatersAfter(users: map<int, Rows>, u: int, r: Rows, s: int, d: Difficulty)
    requires u in users
    ensures |Raters(users[u := r], s, d)| == |Raters(users, s, d)|
              + (if RatingOf(r, s) == Some(d) then 1 else 0) - (if RatingOf(users[u], s) == Some(d) then 1 else 0)
  {
    hide RatingOf;
    var before, after := Raters(users, s, d), Raters(users[u := r], s, d);
    assert before - {u} == after - {u};
    assert u in before <==> RatingOf(users[u], s) == Some(d);
    assert u in after <==> RatingOf(r, s) == Some(d);
    assert |before - {u}| == |before| - if u in before then 1 else 0;
    assert |after - {u}| == |after| - if u in after then 1 else 0;
  }

  /** Rows that change only outside the logs rate as before. */
  lemma SameRatings(w: World, u: int, r: Rows)
    requires u in w.users && r.logs == w.users[u].logs && Histogram(w)
    ensures Histogram(w.(users := w.users[u := r]))
  {
    hide RatingOf;
    var w' := w.(users := w.users[u := r]);
    forall s, d ensures CountOf(CountersOf(w'.counters, s), d) == |Raters(w'.users, s, d)| {
      assert CountOf(CountersOf(w.counters, s), d) == |Raters(w.users, s, d)|;
      assert RatingOf(r, s) == RatingOf(w.users[u], s) by { SameRating(r, w.users[u], s); }
      RatersAfter(w.users, u, r, s, d);
    }
  }

  lemma SameRating(a: Rows, b: Rows, s: int)
    requires a.logs == b.logs
    ensures RatingOf(a, s) == RatingOf(b, s)
  {
  }

  /** The save that finishes a course also finishes a lesson of it, so it enqueues the job. */
  lemma FinishingSaveEnqueues(c: Content, r: Rows, s: int, p: Progress, course: int)
    requires WellFormed(c) && s in c.sections
    requires CourseDone(c, r.logs[s := Logged(c, r, s, p)], course) && !CourseDone(c, r.logs, course)
    ensures CompletesLesson(c, r, s, p) && c.courseOf[c.sections[s].lesson] == course
  {
    hide CompletesLesson;
    CountsTellCompletion(c, r, s, p);
    CompletionStays(c, r, s, p);
    hide Logged;
    var before, after := Completed(r.logs), Completed(r.logs[s := Logged(c, r, s, p)]);
    assert before <= after <= before + {s};
    var ids := SectionsOfCourse(c, course);
    assert s in ids && s !in before;
    assert SectionsOf(c, c.sections[s].lesson) <= ids;
    assert s in SectionsOf(c, c.sections[s].lesson);
  }

  lemma SaveKeepsNoCourseLost(c: Content, w: World, user: int, s: int, p: Progress, today: int)
    requires WellFormed(c) && SaveRefusal(c, w, user, s, p).None? && NoCourseLost(c, w)
    ensures NoCourseLost(c, AfterSave(c, w, user, s, p, today))
  {
    hide Saved, CompletesLesson, Refusal, CourseDone, Logged;
    var r, w' := w.users[user], AfterSave(c, w, user, s, p, today);
    SaveWrites(c, r, s, p, today);
    forall u, course | u in w'.users && CourseDone(c, w'.users[u].logs, course) && course !in w'.users[u].completions
      ensures exists l :: l in c.courseOf && c.courseOf[l] == course && LessonCompleted(u, l) in w'.jobs
    {
      if u == user && !CourseDone(c, r.logs, course) {
        FinishingSaveEnqueues(c, r, s, p, course);
        assert LessonCompleted(u, c.sections[s].lesson) in w'.jobs;
      } else {
        var l :| l in c.courseOf && c.courseOf[l] == course && LessonCompleted(u, l) in w.jobs;
        assert LessonCompleted(u, l) in w'.jobs;
      }
    }
  }

  /** A lesson job records the course of its lesson exactly when the course is finished, once. */
  lemma LessonJobRecords(c: Content, r: Rows, lesson: int)
    requires WellFormed(c) && CoursesExact(c, r)
    ensures var r' := AfterLessonJob(c, r, lesson);
            && r' == r.(completions := r'.completions, badges := r'.badges, stats := r'.stats)
            && r'.stats == r.stats.(totalCompletedCourses := |r'.completions|)
            && r'.badges == (if r'.completions == r.completions then r.badges else r.badges + Earned(c.badgeIds, r'.stats))
            && (if lesson in c.courseOf && CourseDone(c, r.logs, c.courseOf[lesson])
                then r'.completions == r.completions + {c.courseOf[lesson]} else r'.completions == r.completions)
  {
    hide Earned, WellFormed;
    if lesson in c.courseOf {
      var course := c.courseOf[lesson];
      FullIntersection(SectionsOfCourse(c, course), Completed(r.logs));
      hide SectionsOfCourse, Completed;
      assert course in r.completions ==> r.completions + {course} == r.completions;
    }
  }

  lemma LessonJobKeepsConsistent(c: Content, r: Rows, lesson: int)
    requires WellFormed(c) && Consistent(c, r)
    ensures Consistent(c, AfterLessonJob(c, r, lesson))
  {
    LessonJobRecords(c, r, lesson);
    hide AfterLessonJob, BadgesExact, Earned, TimeConserved, MinutesExact, CourseDone, PagesWithinSections, RatingsEarned;
    var r' := AfterLessonJob(c, r, lesson);
    assert TimeConserved(r') && MinutesExact(r') && PagesWithinSections(r') && RatingsEarned(c, r') by { SameTime(c, r, r'); }
    if r'.completions != r.completions {
      CurrentWithinBest(c.badgeIds, r.stats, r.badges, r.logs != map[]);
      CheckKeepsBadgesExact(c.badgeIds, r.stats, r'.stats, r.badges, r.logs != map[], r.logs != map[]);
    }
  }

  lemma SameTime(c: Content, r: Rows, r': Rows)
    requires TimeConserved(r) && MinutesExact(r) && PagesWithinSections(r) && RatingsEarned(c, r)
    requires r'.logs == r.logs && r'.daily == r.daily && r'.pages == r.pages
    requires r'.stats.totalStudyMin == r.stats.totalStudyMin
    ensures TimeConserved(r') && MinutesExact(r') && PagesWithinSections(r') && RatingsEarned(c, r')
  {
  }

  lemma LessonJobKeepsInv(c: Content, w: World, u: int, l: int, acknowledged: bool)
    requires WellFormed(c) && Inv(c, w) && u in w.users && LessonCompleted(u, l) in w.jobs
    ensures Inv(c, Step(c, w, LessonJob(u, l, acknowledged)))
  {
    hide Consistent, AfterLessonJob, CourseDone, Histogram;
    var r' := AfterLessonJob(c, w.users[u], l);
    var w' := Step(c, w, LessonJob(u, l, acknowledged));
    assert CoursesExact(c, w.users[u]) by { ConsistentClauses(c, w.users[u]); }
    LessonJobRecords(c, w.users[u], l);
    LessonJobKeepsConsistent(c, w.users[u], l);
    SameRatings(w, u, r');
    assert Histogram(w') by { HistogramCarries(w.(users := w.users[u := r']), w'); }
    forall v, course | v in w'.users && CourseDone(c, w'.users[v].logs, course) && course !in w'.users[v].completions
      ensures exists m :: m in c.courseOf && c.courseOf[m] == course && LessonCompleted(v, m) in w'.jobs
    {
      var m :| m in c.courseOf && c.courseOf[m] == course && LessonCompleted(v, m) in w.jobs;
      assert LessonCompleted(v, m) != LessonCompleted(u, l);
      assert LessonCompleted(v, m) in w'.jobs;
    }
  }

  lemma HistogramCarries(w: World, w': World)
    requires Histogram(w) && w'.users == w.users && w'.counters == w.counters
    ensures Histogram(w')
  {
  }

  /** Rows of one user that keep their logs and completions, and stay consistent, keep the whole invariant. */
  lemma QuietChangeKeepsInv(c: Content, w: World, u: int, r: Rows)
    requires WellFormed(c) && Inv(c, w) && u in w.users
    requires Consistent(c, r) && r.logs == w.users[u].logs && r.completions == w.users[u].completions
    ensures Inv(c, w.(users := w.users[u := r]))
  {
    hide Consistent, CourseDone, Histogram;
    SameRatings(w, u, r);
  }

  lemma NewRowsConsistent(c: Content)
    requires WellFormed(c)
    ensures Consistent(c, NewRows(c))
  {
    var r := NewRows(c);
    NewAccountBadges(c.badgeIds);
    assert LogSeconds(r.logs) == map[] && DaySeconds(r.daily) == map[] && DayMinutes(r.daily) == map[];
    assert CompletedLessons(c, r.logs) == {} by {
      assert Completed(r.logs) == {};
    }
  }

  /** A user without logs rates nothing and has finished no course. */
  lemma NewUserRatesNothing(c: Content, w: World, u: int)
    requires u !in w.users && Histogram(w)
    ensures Histogram(w.(users := w.users[u := NewRows(c)]))
  {
    var w' := w.(users := w.users[u := NewRows(c)]);
    assert forall s :: RatingOf(NewRows(c), s).None?;
    hide RatingOf, NewRows, CountOf, CountersOf;
    forall s, d ensures Raters(w'.users, s, d) == Raters(w.users, s, d) {
    }
  }

  lemma NewUserFinishedNothing(c: Content, course: int)
    requires WellFormed(c)
    ensures !CourseDone(c, NewRows(c).logs, course)
  {
  }

  lemma SignUpKeepsInv(c: Content, w: World, u: int)
    requires WellFormed(c) && Inv(c, w) && u !in w.users
    ensures Inv(c, w.(users := w.users[u := NewRows(c)]))
  {
    NewRowsConsistent(c);
    NewUserRatesNothing(c, w, u);
    forall course ensures !CourseDone(c, NewRows(c).logs, course) {
      NewUserFinishedNothing(c, course);
    }
    hide Consistent, Histogram, CourseDone, NewRows, WellFormed;
  }

  lemma CheckBadgesConsistent(c: Content, r: Rows)
    requires WellFormed(c) && Consistent(c, r)
    ensures Consistent(c, r.(badges := r.badges + Earned(c.badgeIds, r.stats)))
  {
    hide BadgesExact, Earned;
    CurrentWithinBest(c.badgeIds, r.stats, r.badges, r.logs != map[]);
    CheckKeepsBadgesExact(c.badgeIds, r.stats, r.stats, r.badges, r.logs != map[], r.logs != map[]);
  }

  lemma SectionJobKeepsInv(c: Content, w: World, u: int, s: int, acknowledged: bool)
    requires WellFormed(c) && Inv(c, w) && u in w.users && SectionCompleted(u, s) in w.jobs
    ensures Inv(c, Step(c, w, SectionJob(u, s, acknowledged)))
  {
    var r' := w.users[u].(badges := w.users[u].badges + Earned(c.badgeIds, w.users[u].stats));
    CheckBadgesConsistent(c, w.users[u]);
    QuietChangeKeepsInv(c, w, u, r');
    hide Consistent, Earned, CourseDone;
    var w1, w' := w.(users := w.users[u := r']), Step(c, w, SectionJob(u, s, acknowledged));
    HistogramCarries(w1, w');
    hide Histogram;
    assert forall v, l :: LessonCompleted(v, l) in w1.jobs ==> LessonCompleted(v, l) in w'.jobs;
  }

  lemma StepKeepsInv(c: Content, w: World, e: Event)
    requires WellFormed(c) && Inv(c, w)
    ensures Inv(c, Step(c, w, e))
  {
    match e
    case SignUp(u) =>
      if u !in w.users { SignUpKeepsInv(c, w, u); }
    case SetGoal(u, goal) =>
      if u in w.users {
        assert Consistent(c, w.users[u].(dailyGoalMin := goal)) by { hide BadgesExact; }
        QuietChangeKeepsInv(c, w, u, w.users[u].(dailyGoalMin := goal));
      }
    case Save(u, s, p, today) =>
      hide Consistent, CourseDone, Histogram, NoCourseLost, Saved, CompletesLesson;
      if SaveRefusal(c, w, u, s, p).None? {
        SaveKeepsConsistent(c, w.users[u], s, p, today);
        SaveKeepsHistogram(c, w, u, s, p, today);
        SaveKeepsNoCourseLost(c, w, u, s, p, today);
      }
    case SectionJob(u, s, acknowledged) =>
      if u in w.users && SectionCompleted(u, s) in w.jobs { SectionJobKeepsInv(c, w, u, s, acknowledged); }
    case LessonJob(u, l, acknowledged) =>
      if u in w.users && LessonCompleted(u, l) in w.jobs { LessonJobKeepsInv(c, w, u, l, acknowledged); }
  }

  /** Over any run whatsoever, every table agrees with every other. */
  lemma {:induction false} RunKeepsInv(c: Content, events: seq<Event>)
    requires WellFormed(c)
    ensures Inv(c, Run(c, events))
    decreases |events|
  {
    hide Step, Inv;
    if events != [] {
      RunKeepsInv(c, events[..|events| - 1]);
      StepKeepsInv(c, Run(c, events[..|events| - 1]), events[|events| - 1]);
    } else {
      EmptyInv(c);
    }
  }

  lemma EmptyInv(c: Content)
    requires WellFormed(c)
    ensures Inv(c, EMPTY)
  {
    assert forall s, d :: Raters(map[], s, d) == {};
  }

  // ---- What that means for the numbers shown ----

  /** 60 stored minutes never exceed the seconds logged, and lag them by less than a minute per active day. */
  lemma StudyTimeBounds(c: Content, events: seq<Event>, u: int)
    requires WellFormed(c) && u in Run(c, events).users
    ensures var r := Run(c, events).users[u];
            60 * r.stats.totalStudyMin <= Sum(LogSeconds(r.logs)) <= 60 * r.stats.totalStudyMin + 59 * |r.daily|
  {
    hide Consistent;
    RunKeepsInv(c, events);
    var r := Run(c, events).users[u];
    ConsistentClauses(c, r);
    MinutesOfSeconds(r.daily);
  }

  lemma ConsistentClauses(c: Content, r: Rows)
    requires WellFormed(c) && Consistent(c, r)
    ensures TimeConserved(r) && MinutesExact(r) && CoursesExact(c, r)
  {
  }

  lemma {:induction false} MinutesOfSeconds(daily: map<int, Activity>)
    ensures 60 * Sum(DayMinutes(daily)) <= Sum(DaySeconds(daily)) <= 60 * Sum(DayMinutes(daily)) + 59 * |daily|
    decreases |daily|
  {
    if daily != map[] {
      var d := Member(daily.Keys);
      var rest := daily - {d};
      MinutesOfSeconds(rest);
      assert DayMinutes(daily) - {d} == DayMinutes(rest) && DaySeconds(daily) - {d} == DaySeconds(rest);
      SumRemove(DayMinutes(daily), d);
      SumRemove(DaySeconds(daily), d);
    } else {
      assert DayMinutes(daily) == map[] && DaySeconds(daily) == map[];
    }
  }

  /** Once a user has no lesson job pending, every finished course has its completion row, and no other course has one. */
  lemma DrainedQueueMeansRecorded(c: Content, events: seq<Event>, u: int, course: int)
    requires WellFormed(c) && u in Run(c, events).users && forall l :: LessonCompleted(u, l) !in Run(c, events).jobs
    ensures var r := Run(c, events).users[u];
            && (course in r.completions <==> CourseDone(c, r.logs, course))
            && r.stats.totalCompletedCourses == |r.completions|
  {
    hide CourseDone;
    RunKeepsInv(c, events);
    assert CoursesExact(c, Run(c, events).users[u]);
  }

  /** The three rating counters of a section add up to the users who rated it, and none is negative. */
  lemma CountersAddUp(c: Content, events: seq<Event>, s: int)
    requires WellFormed(c)
    ensures var w := Run(c, events); var k := CountersOf(w.counters, s);
            && k.easy >= 0 && k.normal >= 0 && k.hard >= 0
            && k.easy + k.normal + k.hard == |set u | u in w.users && RatingOf(w.users[u], s).Some?|
  {
    RunKeepsInv(c, events);
    ThreeClasses(Run(c, events), s);
  }

  lemma ThreeClasses(w: World, s: int)
    requires Histogram(w)
    ensures var k := CountersOf(w.counters, s);
            && k.easy >= 0 && k.normal >= 0 && k.hard >= 0
            && k.easy + k.normal + k.hard == |set u | u in w.users && RatingOf(w.users[u], s).Some?|
  {
    hide RatingOf;
    var easy, normal, hard := Raters(w.users, s, EASY), Raters(w.users, s, NORMAL), Raters(w.users, s, HARD);
    assert CountOf(CountersOf(w.counters, s), EASY) == |easy|;
    assert CountOf(CountersOf(w.counters, s), NORMAL) == |normal|;
    assert CountOf(CountersOf(w.counters, s), HARD) == |hard|;
    forall u | u in w.users && RatingOf(w.users[u], s).Some? ensures u in easy + normal + hard {
      var d := RatingOf(w.users[u], s).value;
      assert d == EASY || d == NORMAL || d == HARD;
    }
    assert (set u | u in w.users && RatingOf(w.users[u], s).Some?) == easy + normal + hard;
    assert easy !! normal && easy + normal !! hard;
    assert |easy + normal| == |easy| + |normal| && |easy + normal + hard| == |easy + normal| + |hard|;
  }

  // ---- The streak cache, in any order of days ----

  ghost predicate StreaksOfSomeDay(w: World) {
    forall u | u in w.users :: StreakOfSomeDay(w.users[u])
  }

  lemma StepKeepsStreaksOfSomeDay(c: Content, w: World, e: Event)
    requires WellFormed(c) && StreaksOfSomeDay(w)
    ensures StreaksOfSomeDay(Step(c, w, e))
  {
    hide Saved, CompletesLesson, Streaks.StreakOn, Achieved, Earned, StatBadgeRules;
    match e
    case Save(u, s, p, today) =>
      if SaveRefusal(c, w, u, s, p).None? { SaveKeepsStreakOfSomeDay(c, w.users[u], s, p, today); }
    case SignUp(u) =>
      assert Achieved(map[]) == {} by { NoneAchieved(); }
      assert Streaks.StreakOn({}, 0) == 0 by { NoStreak(); }
    case _ =>
  }

  lemma NoStreak()
    ensures Streaks.StreakOn({}, 0) == 0
  {
  }

  /** In every run, with dates in any order, each user's stored streak is the streak of some day on which the user studied. */
  lemma {:induction false} RunKeepsStreaksOfSomeDay(c: Content, events: seq<Event>)
    requires WellFormed(c)
    ensures StreaksOfSomeDay(Run(c, events))
    decreases |events|
  {
    hide Step, StreakOfSomeDay;
    if events != [] {
      RunKeepsStreaksOfSomeDay(c, events[..|events| - 1]);
      StepKeepsStreaksOfSomeDay(c, Run(c, events[..|events| - 1]), events[|events| - 1]);
    }
  }

  // ---- Runs in which no user's local date goes back ----

  ghost predicate ForwardRun(c: Content, events: seq<Event>)
    requires WellFormed(c)
    decreases |events|
  {
    events == [] ||
    var init, e := events[..|events| - 1], events[|events| - 1];
    && ForwardRun(c, init)
    && (e.Save? && e.user in Run(c, init).users ==> Forward(Run(c, init).users[e.user], e.today))
  }

  ghost predicate StreaksExact(w: World) {
    forall u | u in w.users :: StreakExact(w.users[u]) && BestExact(w.users[u])
  }

  /** Then every user's cached streak and best streak are the ones the history of achieved days gives. */
  lemma {:induction false} RunKeepsStreaksExact(c: Content, events: seq<Event>)
    requires WellFormed(c) && ForwardRun(c, events)
    ensures StreaksExact(Run(c, events))
    decreases |events|
  {
    if events != [] {
      var init, e := events[..|events| - 1], events[|events| - 1];
      RunKeepsStreaksExact(c, init);
      StepKeepsStreaksExact(c, Run(c, init), e);
    }
  }

  /** And then a streak badge is held exactly by the users who ever achieved that many days in a row. */
  lemma StreakBadgesFollowHistory(c: Content, events: seq<Event>, u: int, rule: Rule)
    requires WellFormed(c) && ForwardRun(c, events) && u in Run(c, events).users
    requires rule in StatBadgeRules() && rule.measure == Streak && rule.threshold <= Streaks.STREAK_QUERY_LIMIT
    ensures var r := Run(c, events).users[u];
            c.badgeIds[rule.key] in r.badges <==>
            exists d :: d in Achieved(r.daily) && Streaks.Run(Achieved(r.daily), d) >= rule.threshold
  {
    var r := Run(c, events).users[u];
    RunKeepsInv(c, events);
    RunKeepsStreaksExact(c, events);
    assert c.badgeIds[rule.key] in r.badges <==> r.stats.maxStreak >= rule.threshold by {
      hide StatBadgeRules, Run;
      HeldBadges(c, r, rule);
    }
    RuleKeysDiffer(rule, rule);
    hide StatBadgeRules, Run, Inv, StreaksExact, Achieved;
    BestReaches(Achieved(r.daily), r.stats.maxStreak, rule.threshold);
  }

  lemma HeldBadges(c: Content, r: Rows, rule: Rule)
    requires WellFormed(c) && Consistent(c, r) && rule in StatBadgeRules()
    ensures c.badgeIds[rule.key] in r.badges <==> Best(rule.measure, r.stats) >= rule.threshold
  {
  }

  lemma BestReaches(days: set<int>, best: nat, k: nat)
    requires IsBest(days, best) && 0 < k <= Streaks.STREAK_QUERY_LIMIT
    ensures best >= k <==> exists d :: d in days && Streaks.Run(days, d) >= k
  {
    if best >= k {
      var d :| d in days && CappedRun(days, d) == best;
      assert Streaks.Run(days, d) >= k;
    }
    if d :| d in days && Streaks.Run(days, d) >= k {
      assert CappedRun(days, d) >= k;
    }
  }

  lemma StepKeepsStreaksExact(c: Content, w: World, e: Event)
    requires WellFormed(c) && StreaksExact(w)
    requires e.Save? && e.user in w.users ==> Forward(w.users[e.user], e.today)
    ensures StreaksExact(Step(c, w, e))
  {
    hide Saved, CompletesLesson, Run, IsBest, Forward, Achieved, Earned, StatBadgeRules;
    match e
    case Save(u, s, p, today) =>
      if SaveRefusal(c, w, u, s, p).None? { SaveKeepsStreaks(c, w.users[u], s, p, today); }
    case SignUp(u) =>
      assert Achieved(map[]) == {} by { NoneAchieved(); }
      assert IsBest({}, 0) by { NoBest(); }
    case _ =>
  }

  lemma NoneAchieved()
    ensures Achieved(map[]) == {}
  {
  }

  lemma NoBest()
    ensures IsBest({}, 0)
  {
  }

  // ---- A run whose date goes back by one day ----

  function Study(seconds: nat): Progress {
    Progress(0, None, seconds, false, false, None)
  }

  lemma StudyWrites(c: Content, r: Rows, s: int, seconds: nat, today: int)
    requires s in c.sections && seconds > 0 && today !in r.daily && r.dailyGoalMin == Some(10)
    ensures Refusal(c, r, s, Study(seconds)).None?
    ensures var r' := Saved(c, r, s, Study(seconds), today);
            && r'.daily.Keys == r.daily.Keys + {today} && r'.dailyGoalMin == Some(10)
            && Achieved(r'.daily) == Achieved(r.daily) + (if seconds >= 600 then {today} else {})
  {
    var p := Study(seconds);
    SaveStats(c, r, s, p, today);
    SaveWrites(c, r, s, p, today);
    RecordAchieves(r.(logs := r.logs[s := Logged(c, r, s, p)], pages := PageLogged(r, s, p)), seconds, today);
    hide Saved, RecordDailyActivity, Achieved, Logged, PageLogged;
  }

  function GoalSet(u: int): seq<Event> {
    [SignUp(u)] + [SetGoal(u, Some(10))]
  }

  /** Goals met on days 7, 8 and 10. */
  function GoalsMet(u: int, s: int): seq<Event> {
    GoalSet(u) + [Save(u, s, Study(600), 7)] + [Save(u, s, Study(600), 8)] + [Save(u, s, Study(600), 10)]
  }

  lemma RunAppend(c: Content, events: seq<Event>, e: Event)
    requires WellFormed(c)
    ensures Run(c, events + [e]) == Step(c, Run(c, events), e)
  {
    assert (events + [e])[..|events|] == events;
  }

  lemma StudyRuns(c: Content, events: seq<Event>, u: int, s: int, seconds: nat, today: int)
    requires WellFormed(c) && s in c.sections && u in Run(c, events).users
    requires var r := Run(c, events).users[u]; seconds > 0 && today !in r.daily && r.dailyGoalMin == Some(10)
    ensures var r, w' := Run(c, events).users[u], Run(c, events + [Save(u, s, Study(seconds), today)]);
            && u in w'.users && w'.users[u] == Saved(c, r, s, Study(seconds), today)
            && w'.users[u].dailyGoalMin == Some(10) && w'.users[u].daily.Keys == r.daily.Keys + {today}
            && Achieved(w'.users[u].daily) == Achieved(r.daily) + (if seconds >= 600 then {today} else {})
  {
    RunAppend(c, events, Save(u, s, Study(seconds), today));
    StudyWrites(c, Run(c, events).users[u], s, seconds, today);
    hide Saved, Run, Refusal, Achieved;
  }

  lemma GoalSetRuns(c: Content, u: int)
    requires WellFormed(c)
    ensures var w := Run(c, GoalSet(u)); u in w.users && w.users[u] == NewRows(c).(dailyGoalMin := Some(10))
  {
    assert Run(c, []) == EMPTY;
    hide Run;
    RunAppend(c, [], SignUp(u));
    assert [] + [SignUp(u)] == [SignUp(u)];
    RunAppend(c, [SignUp(u)], SetGoal(u, Some(10)));
  }

  /** After a run the user has met the goal on exactly these days, and the streaks are exact. */
  ghost predicate Met(c: Content, events: seq<Event>, u: int, days: set<int>)
    requires WellFormed(c)
  {
    && u in Run(c, events).users
    && var r := Run(c, events).users[u];
       r.dailyGoalMin == Some(10) && StreakExact(r) && BestExact(r) && Achieved(r.daily) == r.daily.Keys == days
  }

  lemma MeetsNext(c: Content, events: seq<Event>, u: int, s: int, days: set<int>, today: int)
    requires WellFormed(c) && s in c.sections && Met(c, events, u, days) && forall d | d in days :: d < today
    ensures Met(c, events + [Save(u, s, Study(600), today)], u, days + {today})
  {
    var r := Run(c, events).users[u];
    StudyRuns(c, events, u, s, 600, today);
    SaveKeepsStreaks(c, r, s, Study(600), today);
    hide Run, Saved, StreakExact, BestExact, Achieved;
  }

  lemma NoneMet(c: Content, u: int)
    requires WellFormed(c)
    ensures Met(c, GoalSet(u), u, {})
  {
    GoalSetRuns(c, u);
    NoneAchieved();
    NoBest();
    var r := NewRows(c).(dailyGoalMin := Some(10));
    assert r.daily == map[] && StreakExact(r) && BestExact(r) by { hide IsBest, Achieved, Run; }
    hide Run, IsBest, Achieved, GoalSet, NewRows;
  }

  lemma TwoGoalsMet(c: Content, u: int, s: int)
    requires WellFormed(c) && s in c.sections
    ensures Met(c, GoalSet(u) + [Save(u, s, Study(600), 7)] + [Save(u, s, Study(600), 8)], u, {7, 8})
  {
    hide Met, Run, GoalSet, Study;
    NoneMet(c, u);
    MeetsNext(c, GoalSet(u), u, s, {}, 7);
    assert {} + {7} == {7} && {7} + {8} == {7, 8};
    MeetsNext(c, GoalSet(u) + [Save(u, s, Study(600), 7)], u, s, {7}, 8);
  }

  lemma GoalsMetRuns(c: Content, u: int, s: int)
    requires WellFormed(c) && s in c.sections
    ensures Met(c, GoalsMet(u, s), u, {7, 8, 10})
  {
    hide Met, Run, GoalSet, Study;
    TwoGoalsMet(c, u, s);
    assert {7, 8} + {10} == {7, 8, 10};
    MeetsNext(c, GoalSet(u) + [Save(u, s, Study(600), 7)] + [Save(u, s, Study(600), 8)], u, s, {7, 8}, 10);
  }

  lemma SecondOnDayNine(c: Content, r: Rows, s: int)
    requires s in c.sections && Achieved(r.daily) == r.daily.Keys == {7, 8, 10} && StreakExact(r) && r.dailyGoalMin == Some(10)
    ensures var r' := Saved(c, r, s, Study(1), 9);
            r'.stats.currentStreak == 1 && Streaks.StreakOn(Achieved(r'.daily), 9) == 2
  {
    hide Saved, RecordDailyActivity, Logged, PageLogged, Streaks.StreakOn;
    var p := Study(1);
    SaveStats(c, r, s, p, 9);
    BackwardDaysGoStale(r.(logs := r.logs[s := Logged(c, r, s, p)], pages := PageLogged(r, s, p)));
  }

  /** Studying one second on day 9 after that, with the user's date back by one day, leaves the cache stale. */
  lemma DateBackGoesStale(c: Content, u: int, s: int)
    requires WellFormed(c) && s in c.sections
    ensures var w := Run(c, GoalsMet(u, s) + [Save(u, s, Study(1), 9)]);
            && u in w.users && w.users[u].stats.currentStreak == 1
            && Streaks.StreakOn(Achieved(w.users[u].daily), 9) == 2
  {
    hide Run, Saved, Streaks.StreakOn, GoalsMet, StreakExact, BestExact, Achieved;
    GoalsMetRuns(c, u, s);
    StudyRuns(c, GoalsMet(u, s), u, s, 1, 9);
    SecondOnDayNine(c, Run(c, GoalsMet(u, s)).users[u], s);
  }
}
