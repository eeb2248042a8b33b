/**
 The learning ledger of one user: the rows of that user in each table, what saving progress does
 to them in one transaction, and what every save keeps. Days are day numbers in the user's own
 time zone.
 */
module Ledger {
  import opened Common
  import opened Streak
  import opened Achievements

  datatype Difficulty = EASY | NORMAL | HARD

  datatype SectionLog = SectionLog(
    maxPageReached: int,
    totalStaySeconds: nat,
    isCompleted: bool,
    difficulty: Option<Difficulty>)

  datatype Activity = Activity(studySeconds: nat, dailyGoalMinSnapshot: Option<int>, goalAchieved: bool)

  datatype Rows = Rows(
    dailyGoalMin: Option<int>,
    logs: map<int, SectionLog>,
    pages: map<int, map<int, nat>>,
    daily: map<int, Activity>,
    stats: Stats,
    badges: set<int>,
    completions: set<int>)

  datatype Section = Section(lesson: int, isGrammar: bool, totalPages: int)

  /** The content tree, section -> lesson -> course, and the badge catalogue; both fixed during a run. */
  datatype Content = Content(sections: map<int, Section>, courseOf: map<int, int>, badgeIds: map<string, int>)

  predicate WellFormed(c: Content) {
    && (forall s | s in c.sections :: c.sections[s].lesson in c.courseOf)
    && Complete(c.badgeIds)
  }

  /** Every tree whose sections belong to known lessons has a well-formed content. */
  lemma ContentExists(sections: map<int, Section>, courseOf: map<int, int>) returns (c: Content)
    requires forall s | s in sections :: sections[s].lesson in courseOf
    ensures WellFormed(c) && c.sections == sections && c.courseOf == courseOf
  {
    var ids := CatalogueExists();
    hide Complete;
    c := Content(sections, courseOf, ids);
  }

  datatype Progress = Progress(
    currentPage: int,
    pageNumber: Option<int>,
    stayTimeSeconds: nat,
    forceComplete: bool,
    isCompleted: bool,
    difficulty: Option<Difficulty>)

  datatype SaveError =
    | SectionNotFound
    | UserNotFound
    | InvalidPageNumber
    | DifficultyGrammarOnly
    | DifficultyRequiresCompletion

  // ---- Views of the rows ----

  function Completed(logs: map<int, SectionLog>): set<int> {
    set s | s in logs && logs[s].isCompleted
  }

  function SectionsOf(c: Content, lesson: int): set<int> {
    set s | s in c.sections && c.sections[s].lesson == lesson
  }

  function SectionsOfCourse(c: Content, course: int): set<int>
    requires WellFormed(c)
  {
    set s | s in c.sections && c.courseOf[c.sections[s].lesson] == course
  }

  /** The lessons, among those that have sections, whose sections are all complete. */
  function CompletedLessons(c: Content, logs: map<int, SectionLog>): set<int> {
    set l | l in c.courseOf && SectionsOf(c, l) != {} && SectionsOf(c, l) <= Completed(logs)
  }

  predicate CourseDone(c: Content, logs: map<int, SectionLog>, course: int)
    requires WellFormed(c)
  {
    SectionsOfCourse(c, course) != {} && SectionsOfCourse(c, course) <= Completed(logs)
  }

  function LogSeconds(logs: map<int, SectionLog>): map<int, nat> {
    map s | s in logs :: logs[s].totalStaySeconds
  }

  function DaySeconds(daily: map<int, Activity>): map<int, nat> {
    map d | d in daily :: daily[d].studySeconds
  }

  function DayMinutes(daily: map<int, Activity>): map<int, nat> {
    map d | d in daily :: daily[d].studySeconds / 60
  }

  function Achieved(daily: map<int, Activity>): set<int> {
    set d | d in daily && daily[d].goalAchieved
  }

  // ---- Daily activity and the cached streak ----

  /** The row of today after the upsert; the goal is remembered from the first save that had one. */
  function Studied(r: Rows, stay: nat, today: int): Activity {
    if today in r.daily then
      var a := r.daily[today];
      Activity(a.studySeconds + stay,
               if a.dailyGoalMinSnapshot.Some? then a.dailyGoalMinSnapshot else r.dailyGoalMin, a.goalAchieved)
    else Activity(stay, r.dailyGoalMin, false)
  }

  predicate GoalJustMet(a: Activity) {
    && a.dailyGoalMinSnapshot.Some? && a.dailyGoalMinSnapshot.value != 0
    && a.studySeconds >= a.dailyGoalMinSnapshot.value * 60
    && !a.goalAchieved
  }

  function ExpireCachedGoalStreak(r: Rows, today: int): Rows {
    var seen := UpTo(Achieved(r.daily), today);
    if seen != {} && today - Greatest(seen) <= 1 then r else r.(stats := r.stats.(currentStreak := 0))
  }

  function RecalculateGoalStreak(r: Rows, day: int): Rows {
    var streak := LeadingRun(NewestFirst(UpTo(Achieved(r.daily), day), STREAK_QUERY_LIMIT), day);
    r.(stats := r.stats.(currentStreak := streak, maxStreak := Max(r.stats.maxStreak, streak),
                         lastAttendanceDate := Some(day)))
  }

  function AddStudy(r: Rows, stay: nat, today: int): Rows {
    var a := Studied(r, stay, today);
    r.(daily := r.daily[today := a],
       stats := r.stats.(totalStudyMin := r.stats.totalStudyMin + a.studySeconds / 60 - (a.studySeconds - stay) / 60))
  }

  function RecordDailyActivity(r: Rows, stay: nat, today: int): (r': Rows)
    ensures r' == r.(daily := r'.daily, stats := r'.stats)
    ensures r'.stats.totalCompletedLessons == r.stats.totalCompletedLessons
    ensures r'.stats.totalCompletedCourses == r.stats.totalCompletedCourses
  {
    var a := Studied(r, stay, today);
    var r1 := AddStudy(r, stay, today);
    if GoalJustMet(a) then RecalculateGoalStreak(r1.(daily := r1.daily[today := a.(goalAchieved := true)]), today)
    else ExpireCachedGoalStreak(r1, today)
  }

  // ---- Saving progress ----

  predicate Completes(c: Content, s: int, p: Progress)
    requires s in c.sections
  {
    p.forceComplete || p.isCompleted || (c.sections[s].totalPages > 0 && Max(p.currentPage, 0) >= c.sections[s].totalPages)
  }

  /** Why a save is refused, if it is; the checks apply in this order. */
  function Refusal(c: Content, r: Rows, s: int, p: Progress): Option<SaveError>
    requires s in c.sections
  {
    if p.pageNumber.Some? && (c.sections[s].totalPages <= 0 || p.pageNumber.value >= c.sections[s].totalPages)
    then Some(InvalidPageNumber)
    else if p.difficulty.Some? && !c.sections[s].isGrammar then Some(DifficultyGrammarOnly)
    else if p.difficulty.Some? && !Completes(c, s, p) && !(s in r.logs && r.logs[s].isCompleted)
    then Some(DifficultyRequiresCompletion)
    else None
  }

  function Logged(c: Content, r: Rows, s: int, p: Progress): SectionLog
    requires s in c.sections
  {
    var nextMax := Max(p.currentPage, 0);
    if s in r.logs then
      var b := r.logs[s];
      SectionLog(Max(b.maxPageReached, nextMax), b.totalStaySeconds + p.stayTimeSeconds,
                 Completes(c, s, p) || b.isCompleted, if p.difficulty.Some? then p.difficulty else b.difficulty)
    else SectionLog(nextMax, p.stayTimeSeconds, Completes(c, s, p), p.difficulty)
  }

  /** A save is accepted exactly when its page exists and its rating, if any, is of a grammar section that it leaves complete. */
  lemma AcceptedExactly(c: Content, r: Rows, s: int, p: Progress)
    requires s in c.sections
    ensures Refusal(c, r, s, p).None? <==>
            && (p.pageNumber.Some? ==> 0 < c.sections[s].totalPages && p.pageNumber.value < c.sections[s].totalPages)
            && (p.difficulty.Some? ==> c.sections[s].isGrammar && Logged(c, r, s, p).isCompleted)
  {
  }

  function PagesOf(r: Rows, s: int): map<int, nat> {
    if s in r.pages then r.pages[s] else map[]
  }

  function PageLogged(r: Rows, s: int, p: Progress): map<int, map<int, nat>> {
    if p.pageNumber.Some? && p.stayTimeSeconds > 0 then
      var pages := PagesOf(r, s);
      var n := p.pageNumber.value;
      r.pages[s := pages[n := (if n in pages then pages[n] else 0) + p.stayTimeSeconds]]
    else r.pages
  }

  predicate FirstCompletion(c: Content, r: Rows, s: int, p: Progress)
    requires s in c.sections
  {
    !(s in r.logs && r.logs[s].isCompleted) && Logged(c, r, s, p).isCompleted
  }

  /** The program's own test for a lesson just completed, made of two counts. */
  predicate CompletesLesson(c: Content, r: Rows, s: int, p: Progress)
    requires s in c.sections
  {
    var ids := SectionsOf(c, c.sections[s].lesson);
    var completedBefore := |ids * Completed(r.logs)|;
    completedBefore + (if FirstCompletion(c, r, s, p) then 1 else 0) == |ids| && completedBefore < |ids|
  }

  /** The rows just before the badges are awarded. */
  function Written(c: Content, r: Rows, s: int, p: Progress, today: int): (r': Rows)
    requires s in c.sections
  {
    var r1 := r.(logs := r.logs[s := Logged(c, r, s, p)], pages := PageLogged(r, s, p));
    var r2 := if p.stayTimeSeconds > 0 then RecordDailyActivity(r1, p.stayTimeSeconds, today) else r1;
    if CompletesLesson(c, r, s, p)
    then r2.(stats := r2.stats.(totalCompletedLessons := r2.stats.totalCompletedLessons + 1)) else r2
  }

  /** The rows after an accepted save. */
  function Saved(c: Content, r: Rows, s: int, p: Progress, today: int): Rows
    requires s in c.sections
  {
    var r' := Written(c, r, s, p, today);
    var started := if r.logs == map[] then Award(c.badgeIds, r.badges, "first_start") else r.badges;
    r'.(badges := started + Earned(c.badgeIds, r'.stats))
  }

  // ---- What the rows of a user always satisfy ----

  /** Every second is in exactly one section log and in exactly one day. */
  ghost predicate TimeConserved(r: Rows) {
    Sum(LogSeconds(r.logs)) == Sum(DaySeconds(r.daily))
  }

  /** The time spent on the pages of a section is part of the time spent on the section. */
  ghost predicate PagesWithinSections(r: Rows) {
    forall s | s in r.pages :: s in r.logs && Sum(r.pages[s]) <= r.logs[s].totalStaySeconds
  }

  /** The stored minutes are the whole minutes of each day, added up. */
  ghost predicate MinutesExact(r: Rows) {
    r.stats.totalStudyMin == Sum(DayMinutes(r.daily))
  }

  ghost predicate LessonsExact(c: Content, r: Rows) {
    r.stats.totalCompletedLessons == |CompletedLessons(c, r.logs)|
  }

  ghost predicate CoursesExact(c: Content, r: Rows)
    requires WellFormed(c)
  {
    && r.stats.totalCompletedCourses == |r.completions|
    && (forall course | course in r.completions :: CourseDone(c, r.logs, course))
  }

  /** Only completed grammar sections are rated. */
  ghost predicate RatingsEarned(c: Content, r: Rows) {
    forall s | s in r.logs :: s in c.sections && (r.logs[s].difficulty.Some? ==> r.logs[s].isCompleted && c.sections[s].isGrammar)
  }

  ghost predicate Consistent(c: Content, r: Rows)
    requires WellFormed(c)
  {
    && TimeConserved(r) && PagesWithinSections(r) && MinutesExact(r)
    && LessonsExact(c, r) && CoursesExact(c, r) && RatingsEarned(c, r)
    && BadgesExact(c.badgeIds, r.stats, r.badges, r.logs != map[])
  }

  // ---- Proofs, one clause at a time ----

  /** What recording study time writes: today's row, the minutes, and nothing else but the streak. */
  lemma RecordWrites(r: Rows, stay: nat, today: int)
    ensures var r', a := RecordDailyActivity(r, stay, today), Studied(r, stay, today);
            && DaySeconds(r'.daily) == DaySeconds(r.daily)[today := a.studySeconds]
            && DayMinutes(r'.daily) == DayMinutes(r.daily)[today := a.studySeconds / 60]
            && r'.stats.totalStudyMin == r.stats.totalStudyMin + a.studySeconds / 60 - (a.studySeconds - stay) / 60
  {
    hide NewestFirst, LeadingRun, UpTo, Achieved, GoalJustMet;
  }

  /** And the goal of today is achieved exactly when it was, or when this study meets it. */
  lemma RecordAchieves(r: Rows, stay: nat, today: int)
    ensures var r' := RecordDailyActivity(r, stay, today);
            && Achieved(r'.daily) == Achieved(r.daily) + (if GoalJustMet(Studied(r, stay, today)) then {today} else {})
            && r'.daily.Keys == r.daily.Keys + {today}
  {
    hide NewestFirst, LeadingRun, UpTo, GoalJustMet;
    assert today in Achieved(r.daily) <==> Studied(r, stay, today).goalAchieved;
  }

  /** What an accepted save writes, table by table. */
  lemma SaveWrites(c: Content, r: Rows, s: int, p: Progress, today: int)
    requires s in c.sections
    ensures var r', stay := Saved(c, r, s, p, today), p.stayTimeSeconds;
            && r'.logs == r.logs[s := Logged(c, r, s, p)]
            && r'.pages == PageLogged(r, s, p)
            && r'.completions == r.completions && r'.dailyGoalMin == r.dailyGoalMin
            && r'.stats.totalCompletedCourses == r.stats.totalCompletedCourses
            && r'.stats.totalCompletedLessons == r.stats.totalCompletedLessons + (if CompletesLesson(c, r, s, p) then 1 else 0)
            && (stay == 0 ==> r'.daily == r.daily && r'.stats.totalStudyMin == r.stats.totalStudyMin)
            && (stay > 0 ==>
                var a := Studied(r, stay, today);
                && DaySeconds(r'.daily) == DaySeconds(r.daily)[today := a.studySeconds]
                && DayMinutes(r'.daily) == DayMinutes(r.daily)[today := a.studySeconds / 60]
                && r'.stats.totalStudyMin == r.stats.totalStudyMin + a.studySeconds / 60 - (a.studySeconds - stay) / 60)
  {
    hide Logged, PageLogged, CompletesLesson, RecordDailyActivity, DaySeconds, DayMinutes;
    RecordWrites(r.(logs := r.logs[s := Logged(c, r, s, p)], pages := PageLogged(r, s, p)), p.stayTimeSeconds, today);
  }

  /** A save adds its seconds to the logs and to the days alike. */
  lemma SaveKeepsTime(c: Content, r: Rows, s: int, p: Progress, today: int)
    requires s in c.sections && TimeConserved(r)
    ensures TimeConserved(Saved(c, r, s, p, today))
    ensures Sum(LogSeconds(Saved(c, r, s, p, today).logs)) == Sum(LogSeconds(r.logs)) + p.stayTimeSeconds
  {
    hide Saved;
    var r' := Saved(c, r, s, p, today);
    var l := Logged(c, r, s, p);
    SaveWrites(c, r, s, p, today);
    assert LogSeconds(r'.logs) == LogSeconds(r.logs)[s := l.totalStaySeconds];
    SumUpdate(LogSeconds(r.logs), s, l.totalStaySeconds);
    SumUpdate(DaySeconds(r.daily), today, Studied(r, p.stayTimeSeconds, today).studySeconds);
  }

  lemma SaveKeepsPages(c: Content, r: Rows, s: int, p: Progress, today: int)
    requires s in c.sections && PagesWithinSections(r)
    ensures PagesWithinSections(Saved(c, r, s, p, today))
  {
    hide Saved;
    SaveWrites(c, r, s, p, today);
    if p.pageNumber.Some? {
      var pages, n := PagesOf(r, s), p.pageNumber.value;
      SumUpdate(pages, n, (if n in pages then pages[n] else 0) + p.stayTimeSeconds);
      assert Sum<int>(map[]) == 0;
    }
  }

  /** A save adds its seconds to the pages of its own section if it names one, and to no other section's pages. */
  lemma PageSecondsAdd(r: Rows, s: int, p: Progress, x: int)
    ensures Sum(PagesOf(r.(pages := PageLogged(r, s, p)), x))
         == Sum(PagesOf(r, x)) + if x == s && p.pageNumber.Some? then p.stayTimeSeconds else 0
  {
    if x == s && p.pageNumber.Some? && p.stayTimeSeconds > 0 {
      var pages, n := PagesOf(r, s), p.pageNumber.value;
      SumUpdate(pages, n, (if n in pages then pages[n] else 0) + p.stayTimeSeconds);
    }
  }

  lemma SaveKeepsMinutes(c: Content, r: Rows, s: int, p: Progress, today: int)
    requires s in c.sections && MinutesExact(r)
    ensures MinutesExact(Saved(c, r, s, p, today))
  {
    hide Saved;
    SaveWrites(c, r, s, p, today);
    SumUpdate(DayMinutes(r.daily), today, Studied(r, p.stayTimeSeconds, today).studySeconds / 60);
  }

  lemma FullIntersection(ids: set<int>, x: set<int>)
    ensures |ids * x| == |ids| <==> ids <= x
    ensures |ids * x| <= |ids|
  {
    SubsetSize(ids * x, ids);
    assert ids <= x ==> ids * x == ids;
    if |ids * x| == |ids| {
      SubsetOfSameSize(ids * x, ids);
    }
  }

  lemma LastOneCompletes(ids: set<int>, before: set<int>, s: int, now: bool)
    requires s in ids && (s in before ==> now)
    ensures var first := now && s !in before;
            |ids * before| + (if first then 1 else 0) == |ids| && |ids * before| < |ids|
            <==> ids <= before + (if now then {s} else {}) && !(ids <= before)
  {
    var after := before + if now then {s} else {};
    FullIntersection(ids, before);
    FullIntersection(ids, after);
    assert ids * after == ids * before + if now && s !in before then {s} else {};
  }

  /** The two counts of the program say exactly that this save completes the last section of the lesson. */
  lemma CountsTellCompletion(c: Content, r: Rows, s: int, p: Progress)
    requires s in c.sections
    ensures var ids, after := SectionsOf(c, c.sections[s].lesson), Completed(r.logs[s := Logged(c, r, s, p)]);
            CompletesLesson(c, r, s, p) <==> ids <= after && !(ids <= Completed(r.logs))
  {
    CompletionStays(c, r, s, p);
    hide Logged;
    var ids, before, l := SectionsOf(c, c.sections[s].lesson), Completed(r.logs), Logged(c, r, s, p);
    assert Completed(r.logs[s := l]) == before + (if l.isCompleted then {s} else {});
    LastOneCompletes(ids, before, s, l.isCompleted);
  }

  /** Completion and the furthest page never go back, and no log is lost. */
  lemma CompletionStays(c: Content, r: Rows, s: int, p: Progress)
    requires s in c.sections
    ensures forall x | x in r.logs :: var logs' := r.logs[s := Logged(c, r, s, p)];
              && x in logs' && (r.logs[x].isCompleted ==> logs'[x].isCompleted)
              && r.logs[x].maxPageReached <= logs'[x].maxPageReached
  {
  }

  /** Changing the log of one section can complete its own lesson and no other. */
  lemma OnlyOwnLessonChanges(c: Content, logs: map<int, SectionLog>, logs': map<int, SectionLog>, s: int)
    requires s in c.sections && WellFormed(c)
    requires Completed(logs) <= Completed(logs') <= Completed(logs) + {s}
    ensures var lesson := c.sections[s].lesson; var ids := SectionsOf(c, lesson);
            CompletedLessons(c, logs') == CompletedLessons(c, logs)
              + (if ids <= Completed(logs') && !(ids <= Completed(logs)) then {lesson} else {})
  {
    var lesson := c.sections[s].lesson;
    forall l | l in c.courseOf
      ensures l in CompletedLessons(c, logs') <==> l in CompletedLessons(c, logs) || (l == lesson && SectionsOf(c, l) <= Completed(logs'))
    {
      OneLessonChanges(c, logs, logs', s, l);
    }
    hide Completed, SectionsOf;
  }

  lemma OneLessonChanges(c: Content, logs: map<int, SectionLog>, logs': map<int, SectionLog>, s: int, l: int)
    requires s in c.sections && l in c.courseOf
    requires Completed(logs) <= Completed(logs') <= Completed(logs) + {s}
    ensures l in CompletedLessons(c, logs') <==>
            l in CompletedLessons(c, logs) || (l == c.sections[s].lesson && SectionsOf(c, l) <= Completed(logs'))
  {
    var ids := SectionsOf(c, l);
    assert s in ids <==> l == c.sections[s].lesson;
    hide Completed, SectionsOf;
  }

  lemma SaveKeepsLessons(c: Content, r: Rows, s: int, p: Progress, today: int)
    requires s in c.sections && WellFormed(c) && LessonsExact(c, r)
    ensures LessonsExact(c, Saved(c, r, s, p, today))
  {
    hide Saved, CompletesLesson;
    var lesson, logs' := c.sections[s].lesson, r.logs[s := Logged(c, r, s, p)];
    SaveWrites(c, r, s, p, today);
    CountsTellCompletion(c, r, s, p);
    CompletionStays(c, r, s, p);
    assert Completed(r.logs) <= Completed(logs') <= Completed(r.logs) + {s} by { hide Logged; }
    hide Logged, Completed, SectionsOf;
    OnlyOwnLessonChanges(c, r.logs, logs', s);
    assert CompletesLesson(c, r, s, p) ==> lesson !in CompletedLessons(c, r.logs);
  }

  lemma SaveKeepsCourses(c: Content, r: Rows, s: int, p: Progress, today: int)
    requires s in c.sections && WellFormed(c) && CoursesExact(c, r)
    ensures CoursesExact(c, Saved(c, r, s, p, today))
  {
    hide Saved, SectionsOfCourse;
    SaveWrites(c, r, s, p, today);
    CompletionStays(c, r, s, p);
    hide Logged;
    assert Completed(r.logs) <= Completed(r.logs[s := Logged(c, r, s, p)]);
  }

  lemma SaveKeepsRatings(c: Content, r: Rows, s: int, p: Progress, today: int)
    requires s in c.sections && RatingsEarned(c, r) && Refusal(c, r, s, p).None?
    ensures RatingsEarned(c, Saved(c, r, s, p, today))
  {
    hide Saved;
    SaveWrites(c, r, s, p, today);
  }
}
