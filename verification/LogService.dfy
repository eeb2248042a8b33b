/**
 The learning ledger as the service runs it: tables that transactions update row by row. Each
 method is proved to leave the tables as the ledger functions say; what those keep is proved there.
 */
module LogService {
  import opened Common
  import opened Calendar
  import opened Streak
  import opened Achievements
  import opened Ledger
  import opened LedgerRuns

  class LogService {
    const content: Content
    var users: map<int, Rows>
    var counters: map<int, Counters>
    var jobs: multiset<Job>

    function Tables(): World
      reads this
    {
      World(users, counters, jobs)
    }

    constructor (content: Content)
      requires WellFormed(content)
      ensures this.content == content && Tables() == EMPTY
    {
      this.content := content;
      users, counters, jobs := map[], map[], multiset{};
    }

    /** One day of study: the day's row, the whole minutes it adds, and the goal it may meet. */
    method RecordDailyActivity(user: int, stay: nat, today: int)
      requires user in users
      modifies this`users
      ensures users == old(users)[user := Ledger.RecordDailyActivity(old(users)[user], stay, today)]
    {
      hide AddStudy, Studied, Ledger.RecalculateGoalStreak, Ledger.ExpireCachedGoalStreak;
      var activity := UpsertDailyActivity(user, stay, today);
      var goalMin := activity.dailyGoalMinSnapshot;
      if goalMin.None? || goalMin.value == 0 || activity.studySeconds < goalMin.value * 60 || activity.goalAchieved {
        ExpireCachedGoalStreak(user, today);
        return;
      }
      var rows := users[user];
      users := users[user := rows.(daily := rows.daily[today := activity.(goalAchieved := true)])];
      RecalculateGoalStreak(user, FromDay(today), today);
    }

    /** The day's row, and the whole minutes that the study adds to it. */
    method UpsertDailyActivity(user: int, stay: nat, today: int) returns (activity: Activity)
      requires user in users
      modifies this`users
      ensures activity == Studied(old(users)[user], stay, today)
      ensures users == old(users)[user := AddStudy(old(users)[user], stay, today)]
    {
      var rows := users[user];
      var existing := if today in rows.daily then rows.daily[today].dailyGoalMinSnapshot else None;
      activity := if today in rows.daily
        then Activity(rows.daily[today].studySeconds + stay,
                      if existing.Some? then existing else rows.dailyGoalMin, rows.daily[today].goalAchieved)
        else Activity(stay, rows.dailyGoalMin, false);
      users := users[user := rows.(daily := rows.daily[today := activity])];

      var previousSeconds := Max(activity.studySeconds - stay, 0);
      var addedStudyMinutes := activity.studySeconds / 60 - previousSeconds / 60;
      if addedStudyMinutes > 0 {
        rows := users[user];
        users := users[user := rows.(stats := rows.stats.(totalStudyMin := rows.stats.totalStudyMin + addedStudyMinutes))];
      }
    }

    method ExpireCachedGoalStreak(user: int, today: int)
      requires user in users
      modifies this`users
      ensures users == old(users)[user := Ledger.ExpireCachedGoalStreak(old(users)[user], today)]
    {
      var rows := users[user];
      var todayKey := FromDay(today);
      var seen := UpTo(Achieved(rows.daily), today);
      if seen != {} {
        var latestGoalKey := FromDay(Greatest(seen));
        if CalendarDayDifference(todayKey, latestGoalKey) <= 1 {
          return;
        }
      }
      if rows.stats.currentStreak > 0 {
        users := users[user := rows.(stats := rows.stats.(currentStreak := 0))];
      }
    }

    /** Walks the newest achieved days back from the one just achieved. */
    method RecalculateGoalStreak(user: int, achievedDateKey: DateKey, achievedDay: int)
      requires user in users && achievedDateKey == FromDay(achievedDay)
      modifies this`users
      ensures users == old(users)[user := Ledger.RecalculateGoalStreak(old(users)[user], achievedDay)]
    {
      hide FirstDay, Valid, ToDay, FromDay, AddDaysToDateKey, NewestFirst;
      var rows := NewestFirst(UpTo(Achieved(users[user].daily), achievedDay), STREAK_QUERY_LIMIT);
      var streak := 0;
      var expectedDateKey := achievedDateKey;
      for i := 0 to |rows|
        invariant users == old(users)
        invariant streak == i && Valid(expectedDateKey) && ToDay(expectedDateKey) == achievedDay - i
        invariant LeadingRun(rows, achievedDay) == i + LeadingRun(rows[i..], achievedDay - i)
      {
        KeyRoundTrip(expectedDateKey);
        assert rows[i..][1..] == rows[i + 1..];
        if FromDay(rows[i]) != expectedDateKey {
          break;
        }
        streak := streak + 1;
        expectedDateKey := AddDaysToDateKey(expectedDateKey, -1);
      }
      var r := users[user];
      users := users[user := r.(stats := r.stats.(currentStreak := streak, maxStreak := Max(r.stats.maxStreak, streak),
                                                  lastAttendanceDate := Some(achievedDay)))];
    }

    method CheckUserBadges(user: int)
      requires user in users
      modifies this`users
      ensures users == old(users)[user := old(users)[user].(badges := old(users)[user].badges
                                                            + Earned(content.badgeIds, old(users)[user].stats))]
    {
      var rows := users[user];
      var badges := CheckStatBadges(content.badgeIds, rows.stats, rows.badges);
      users := users[user := rows.(badges := badges)];
    }

    method UpsertSectionLog(user: int, s: int, p: Progress) returns (log: SectionLog)
      requires user in users && s in content.sections
      modifies this`users
      ensures log == Logged(content, old(users)[user], s, p)
      ensures users == old(users)[user := old(users)[user].(logs := old(users)[user].logs[s := log])]
      ensures Completed(users[user].logs) == Completed(old(users)[user].logs) + (if Completes(content, s, p) then {s} else {})
      ensures s in old(users)[user].logs ==>
                log.maxPageReached == Max(old(users)[user].logs[s].maxPageReached, Max(p.currentPage, 0))
      ensures Sum(LogSeconds(users[user].logs)) == Sum(LogSeconds(old(users)[user].logs)) + p.stayTimeSeconds
    {
      var rows, section := users[user], content.sections[s];
      var nextMax := Max(p.currentPage, 0);
      var completed := p.forceComplete || p.isCompleted || (section.totalPages > 0 && nextMax >= section.totalPages);
      if s in rows.logs {
        var b := rows.logs[s];
        log := SectionLog(Max(b.maxPageReached, nextMax), b.totalStaySeconds + p.stayTimeSeconds,
                          completed || b.isCompleted, if p.difficulty.Some? then p.difficulty else b.difficulty);
      } else {
        log := SectionLog(nextMax, p.stayTimeSeconds, completed, p.difficulty);
      }
      LogAddsUp(content, rows, s, p);
      users := users[user := rows.(logs := rows.logs[s := log])];
    }

    method UpsertPageLog(user: int, s: int, p: Progress)
      requires user in users
      modifies this`users
      ensures users == old(users)[user := old(users)[user].(pages := PageLogged(old(users)[user], s, p))]
      ensures forall x :: Sum(PagesOf(users[user], x))
                       == Sum(PagesOf(old(users)[user], x)) + if x == s && p.pageNumber.Some? then p.stayTimeSeconds else 0
    {
      forall x {
        PageSecondsAdd(users[user], s, p, x);
      }
      hide Sum;
      if p.pageNumber.Some? && p.stayTimeSeconds > 0 {
        var rows, n := users[user], p.pageNumber.value;
        var pages: map<int, nat> := if s in rows.pages then rows.pages[s] else map[];
        var seconds: nat := (if n in pages then pages[n] else 0) + p.stayTimeSeconds;
        users := users[user := rows.(pages := rows.pages[s := pages[n := seconds]])];
      }
    }

    /** A changed rating leaves its old counter and enters its new one, in one update. */
    method MoveRating(s: int, rating: Option<Difficulty>, difficulty: Option<Difficulty>)
      modifies this`counters
      ensures counters == Rerated(old(counters), s, rating, difficulty)
      ensures var now := if difficulty.Some? then difficulty else rating;
              forall x, d :: CountOf(CountersOf(counters, x), d) == CountOf(CountersOf(old(counters), x), d)
                + if x == s then (if now == Some(d) then 1 else 0) - (if rating == Some(d) then 1 else 0) else 0
    {
      forall x, d {
        ReratedCounts(counters, s, rating, difficulty, x, d);
      }
      hide CountOf, CountersOf, Adjusted;
      if difficulty.Some? && difficulty != rating {
        var k := CountersOf(counters, s);
        if rating.Some? {
          k := Adjusted(k, rating.value, -1);
        }
        counters := counters[s := Adjusted(k, difficulty.value, 1)];
      }
    }

    /** The writes of one transaction up to the badges. */
    method WriteProgress(user: int, s: int, p: Progress, today: int) returns (log: SectionLog, isFirstCompletion: bool, isLessonCompleted: bool)
      requires user in users && s in content.sections
      modifies this`users, this`counters
      ensures log == Logged(content, old(users)[user], s, p)
      ensures isFirstCompletion <==> FirstCompletion(content, old(users)[user], s, p)
      ensures isLessonCompleted <==> CompletesLesson(content, old(users)[user], s, p)
      ensures users == old(users)[user := Written(content, old(users)[user], s, p, today)]
      ensures counters == Rerated(old(counters), s, RatingOf(old(users)[user], s), p.difficulty)
    {
      hide Ledger.RecordDailyActivity, Logged, PageLogged, PagesOf, Completed, SectionsOf, Sum, LogSeconds, CountOf, CountersOf;
      var lessonSectionIds := SectionsOf(content, content.sections[s].lesson);
      var completedBefore := |lessonSectionIds * Completed(users[user].logs)|;
      var beforeLog := if s in users[user].logs then Some(users[user].logs[s]) else None;

      log := UpsertSectionLog(user, s, p);
      UpsertPageLog(user, s, p);
      MoveRating(s, if beforeLog.Some? then beforeLog.value.difficulty else None, p.difficulty);
      if p.stayTimeSeconds > 0 {
        RecordDailyActivity(user, p.stayTimeSeconds, today);
      }
      var wasCompleted := beforeLog.Some? && beforeLog.value.isCompleted;
      isFirstCompletion := !wasCompleted && log.isCompleted;
      var completedAfter := completedBefore + if isFirstCompletion then 1 else 0;
      isLessonCompleted := completedAfter == |lessonSectionIds| && completedBefore < |lessonSectionIds|;
      if isLessonCompleted {
        var rows := users[user];
        users := users[user := rows.(stats := rows.stats.(totalCompletedLessons := rows.stats.totalCompletedLessons + 1))];
      }
      assert PageLogged(old(users)[user].(logs := users[user].logs), s, p) == PageLogged(old(users)[user], s, p) by {
        SamePages(old(users)[user], users[user].logs, s, p);
      }
    }

    /** The checks of one save, in the order they are made. */
    method CheckProgress(rows: Rows, s: int, p: Progress) returns (e: Option<SaveError>)
      requires s in content.sections
      ensures e == Refusal(content, rows, s, p)
      ensures e.None? <==>
              && (p.pageNumber.Some? ==> 0 < content.sections[s].totalPages && p.pageNumber.value < content.sections[s].totalPages)
              && (p.difficulty.Some? ==> content.sections[s].isGrammar && Logged(content, rows, s, p).isCompleted)
    {
      AcceptedExactly(content, rows, s, p);
      hide Logged;
      var section := content.sections[s];
      if p.pageNumber.Some? && (section.totalPages <= 0 || p.pageNumber.value >= section.totalPages) {
        return Some(InvalidPageNumber);
      }
      if p.difficulty.Some? && !section.isGrammar { return Some(DifficultyGrammarOnly); }
      var completed := p.forceComplete || p.isCompleted
                       || (section.totalPages > 0 && Max(p.currentPage, 0) >= section.totalPages);
      if p.difficulty.Some? && !completed && !(s in rows.logs && rows.logs[s].isCompleted) {
        return Some(DifficultyRequiresCompletion);
      }
      return None;
    }

    method AwardBadges(user: int, isFirstEverSectionStart: bool)
      requires user in users
      modifies this`users
      ensures var r := old(users)[user];
              users == old(users)[user := r.(badges :=
                (if isFirstEverSectionStart then Award(content.badgeIds, r.badges, "first_start") else r.badges)
                + Earned(content.badgeIds, r.stats))]
    {
      hide Earned, Award;
      if isFirstEverSectionStart {
        var rows := users[user];
        users := users[user := rows.(badges := Award(content.badgeIds, rows.badges, "first_start"))];
      }
      CheckUserBadges(user);
    }

    /** The transaction of an accepted save, and the jobs it enqueues. */
    method CommitProgress(user: int, s: int, p: Progress, today: int) returns (log: SectionLog)
      requires SaveRefusal(content, Tables(), user, s, p).None?
      modifies this
      ensures log == Logged(content, old(users)[user], s, p)
      ensures Tables() == AfterSave(content, old(Tables()), user, s, p, today)
    {
      hide Saved, Written, Logged, FirstCompletion, CompletesLesson, JobsOf, Earned, Award, Refusal, Rerated, RatingOf;
      var rows := users[user];
      var isFirstEverSectionStart := s !in rows.logs && |rows.logs| == 0;
      assert isFirstEverSectionStart <==> rows.logs == map[];
      var isFirstCompletion, isLessonCompleted;
      log, isFirstCompletion, isLessonCompleted := WriteProgress(user, s, p, today);
      SavedFromWritten(content, rows, s, p, today);
      AwardBadges(user, isFirstEverSectionStart);
      assert users == old(users)[user := Saved(content, rows, s, p, today)];
      EnqueueJobs(user, s, rows, p, isFirstCompletion, isLessonCompleted);
    }

    method EnqueueJobs(user: int, s: int, ghost rows: Rows, ghost p: Progress, isFirstCompletion: bool, isLessonCompleted: bool)
      requires s in content.sections
      requires isFirstCompletion <==> FirstCompletion(content, rows, s, p)
      requires isLessonCompleted <==> CompletesLesson(content, rows, s, p)
      modifies this`jobs
      ensures jobs == old(jobs) + JobsOf(content, rows, user, s, p)
    {
      hide FirstCompletion, CompletesLesson;
      if isFirstCompletion {
        jobs := jobs + multiset{SectionCompleted(user, s)};
      }
      if isLessonCompleted {
        jobs := jobs + multiset{LessonCompleted(user, content.sections[s].lesson)};
      }
    }

    /** One save. A refused one changes nothing; an accepted one commits its writes and enqueues its jobs, at most two. */
    method SaveSectionProgress(user: int, s: int, p: Progress, today: int) returns (r: Result<SectionLog, SaveError>)
      modifies this
      ensures match SaveRefusal(content, old(Tables()), user, s, p)
              case Some(e) => r == Err(e) && Tables() == old(Tables())
              case None => r == Ok(Logged(content, old(users)[user], s, p))
                           && Tables() == AfterSave(content, old(Tables()), user, s, p, today)
    {
      hide AfterSave, Logged, Refusal;
      if s !in content.sections { return Err(SectionNotFound); }
      if user !in users { return Err(UserNotFound); }
      var refusal := CheckProgress(users[user], s, p);
      if refusal.Some? { return Err(refusal.value); }
      var log := CommitProgress(user, s, p, today);
      return Ok(log);
    }

    /** One delivery of a job, by its type. */
    method ProcessJob(job: Job, acknowledged: bool)
      requires WellFormed(content) && job.user in users && job in jobs
      modifies this`users, this`jobs
      ensures Tables() == Step(content, old(Tables()),
                               match job
                               case SectionCompleted(u, s) => SectionJob(u, s, acknowledged)
                               case LessonCompleted(u, l) => LessonJob(u, l, acknowledged))
    {
      hide Earned, AfterLessonJob, WellFormed;
      match job
      case SectionCompleted(u, _) =>
        CheckUserBadges(u);
        jobs := Acknowledged(jobs, job, acknowledged);
      case LessonCompleted(u, l) =>
        HandleLessonCompleted(u, l, acknowledged);
    }

    /** One delivery of a lesson job; the queue drops it when it is acknowledged. */
    method HandleLessonCompleted(user: int, lesson: int, acknowledged: bool)
      requires WellFormed(content) && user in users && LessonCompleted(user, lesson) in jobs
      modifies this`users, this`jobs
      ensures users == old(users)[user := AfterLessonJob(content, old(users)[user], lesson)]
      ensures jobs == Acknowledged(old(jobs), LessonCompleted(user, lesson), acknowledged)
    {
      hide Earned, Completed, SectionsOfCourse, WellFormed;
      if acknowledged {
        jobs := jobs - multiset{LessonCompleted(user, lesson)};
      }
      if lesson !in content.courseOf { return; }
      var course := content.courseOf[lesson];
      var allSectionIds := SectionsOfCourse(content, course);
      if allSectionIds == {} { return; }
      var rows := users[user];
      var completedCount := |allSectionIds * Completed(rows.logs)|;
      if completedCount < |allSectionIds| { return; }
      if course in rows.completions { return; }
      rows := rows.(completions := rows.completions + {course});
      users := users[user := rows.(stats := rows.stats.(totalCompletedCourses := rows.stats.totalCompletedCourses + 1))];
      CheckUserBadges(user);
    }
  }

  /** The section log of a save adds its seconds, and completes its section exactly when the save does. */
  lemma LogAddsUp(c: Content, r: Rows, s: int, p: Progress)
    requires s in c.sections
    ensures var logs' := r.logs[s := Logged(c, r, s, p)];
            && Completed(logs') == Completed(r.logs) + (if Completes(c, s, p) then {s} else {})
            && Sum(LogSeconds(logs')) == Sum(LogSeconds(r.logs)) + p.stayTimeSeconds
  {
    var l := Logged(c, r, s, p);
    assert LogSeconds(r.logs[s := l]) == LogSeconds(r.logs)[s := l.totalStaySeconds];
    SumUpdate(LogSeconds(r.logs), s, l.totalStaySeconds);
  }

  lemma SamePages(r: Rows, logs: map<int, SectionLog>, s: int, p: Progress)
    ensures PageLogged(r.(logs := logs), s, p) == PageLogged(r, s, p)
  {
  }

  lemma SavedFromWritten(c: Content, r: Rows, s: int, p: Progress, today: int)
    requires s in c.sections
    ensures var w := Written(c, r, s, p, today);
            Saved(c, r, s, p, today) == w.(badges :=
              (if r.logs == map[] then Award(c.badgeIds, w.badges, "first_start") else w.badges) + Earned(c.badgeIds, w.stats))
  {
    hide Earned, Award, Logged, PageLogged, RecordDailyActivity, CompletesLesson;
  }
}
