/** The stored statistics of a user, and the badges they earn. */
module Achievements {
  import opened Common

  datatype Stats = Stats(
    totalStudyMin: nat,
    currentStreak: nat,
    maxStreak: nat,
    totalCompletedLessons: nat,
    totalCompletedCourses: nat,
    lastAttendanceDate: Option<int>)

  datatype Measure = Streak | Courses | Lessons | Minutes

  datatype Rule = Rule(key: string, measure: Measure, threshold: nat)

  function StreakRules(): seq<Rule> {
    [ Rule("streak_3", Streak, 3), Rule("streak_7", Streak, 7),
      Rule("streak_14", Streak, 14), Rule("streak_30", Streak, 30) ]
  }

  function CourseRules(): seq<Rule> {
    [ Rule("course_1", Courses, 1), Rule("course_2", Courses, 2),
      Rule("course_3", Courses, 3), Rule("course_4", Courses, 4) ]
  }

  function LessonRules(): seq<Rule> {
    [ Rule("lesson_first", Lessons, 1), Rule("lesson_5", Lessons, 5),
      Rule("lesson_10", Lessons, 10), Rule("lesson_25", Lessons, 25) ]
  }

  function MinuteRules(): seq<Rule> {
    [ Rule("learned_10m", Minutes, 10), Rule("learned_1h", Minutes, 60),
      Rule("learned_5h", Minutes, 300), Rule("learned_10h", Minutes, 600) ]
  }

  function StatBadgeRules(): seq<Rule> {
    StreakRules() + CourseRules() + LessonRules() + MinuteRules()
  }

  function Current(m: Measure, s: Stats): nat {
    match m
    case Streak => s.currentStreak
    case Courses => s.totalCompletedCourses
    case Lessons => s.totalCompletedLessons
    case Minutes => s.totalStudyMin
  }

  /** The best a user ever did by a measure: only the streak can fall back. */
  function Best(m: Measure, s: Stats): nat {
    if m == Streak then s.maxStreak else Current(m, s)
  }

  predicate Condition(rule: Rule, s: Stats) {
    Current(rule.measure, s) >= rule.threshold
  }

  /** The badges whose condition holds now; a key missing from the catalogue earns nothing. */
  function Earned(ids: map<string, int>, s: Stats): set<int> {
    set rule | rule in StatBadgeRules() && Condition(rule, s) && rule.key in ids :: ids[rule.key]
  }

  /** A complete catalogue gives every badge key its own badge. */
  predicate Complete(ids: map<string, int>) {
    && "first_start" in ids && "signed_up" in ids
    && (forall rule | rule in StatBadgeRules() :: rule.key in ids)
    && (forall a, b | a in ids && b in ids && a != b :: ids[a] != ids[b])
  }

  /** Any set of keys can be numbered without repetition. */
  lemma {:induction false} KeysNumbered(keys: set<string>) returns (ids: map<string, int>)
    ensures ids.Keys == keys
    ensures forall a | a in ids :: 0 <= ids[a] < |keys|
    ensures forall a, b | a in ids && b in ids && a != b :: ids[a] != ids[b]
    decreases |keys|
  {
    if keys == {} {
      ids := map[];
    } else {
      var key :| key in keys;
      var rest := KeysNumbered(keys - {key});
      ids := rest[key := |keys| - 1];
    }
  }

  /** There are complete catalogues. */
  lemma CatalogueExists() returns (ids: map<string, int>)
    ensures Complete(ids)
  {
    hide StatBadgeRules;
    ids := KeysNumbered({"first_start", "signed_up"} + set rule | rule in StatBadgeRules() :: rule.key);
  }

  function Award(ids: map<string, int>, badges: set<int>, key: string): set<int> {
    if key in ids then badges + {ids[key]} else badges
  }

  /** Inserts the badges that are due and not yet held, rule by rule. */
  method CheckStatBadges(ids: map<string, int>, stats: Stats, badges: set<int>) returns (badges': set<int>)
    ensures badges' == badges + Earned(ids, stats)
  {
    badges' := badges;
    var earnedIds := badges;
    var rules := StatBadgeRules();
    hide StatBadgeRules;
    ghost var due := {};
    for i := 0 to |rules|
      invariant earnedIds == badges'
      invariant due == set rule | rule in rules[..i] && Condition(rule, stats) && rule.key in ids :: ids[rule.key]
      invariant badges' == badges + due
    {
      var rule := rules[i];
      assert rules[..i + 1] == rules[..i] + [rule];
      if Condition(rule, stats) && rule.key in ids {
        var badgeId := ids[rule.key];
        due := due + {badgeId};
        if badgeId !in earnedIds {
          badges' := badges' + {badgeId};
          earnedIds := earnedIds + {badgeId};
        }
      }
    }
    assert rules[..|rules|] == rules;
  }

  /** What the badges of a user should be: each rule's badge is held exactly when the best ever reached its threshold. */
  ghost predicate BadgesExact(ids: map<string, int>, s: Stats, badges: set<int>, started: bool)
    requires Complete(ids)
  {
    && s.currentStreak <= s.maxStreak
    && (forall rule | rule in StatBadgeRules() :: ids[rule.key] in badges <==> Best(rule.measure, s) >= rule.threshold)
    && (ids["first_start"] in badges <==> started)
    && ids["signed_up"] in badges
  }

  /** What that says of each badge of a streak or a course count. */
  lemma CountBadges(ids: map<string, int>, s: Stats, badges: set<int>, started: bool)
    requires Complete(ids) && BadgesExact(ids, s, badges, started)
    ensures && "streak_3" in ids && (ids["streak_3"] in badges <==> s.maxStreak >= 3)
            && "streak_7" in ids && (ids["streak_7"] in badges <==> s.maxStreak >= 7)
            && "streak_14" in ids && (ids["streak_14"] in badges <==> s.maxStreak >= 14)
            && "streak_30" in ids && (ids["streak_30"] in badges <==> s.maxStreak >= 30)
    ensures && "course_1" in ids && (ids["course_1"] in badges <==> s.totalCompletedCourses >= 1)
            && "course_2" in ids && (ids["course_2"] in badges <==> s.totalCompletedCourses >= 2)
            && "course_3" in ids && (ids["course_3"] in badges <==> s.totalCompletedCourses >= 3)
            && "course_4" in ids && (ids["course_4"] in badges <==> s.totalCompletedCourses >= 4)
  {
    hide Complete, LessonRules, MinuteRules;
    HeldExactly(ids, s, badges, started, Rule("streak_3", Streak, 3));
    HeldExactly(ids, s, badges, started, Rule("streak_7", Streak, 7));
    HeldExactly(ids, s, badges, started, Rule("streak_14", Streak, 14));
    HeldExactly(ids, s, badges, started, Rule("streak_30", Streak, 30));
    HeldExactly(ids, s, badges, started, Rule("course_1", Courses, 1));
    HeldExactly(ids, s, badges, started, Rule("course_2", Courses, 2));
    HeldExactly(ids, s, badges, started, Rule("course_3", Courses, 3));
    HeldExactly(ids, s, badges, started, Rule("course_4", Courses, 4));
    hide BadgesExact;
  }

  /** And of each badge of a lesson count or of study time. */
  lemma TimeBadges(ids: map<string, int>, s: Stats, badges: set<int>, started: bool)
    requires Complete(ids) && BadgesExact(ids, s, badges, started)
    ensures && "lesson_first" in ids && (ids["lesson_first"] in badges <==> s.totalCompletedLessons >= 1)
            && "lesson_5" in ids && (ids["lesson_5"] in badges <==> s.totalCompletedLessons >= 5)
            && "lesson_10" in ids && (ids["lesson_10"] in badges <==> s.totalCompletedLessons >= 10)
            && "lesson_25" in ids && (ids["lesson_25"] in badges <==> s.totalCompletedLessons >= 25)
    ensures && "learned_10m" in ids && (ids["learned_10m"] in badges <==> s.totalStudyMin >= 10)
            && "learned_1h" in ids && (ids["learned_1h"] in badges <==> s.totalStudyMin >= 60)
            && "learned_5h" in ids && (ids["learned_5h"] in badges <==> s.totalStudyMin >= 300)
            && "learned_10h" in ids && (ids["learned_10h"] in badges <==> s.totalStudyMin >= 600)
  {
    hide Complete, StreakRules, CourseRules;
    HeldExactly(ids, s, badges, started, Rule("lesson_first", Lessons, 1));
    HeldExactly(ids, s, badges, started, Rule("lesson_5", Lessons, 5));
    HeldExactly(ids, s, badges, started, Rule("lesson_10", Lessons, 10));
    HeldExactly(ids, s, badges, started, Rule("lesson_25", Lessons, 25));
    HeldExactly(ids, s, badges, started, Rule("learned_10m", Minutes, 10));
    HeldExactly(ids, s, badges, started, Rule("learned_1h", Minutes, 60));
    HeldExactly(ids, s, badges, started, Rule("learned_5h", Minutes, 300));
    HeldExactly(ids, s, badges, started, Rule("learned_10h", Minutes, 600));
    hide BadgesExact;
  }

  lemma HeldExactly(ids: map<string, int>, s: Stats, badges: set<int>, started: bool, rule: Rule)
    requires Complete(ids) && BadgesExact(ids, s, badges, started) && rule in StatBadgeRules()
    ensures rule.key in ids && (ids[rule.key] in badges <==> Best(rule.measure, s) >= rule.threshold)
  {
    hide StatBadgeRules;
  }

  /** Each family of keys has its own third letter, and four different keys. */
  lemma StreakKeys(a: Rule, b: Rule)
    requires a in StreakRules() && b in StreakRules()
    ensures |a.key| > 2 && a.key[1] != 'i' && a.key[2] == 'r' && a.threshold > 0 && (a.key == b.key ==> a == b)
  {
    assert a.key[|a.key| - 1] == b.key[|b.key| - 1] ==> a == b;
  }

  lemma CourseKeys(a: Rule, b: Rule)
    requires a in CourseRules() && b in CourseRules()
    ensures |a.key| > 2 && a.key[1] != 'i' && a.key[2] == 'u' && a.threshold > 0 && (a.key == b.key ==> a == b)
  {
    assert a.key[|a.key| - 1] == b.key[|b.key| - 1] ==> a == b;
  }

  lemma LessonKeys(a: Rule, b: Rule)
    requires a in LessonRules() && b in LessonRules()
    ensures |a.key| > 2 && a.key[1] != 'i' && a.key[2] == 's' && a.threshold > 0 && (a.key == b.key ==> a == b)
  {
    assert |a.key| == |b.key| && a.key[7] == b.key[7] ==> a == b;
  }

  lemma MinuteKeys(a: Rule, b: Rule)
    requires a in MinuteRules() && b in MinuteRules()
    ensures |a.key| > 2 && a.key[1] != 'i' && a.key[2] == 'a' && a.threshold > 0 && (a.key == b.key ==> a == b)
  {
    assert |a.key| == |b.key| && a.key[8] == b.key[8] && a.key[|a.key| - 1] == b.key[|b.key| - 1] ==> a == b;
  }

  /** Equal keys mean the same rule, and no rule has the key of the two event badges. */
  lemma RuleKeysDiffer(a: Rule, b: Rule)
    requires a in StatBadgeRules() && b in StatBadgeRules()
    ensures a.key == b.key ==> a == b
    ensures a.key != "first_start" && a.key != "signed_up" && a.threshold > 0
  {
    hide StreakRules, CourseRules, LessonRules, MinuteRules;
    if a in StreakRules() { StreakKeys(a, a); }
    if a in CourseRules() { CourseKeys(a, a); }
    if a in LessonRules() { LessonKeys(a, a); }
    if a in MinuteRules() { MinuteKeys(a, a); }
    if b in StreakRules() { StreakKeys(b, if a in StreakRules() then a else b); }
    if b in CourseRules() { CourseKeys(b, if a in CourseRules() then a else b); }
    if b in LessonRules() { LessonKeys(b, if a in LessonRules() then a else b); }
    if b in MinuteRules() { MinuteKeys(b, if a in MinuteRules() then a else b); }
    assert "first_start"[1] == 'i' && "signed_up"[1] == 'i';
  }

  /** New statistics that did not fall, checked at once, leave the badges exact. */
  lemma CheckKeepsBadgesExact(ids: map<string, int>, s: Stats, s': Stats, badges: set<int>, started: bool, started': bool)
    requires Complete(ids) && BadgesExact(ids, s, badges, started)
    requires s.totalStudyMin <= s'.totalStudyMin && s.totalCompletedLessons <= s'.totalCompletedLessons
    requires s.totalCompletedCourses <= s'.totalCompletedCourses && s.maxStreak <= s'.maxStreak
    requires s'.currentStreak <= s'.maxStreak && (s'.maxStreak > s.maxStreak ==> s'.maxStreak == s'.currentStreak)
    requires started ==> started'
    ensures var badges' := if started' && !started then Award(ids, badges, "first_start") else badges;
            BadgesExact(ids, s', badges' + Earned(ids, s'), started')
  {
    hide StatBadgeRules;
    var base := if started' && !started then Award(ids, badges, "first_start") else badges;
    var badges' := base + Earned(ids, s');
    forall rule | rule in StatBadgeRules()
      ensures ids[rule.key] in badges' <==> Best(rule.measure, s') >= rule.threshold
    {
      RuleKeysDiffer(rule, rule);
      if ids[rule.key] in Earned(ids, s') {
        var other :| other in StatBadgeRules() && Condition(other, s') && other.key in ids && ids[other.key] == ids[rule.key];
        RuleKeysDiffer(rule, other);
      }
      assert Condition(rule, s') ==> ids[rule.key] in Earned(ids, s');
    }
    if ids["first_start"] in Earned(ids, s') {
      var other :| other in StatBadgeRules() && Condition(other, s') && other.key in ids && ids[other.key] == ids["first_start"];
      RuleKeysDiffer(other, other);
    }
  }

  /** A new account, with zero statistics and the sign-up badge, has exact badges. */
  lemma NewAccountBadges(ids: map<string, int>)
    requires Complete(ids)
    ensures BadgesExact(ids, Stats(0, 0, 0, 0, 0, None), Award(ids, {}, "signed_up"), false)
  {
    hide StatBadgeRules;
    forall rule | rule in StatBadgeRules() ensures rule.threshold > 0 && rule.key != "signed_up" {
      RuleKeysDiffer(rule, rule);
    }
  }
}
