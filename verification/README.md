# Verified model of the learning service

This project models the parts of the service whose correctness spans several tables, keys or requests, and
proves what every run of them keeps. Databases and Redis are maps, requests are steps, and time is a number.

| file | models |
|---|---|
| `Common.dfy` | options, sums, maxima, descending queries, counting map entries |
| `Calendar.dfy`, `Streak.dfy` | date keys as day numbers, ISO weeks, goal streaks |
| `Subscription.dfy` | expiry of paid subscriptions |
| `Achievements.dfy` | badge rules and their check |
| `Ledger.dfy`, `LedgerLaws.dfy`, `LedgerStreaks.dfy`, `LedgerRuns.dfy` | one save of progress, case by case, its streak cache, and all runs of saves and jobs |
| `LogService.dfy` | the same saves statement by statement, over tables updated in place |
| `Home.dfy` | the home view, the uncached form of the same statistics |
| `Scraps.dfy`, `ScrapLaws.dfy`, `ScrapRuns.dfy`, `ScrapService.dfy` | scrap toggles and their debounced settlement, query by query and as whole requests, and the runs that lose one |
| `Sessions.dfy`, `SessionLinearity.dfy`, `SessionVersions.dfy`, `SessionLaws.dfy`, `SessionService.dfy` | refresh rotation and revocation, command by command and as whole requests |
| `Otp.dfy`, `OtpRaces.dfy` | one-time codes, request by request and command by command |
| `Throttler.dfy` | the rate limiter's script and what its runs admit |
| `Idempotency.dfy`, `IdempotencyRuns.dfy` | the idempotency lock, cache and quota, and the runs that reach their bounds |
| `Paging.dfy` | cursor pages of scraps and their grouping |

Where the service mutates something there is a class whose methods are proved to leave exactly the state that a
specification function gives. What each of those functions does is stated over the inputs it gets, without the
function, in the `Laws` files and beside it, and the invariants and bounds are proved about them over every run.
Where requests race (scraps, sessions, one-time codes, idempotency) the run is a sequence of single queries or
commands of any number of requests, and each whole request run alone is shown to be one of those runs, or is proved
to keep the same invariant.

Main results:

- After every save, in any run, seconds are conserved between section logs and days, whole minutes, lessons and
  courses are counted exactly, the difficulty counters are the histogram of ratings, and badges are exactly those
  the statistics call for. With dates that never go back, the cached streak and the best streak are those of the
  history, and the streak shown on the home view is the cached one.
- From a password change or the deletion of a user on, no token issued to the user is honoured again, under every
  interleaving, expiry, crash, restore and replay; an answer still cached may be repeated, but its access token fails
  validation. Stored refresh tokens are consumed at most once more than they were restored; without failing rotations
  all answers for one token agree.
- Scrap counters are exact under every interleaving, redelivery and death, and move only after the debounce time.
  Once requests and jobs have finished they agree with the rows, dead and redelivered job attempts included, with
  two exceptions: a deletion that acts on a stale reading, and a request that dies between its update and its
  enqueue. Both exceptions have their exact condition, and a run from the empty tables.
- The throttler admits at most 2 * limit - 1 calls in every window exactly when blocks last at least as long as the
  counter. If verifications of an address do not overlap, at most ten wrong guesses meet one code, and it is accepted
  at most once. Both bounds are reached. At most one handler of an idempotency key is in flight while no lock
  outlives its time to live, and repeated runs are bounded by the requests that had missed, a bound that is reached
  for every number of them below the quota.

Where the model found the code to fall short of what one might expect, the exact condition is proved and the
failing case is a lemma:

- Two purchases of a and b months differ from one of a + b when the day of the month overflows a shorter month
  (`Subscription.MonthsComposeExactly`, `Subscription.JanuaryThirtyFirst`).
- A local date that goes back, even by one day as a change of timezone can make it, can leave the cached streak stale
  (`LedgerRuns.DateBackGoesStale`). In any order of dates it is the streak of some day of study, and it is that of
  the present day exactly under a condition on the history (`LedgerStreaks.RecordStreakFromHistory`).
- `deleteScrap` decides whether to enqueue from a row read before its update, so a settlement in between is not undone
  (`Scraps.DeletionCoverage`, `ScrapRuns.StaleDeletionLosesSettlement`). A request that dies between its update and
  its enqueue loses its settlement too (`Scraps.CrashCoverage`, `ScrapRuns.DeadDeletionLosesSettlement`). Either way
  the row stays miscounted until it is deleted again or its state changes (`ScrapRuns.LostRowIsRepaired`).
- `verifyEmailCode` compares a guess before it counts it, so any number of overlapping verifications can meet one code
  (`OtpRaces.OverlapIsUnbounded`) or be accepted with it (`OtpRaces.OverlapAcceptsAgain`), and any number that die
  before they count can meet one too (`OtpRaces.DeathIsUnbounded`).
- A request that missed the idempotency cache runs its handler even if a success is cached by the time it gets the
  lock (`Idempotency.MissedRequestStillRuns`, `IdempotencyRuns.RunsWhileCachedIsReached`), and a handler slower than
  its lock lets another in (`Idempotency.SlowHandlerLetsAnotherIn`, `IdempotencyRuns.TwoHandlersAtOnce`).
- The comment at `src/common/interceptors/idempotency.interceptor.ts:26` speaks of 24 hours; the code keeps a
  response for 3600 seconds, and so does the model.
- If blocks are shorter than the counting window, and only then, some run admits twice the limit within one window
  (`Throttler.WindowBoundIsExact`); much shorter ones can admit still more (`Throttler.ShortBlocksAdmitMore`).

## Model

| member | source | states |
|---|---|---|
| Calendar.AddDaysToDateKey | src/common/utils/local-date.util.ts:40-44 | the result is a real date exactly that many days away, across months, years and leap days |
| Calendar.StartOfIsoWeekDateKey | src/common/utils/local-date.util.ts:46-51 | the result is a Monday, 0 to 6 days before the argument |
| Calendar.CalendarDayDifference | src/common/utils/local-date.util.ts:53-57 | the number of days between two keys, negative if they are reversed |
| Calendar.AddDaysComposes | src/common/utils/local-date.util.ts:40-57 | adding a then b days is adding a + b, adding 0 changes nothing, and the difference undoes the addition |
| Calendar.IsoWeeksPartition | src/common/utils/local-date.util.ts:46-51 | the week start is idempotent, and two days share one exactly when one is among the other's seven days |
| Calendar.KeyRoundTrip | src/common/utils/local-date.util.ts:36-38 | a date key survives conversion to a UTC day and back |
| Calendar.KeyOrder | src/common/utils/local-date.util.ts:36-38 | keys order by year, month and day exactly as their days do in time |
| Calendar.FromDay | src/common/utils/local-date.util.ts:40-44 | every day number has a real date that denotes it |
| Calendar.CountedDaysMatchClosedForm | src/common/utils/local-date.util.ts:36-38 | counting month lengths from 1970 agrees with DayFromYear of ECMA-262 in every year |
| Calendar.MonthTable | src/common/utils/local-date.util.ts:36-44 | the lengths of the twelve months, and the days before them as section 21.4.1 of ECMA-262 has them |
| Calendar.KnownWeek | src/common/utils/local-date.util.ts:46-51 | a known Sunday belongs to the week of the Monday before it, in another month |
| Streak.Run | src/common/utils/local-date.util.ts:59-78 | the maximal run of achieved days ending on a day |
| Streak.CurrentGoalStreakFromDates | src/common/utils/local-date.util.ts:59-78 | the loop over a list counts its leading consecutive days from today or yesterday |
| Streak.StreakFromDatesIsStreak | src/common/utils/local-date.util.ts:59-78 | on the newest 366 achieved days that count is the maximal run ending today, or yesterday if today is open, cut at 366 |
| Streak.LeadingRunMeasuresRun | src/modules/log/log.service.ts:564-600 | walking the newest rows back from a day measures the maximal run ending there |
| Streak.RunAfterAchieving | src/modules/log/log.service.ts:564-600 | achieving a new latest day extends the run before it by one and changes no other |
| Subscription.ExtensionLength | src/modules/subscription/subscription.service.ts:92-109 | n months add exactly the lengths of the n months crossed, 28n to 31n days, with the time of day unchanged |
| Subscription.ExtendIsExact | src/modules/subscription/subscription.service.ts:102-108 | a purchase moves the later of now and the old expiry over exactly its months, and keeps the time of day |
| Subscription.MonthsComposeExactly | src/modules/subscription/subscription.service.ts:92-109 | a then b months is a + b months if and only if the day exists a months on, or the month it overflows is as long as the last one crossed |
| Subscription.PurchasesCombine | src/modules/subscription/subscription.service.ts:92-109 | for days up to the 28th, buying again while valid equals buying the total at once |
| Subscription.JanuaryThirtyFirst | src/modules/subscription/subscription.service.ts:92-109 | a time at which two single months are not one double month |
| Subscription.PaidTimeIsKept | src/modules/subscription/subscription.service.ts:92-123 | over any run of paid purchases, the first one included, the expiry is at least 28 days per month bought beyond the old expiry and beyond the first purchase |
| Subscription.SubscriptionService.Subscribe | src/modules/subscription/subscription.service.ts:71-132 | each refusal with its condition, nothing written when refused, and the tier, plan and expiry written otherwise |
| Throttler.RedisThrottlerStorage.Increment | src/infra/throttler/redis-throttler.storage.ts:23-86 | the script's new counter and block, its verdict, and the remaining times it reports, rounded up to whole seconds |
| Throttler.SecondsExactly | src/infra/throttler/redis-throttler.storage.ts:80-85 | the seconds reported are the fewest that cover the milliseconds left |
| Throttler.CallKeepsInv | src/infra/throttler/redis-throttler.storage.ts:23-56 | one call keeps what the bounds rest on: admissions per life within the count and the limit, blocks after all admissions |
| Throttler.LifeBound | src/infra/throttler/redis-throttler.storage.ts:23-56 | one life of the counter admits at most the limit |
| Throttler.NothingAdmittedWhileBlocked | src/infra/throttler/redis-throttler.storage.ts:23-56 | no call before the block's expiry is admitted or moves it |
| Throttler.RefusalSilences | src/infra/throttler/redis-throttler.storage.ts:23-56 | a refused call leaves a block, of full duration when new, that nothing gets past |
| Throttler.CallAdmitted | src/infra/throttler/redis-throttler.storage.ts:23-56 | a call to a live counter with room, or to none, is admitted and counted, and starts a life only without one |
| Throttler.CallRefused | src/infra/throttler/redis-throttler.storage.ts:23-56 | a call to a full counter is refused and sets a block of full duration |
| Throttler.CallWhileBlocked | src/infra/throttler/redis-throttler.storage.ts:23-56 | a call during a block is counted and refused, and leaves the block alone |
| Throttler.CallReleased | src/infra/throttler/redis-throttler.storage.ts:23-56 | a call at the instant a block expires is admitted and starts a new life |
| Throttler.WindowBound | src/infra/throttler/redis-throttler.storage.ts:23-56 | if blocks last at least a window, every half-open window of length ttl admits fewer calls than twice the limit |
| Throttler.WindowBoundIsReached | src/infra/throttler/redis-throttler.storage.ts:23-56 | one less than twice the limit is reached, for every limit and every ttl above 2 |
| Throttler.WindowBoundIsExact | src/infra/throttler/redis-throttler.storage.ts:23-56 | every window of every run admits fewer calls than twice the limit if and only if blocks last at least as long as the counter |
| Throttler.ShortBlocksAdmitMore | src/infra/throttler/redis-throttler.storage.ts:23-56 | an example beyond twice the limit: with limit 1, ttl 10 and blocks of 1, three calls get in within a window |
| Otp.EmailCodes.SendEmailCode | src/modules/auth/auth.service.ts:73-99 | a code is sent exactly when no cooldown is live, and only code and cooldown change |
| Otp.CounterCountsItsWindow | src/infra/redis/redis.service.ts:45-55 | increments within the time to live of the first are all counted, and the counter lapses with the window of the first |
| Otp.EmailCodes.VerifyEmailCode | src/modules/auth/auth.service.ts:101-128 | each outcome with its exact condition, and the keys it leaves |
| Otp.SendEffects | src/modules/auth/auth.service.ts:75-96 | what a send leaves of each key: the code for five minutes, the cooldown for one, the counter untouched |
| Otp.GuessEffects | src/modules/auth/auth.service.ts:101-124 | what a guess leaves of each key: the right one uses the code up, the sixth wrong one takes it away, others are counted |
| Otp.AcceptedOnceOnly | src/modules/auth/auth.service.ts:123-124 | once a code has been accepted, no guess is accepted or even compared until another is sent |
| Otp.CodeWorksOnce | src/modules/auth/auth.service.ts:73-128 | in every sequential run a code is accepted at most once |
| Otp.EmailCodes.PasswordResetRequest | src/modules/auth/auth.service.ts:373-403 | as for sign-up with a local account, and nothing changes without one |
| Otp.EmailCodes.PasswordResetConfirm | src/modules/auth/auth.service.ts:405-433 | each outcome with its exact condition; keys change as in sign-up, so the attempt bound for verifications that do not overlap holds here too |
| Otp.StepKeepsInv | src/modules/auth/auth.service.ts:73-128 | the count of wrong guesses against a code stays tied to the counter and to which of the two lapses first |
| Otp.AttemptBound | src/modules/auth/auth.service.ts:73-128 | in sequential runs at most ten wrong guesses are ever compared with one issued code |
| Otp.TenIsReached | src/modules/auth/auth.service.ts:73-128 | a sequential run from no keys compares ten wrong guesses with one code, across an inherited and a new counter window |
| OtpRaces.BoundWithoutOverlap | src/modules/auth/auth.service.ts:73-128 | command by command, if verifications of an address do not overlap and none dies half-way, at most ten wrong guesses meet one code and it is accepted at most once, whatever sends do in between |
| OtpRaces.ClockAndDeath | src/modules/auth/auth.service.ts:73-128 | between commands only the clock moves, and a death leaves the keys as they are |
| OtpRaces.OverlapIsUnbounded | src/modules/auth/auth.service.ts:101-116 | for every n, n overlapping verifications compare n wrong guesses with one code |
| OtpRaces.OverlapAcceptsAgain | src/modules/auth/auth.service.ts:101-124 | for every n, n overlapping verifications with the right guess are all accepted |
| OtpRaces.DeathIsUnbounded | src/modules/auth/auth.service.ts:101-116 | for every n, n verifications one after another do so if each dies before it counts |
| OtpRaces.VerificationAlone | src/modules/auth/auth.service.ts:101-128 | the commands of a verification run alone are a guess of the sequential runs |
| OtpRaces.SendAlone | src/modules/auth/auth.service.ts:73-99 | the commands of a send run alone are a send of the sequential runs |
| OtpRaces.FinishIsARun | src/modules/auth/auth.service.ts:73-128 | and running alone is one of the interleavings |
| OtpRaces.SequentialRunsAreOrderly | src/modules/auth/auth.service.ts:73-128 | every sequential run is a run of the commands without overlap, with the same keys and wrong guesses |
| OtpRaces.TenIsReachedOrderly | src/modules/auth/auth.service.ts:73-128 | so ten is reached without overlap |
| Achievements.CheckStatBadges | src/modules/achievement/achievement.service.ts:83-106 | the loop adds exactly the badges whose rule holds and whose key is in the catalogue |
| Achievements.RuleKeysDiffer | src/modules/achievement/achievement.service.ts:8-25 | no two rules share a key, and none has the key of an event badge |
| Achievements.CheckKeepsBadgesExact | src/modules/achievement/achievement.service.ts:83-106 | statistics that did not fall, checked at once, leave each badge held exactly when its best value meets the threshold |
| Achievements.NewAccountBadges | src/modules/auth/auth.service.ts:153-171 | a new account has exactly the badges it should |
| Achievements.CountBadges | src/modules/achievement/achievement.service.ts:9-16 | each streak badge is held exactly from its 3, 7, 14 or 30 days, each course badge from its 1, 2, 3 or 4 courses |
| Achievements.TimeBadges | src/modules/achievement/achievement.service.ts:17-24 | each lesson badge is held exactly from its 1, 5, 10 or 25 lessons, each time badge from its 10, 60, 300 or 600 minutes |
| Achievements.CatalogueExists | src/modules/achievement/achievement.service.ts:41-63 | there are catalogues that give every badge key its own badge |
| Ledger.SaveWrites | src/modules/log/log.service.ts:293-424 | what an accepted save writes to each table, and what it leaves alone |
| Ledger.RecordWrites | src/modules/log/log.service.ts:495-527 | recording study changes one day's seconds and adds the whole minutes that day gained |
| Ledger.RecordAchieves | src/modules/log/log.service.ts:529-541 | the goal of a day becomes achieved exactly when this study first meets it, and stays so |
| Ledger.AcceptedExactly | src/modules/log/log.service.ts:278-329 | the three checks pass exactly when the page exists and the rating is of a grammar section complete once saved |
| Ledger.PageSecondsAdd | src/modules/log/log.service.ts:349-368 | what one save adds to the page seconds of each section |
| LedgerLaws.CompletesExactly | src/modules/log/log.service.ts:293-347 | a save leaves its section complete exactly if it was, or by force, or by request, or by reaching the last page, and changes no other |
| LedgerLaws.LogsExactly | src/modules/log/log.service.ts:331-347 | the furthest page, the seconds and the rating of the section after a save, first or not |
| LedgerLaws.PagesExactly | src/modules/log/log.service.ts:349-368 | the seconds of a save go to the page it names, of its own section, and to no other |
| LedgerLaws.RecordsDay | src/modules/log/log.service.ts:495-541 | a day's seconds, the first goal it had, and that it is achieved from the moment its seconds reach that goal |
| LedgerLaws.GoalIsRemembered | src/modules/log/log.service.ts:498-517 | changing the goal during a day does not move the goal of that day |
| LedgerLaws.SaveRecordsDay | src/modules/log/log.service.ts:397-405 | a save records its study time so, and none without study time |
| LedgerLaws.RefusedFor | src/modules/log/log.service.ts:271-329 | which error a refused save reports, each exactly when, in order |
| LedgerLaws.JobsExactly | src/modules/log/log.service.ts:458-483 | the jobs a save enqueues: one for a section first completed, one for a lesson first completed |
| LedgerLaws.DeliveriesExactly | src/modules/log/log-event.processor.ts:23-46 | a delivery takes its job from the queue exactly when acknowledged, and works on the rows of its user only |
| LedgerLaws.AccountsExactly | src/modules/auth/auth.service.ts:153-171 | what a new account starts with, and that setting a goal changes nothing else |
| Ledger.SaveKeepsTime | src/modules/log/log.service.ts:331-405 | seconds in section logs equal seconds in days, and a save adds its own to both |
| Ledger.SaveKeepsPages | src/modules/log/log.service.ts:349-368 | the seconds on a section's pages stay within the section's log |
| Ledger.SaveKeepsMinutes | src/modules/log/log.service.ts:503-527 | the stored minutes are the sum over days of whole minutes |
| Ledger.CountsTellCompletion | src/modules/log/log.service.ts:302-308 | the two counts say exactly that this save completed the last section of the lesson |
| Ledger.OnlyOwnLessonChanges | src/modules/log/log.service.ts:407-419 | a changed section log can complete its own lesson and no other |
| Ledger.SaveKeepsLessons | src/modules/log/log.service.ts:302-419 | the stored lesson count is the number of lessons whose sections are all complete |
| Ledger.CompletionStays | src/modules/log/log.service.ts:331-347 | completion and the furthest page never go back |
| Ledger.SaveKeepsCourses | src/modules/log/log.service.ts:331-347 | a save never invalidates a recorded course completion |
| Ledger.SaveKeepsRatings | src/modules/log/log.service.ts:286-345 | only completed grammar sections carry a rating |
| LedgerStreaks.ExpiryTest | src/modules/log/log.service.ts:544-562 | expiry clears the cache exactly when neither today nor yesterday is achieved |
| LedgerStreaks.RecalculateIsExact | src/modules/log/log.service.ts:564-600 | recalculation stores the run that ends on the achieved day, cut at 366 |
| LedgerStreaks.RecordStreakFromHistory | src/modules/log/log.service.ts:488-600 | for any order of days, if the cache holds the streak of a day d, it is exact after study on another day if and only if the goal was newly met, or neither that day nor the one before is achieved, or the history gives both days the same streak; otherwise it still holds that of d |
| LedgerStreaks.RecordKeepsStreakExact | src/modules/log/log.service.ts:488-600 | with dates that do not go back, the cache is the streak of the day after every recorded study |
| LedgerStreaks.BackwardDaysGoStale | src/modules/log/log.service.ts:544-562 | a date one day back leaves 1 where the streak is 2 |
| LedgerStreaks.RecordRaisesBest | src/modules/log/log.service.ts:564-600 | meeting the goal raises the best streak to the run it ends |
| LedgerStreaks.RecordKeepsBestExact | src/modules/log/log.service.ts:564-600 | the best streak is the longest run ending on any achieved day, cut at 366 |
| LedgerStreaks.SaveKeepsBadges | src/modules/log/log.service.ts:421-424 | after a save the badges are exactly those the new statistics call for |
| LedgerStreaks.SaveKeepsStreaks | src/modules/log/log.service.ts:254-486 | a save on a day no earlier than any before keeps both streaks exact |
| LedgerStreaks.SaveKeepsConsistent | src/modules/log/log.service.ts:254-486 | an accepted save keeps every relation between the rows of a user |
| LedgerRuns.ReratedCounts | src/modules/log/log.service.ts:370-395 | a changed rating leaves one counter and enters another, and nothing else moves |
| LedgerRuns.SaveKeepsHistogram | src/modules/log/log.service.ts:370-395 | each difficulty counter is the number of users whose log has that rating |
| LedgerRuns.FinishingSaveEnqueues | src/modules/log/log.service.ts:473-483 | the save that finishes a course enqueues a job for one of its lessons |
| LedgerRuns.LessonJobRecords | src/modules/log/log-event.processor.ts:70-114 | a lesson job records its course exactly when it is finished, once, with the count and the badges |
| LedgerRuns.LessonJobKeepsInv | src/modules/log/log-event.processor.ts:70-114 | a delivery, repeated or not, keeps the whole invariant and loses no course |
| LedgerRuns.StepKeepsInv | src/modules/log/log.service.ts:254-486 | sign-ups, goal changes, saves, badge checks and job deliveries each keep the invariant of all tables |
| LedgerRuns.RunKeepsInv | src/modules/log/log.service.ts:254-600 | every run keeps it |
| LedgerRuns.StudyTimeBounds | src/modules/log/log.service.ts:503-527 | 60 times the stored minutes is at most the seconds logged, and at most 59 per active day less |
| LedgerRuns.DrainedQueueMeansRecorded | src/modules/log/log-event.processor.ts:70-114 | with no lesson job of the user pending, completion rows are exactly the finished courses, and are counted |
| LedgerRuns.CountersAddUp | src/modules/log/log.service.ts:370-395 | the three counters of a section are non-negative and sum to its rated logs |
| LedgerRuns.RunKeepsStreaksExact | src/modules/log/log.service.ts:488-600 | in runs whose dates do not go back, cached and best streaks match the history of every user |
| LedgerRuns.RunKeepsStreaksOfSomeDay | src/modules/log/log.service.ts:488-600 | in every run, dates in any order, the stored streak of each user is the streak of some day of study |
| LedgerRuns.StreakBadgesFollowHistory | src/modules/achievement/achievement.service.ts:8-25 | a streak badge is held exactly by users who achieved that many days in a row |
| LedgerRuns.DateBackGoesStale | src/modules/log/log.service.ts:488-600 | a run from empty tables whose last date is one day back ends with that stale cache |
| LogService.LogService.SaveSectionProgress | src/modules/log/log.service.ts:254-486 | a refused save reports the first failing check and changes nothing; an accepted one leaves exactly the specified tables, and the badge job and course job that are due |
| LogService.LogService.CheckProgress | src/modules/log/log.service.ts:278-329 | a save is accepted exactly when its page exists and its rating is of a grammar section that it leaves complete; otherwise the first failing check is reported |
| LogService.LogService.UpsertSectionLog | src/modules/log/log.service.ts:331-347 | the save adds its seconds to the logs, raises the furthest page if it is further, and completes its own section exactly when it should, undoing no other |
| LogService.LogService.UpsertPageLog | src/modules/log/log.service.ts:349-368 | the save's seconds are added to the pages of its section if it names one, and to no other section's pages |
| LogService.LogService.MoveRating | src/modules/log/log.service.ts:370-395 | over all sections and ratings, one count goes down for the old rating and one up for the new, and nothing else moves |
| LogService.LogService.WriteProgress | src/modules/log/log.service.ts:302-419 | the writes before the badges, and whether the lesson was completed |
| LogService.LogService.RecordDailyActivity | src/modules/log/log.service.ts:488-542 | the day's row, the minutes, and the streak branch taken |
| LogService.LogService.ExpireCachedGoalStreak | src/modules/log/log.service.ts:544-562 | the cache cleared when the newest goal is older than yesterday |
| LogService.LogService.RecalculateGoalStreak | src/modules/log/log.service.ts:564-600 | the loop over date keys stores the leading run and raises the best |
| LogService.LogService.HandleLessonCompleted | src/modules/log/log-event.processor.ts:70-114 | one delivery leaves the rows and the queue as specified |
| LogService.LogService.ProcessJob | src/modules/log/log-event.processor.ts:23-46 | a delivery of either job does what the step of its type does |
| LogService.LogService.CheckUserBadges | src/modules/log/log-event.processor.ts:23-46 | the badges due from the stored statistics are added |
| Home.AttendanceIsExact | src/modules/home/home.service.ts:30-64 | box i of the week is ticked exactly when day i of the current ISO week was achieved |
| Home.StudyTimesAreExact | src/modules/home/home.service.ts:30-64 | today's and the week's minutes come from exactly those days |
| Home.TargetsAreExact | src/modules/home/home.service.ts:65-83 | the daily and weekly targets shown, with and without goals |
| Home.StreakShownIsExact | src/modules/home/home.service.ts:30-64 | the streak shown is the maximal run, cut at 366 |
| Home.CacheMatchesHome | src/modules/home/home.service.ts:19-87 | after a save with study time the cached streak is the one shown |
| Scraps.KnowledgeSurvives | src/modules/log/log-event.processor.ts:48-68 | what a process or job knows about a stamp stays true whatever others do |
| Scraps.StepKeepsInv | src/modules/log/log.service.ts:791-1006 | every single query, delivery, crash and tick keeps the invariant of rows, queue and processes |
| Scraps.CountersAreExact | src/modules/log/log-event.processor.ts:48-68 | adds minus removes is 1 while counted active and 0 otherwise, in every run |
| Scraps.CountedOnlyAfterDebounce | src/modules/log/log-event.processor.ts:48-68 | a counter moves only for an uncounted state that has stood for the debounce time |
| Scraps.RunKeepsOneActive | prisma/migrations/20260802140000_add_behavior_analytics/migration.sql:61-66 | racing requests never leave two active rows for one item |
| Scraps.RunKeepsCovered | src/modules/log/log.service.ts:981-1006 | a row not counted as it stands always has its job waiting, or a request about to enqueue it, whatever else dies and is redelivered |
| Scraps.SettlementConverges | src/modules/log/log.service.ts:791-1006 | when requests and jobs have finished, every row is counted as it stands, unless a request died owing an enqueue or a deletion read stale |
| Scraps.DeletionCoverage | src/modules/log/log.service.ts:949-979 | a committing deletion keeps that exactly when the row is not counted, was read as counted, or is about to be read again |
| Scraps.CrashCoverage | src/modules/log/log.service.ts:981-1006 | a death keeps that exactly when each uncounted row it owed has its job waiting or another process that owes it |
| ScrapRuns.StaleDeletionLosesSettlement | src/modules/log/log.service.ts:949-979 | a run in which a deletion's stale reading leaves a row counted as active while it is not, with nothing left to settle it |
| ScrapRuns.DeadDeletionLosesSettlement | src/modules/log/log.service.ts:949-1006 | a run in which a deletion that dies before its enqueue does so |
| ScrapRuns.SettlementsAreLost | src/modules/log/log.service.ts:791-1006 | both happen from the empty tables, the first without any death |
| ScrapRuns.DeletedAgain | src/modules/log/log.service.ts:949-957 | deleting such a row again changes no row and enqueues its job |
| ScrapRuns.LostRowIsRepaired | src/modules/log/log.service.ts:949-1006 | and once that job is due it counts the row as it stands |
| ScrapService.ScrapService.CreateScrap | src/modules/log/log.service.ts:791-947 | the item ends with an active row, found, reactivated or new, nothing else changes, and its job is waiting if it is uncounted |
| ScrapService.ScrapService.DeleteScrap | src/modules/log/log.service.ts:949-979 | only the owner's row is turned off, once, and its job is waiting if it is uncounted |
| ScrapService.ScrapService.ScheduleScrapCounterSettlement | src/modules/log/log.service.ts:981-1006 | jobs already waiting keep their due time, a new one is due only after the full debounce time, and an uncounted state ends with its job known to the queue |
| ScrapService.ScrapService.SettleScrapStateCount | src/modules/log/log-event.processor.ts:48-68 | the state is counted exactly when it is uncounted and still the one the job was made for |
| ScrapService.ScheduledFlipKeepsInv | src/modules/log/log.service.ts:981-1006 | a state change followed by its scheduling keeps counters exact and jobs complete |
| ScrapService.SettlingKeepsInv | src/modules/log/log-event.processor.ts:48-68 | a delivery keeps counters exact and jobs complete |
| ScrapLaws.AloneIsARun | src/modules/log/log.service.ts:791-1006 | a request or delivery run alone is one of the interleavings |
| ScrapLaws.CreationFindsActive | src/modules/log/log.service.ts:843-856 | an item that has an active row keeps it |
| ScrapLaws.CreationReactivates | src/modules/log/log.service.ts:791-947 | an item with inactive rows only gets one back, with its counters and a new stamp |
| ScrapLaws.CreationInserts | src/modules/log/log.service.ts:791-947 | an item without rows gets a new one, active and uncounted |
| ScrapLaws.CreationLosesRace | src/modules/log/log.service.ts:791-947 | a creation that meets a new active row keeps that one and changes no row |
| ScrapLaws.DeletionTurnsOff | src/modules/log/log.service.ts:949-979 | an active row of the user is turned off, and its job added, due in three seconds, if it was counted |
| ScrapLaws.DeletionLeavesRows | src/modules/log/log.service.ts:949-979 | any other deletion changes no row |
| ScrapLaws.SettlementCounts | src/modules/log/log-event.processor.ts:48-68 | a delivery adds one add or one removal exactly if the row is uncounted and still the one its job was made for |
| Sessions.StepKeepsInv | src/modules/auth/auth.service.ts:285-371 | every command of every request keeps what tokens stand for: stored, cached and answered tokens keep the grant they were issued for |
| Sessions.IssueKeepsInv | src/modules/auth/auth.service.ts:460-490 | a new refresh token stands for the grant that was read, in a rotation the grant of the token it replaces |
| Sessions.RunKeepsInv | src/modules/auth/auth.service.ts:285-371 | so does every interleaving |
| Sessions.VersionCheckIsExact | src/modules/auth/auth.service.ts:325-342 | a refresh passes its check exactly when the version its token was issued for is the user's version now |
| Sessions.RevokedStaysRevoked | src/modules/user/user.service.ts:248-264 | no event lowers a session version or revives a deleted user |
| Sessions.RevocationIsFinal | src/modules/auth/jwt.strategy.ts:21-36 | once the version has moved past a grant, no access or refresh token of it is honoured again |
| SessionLaws.PasswordChangeRevokes | src/modules/user/user.service.ts:248-257 | a password change raises the version of its user past every grant given so far, and of no other user |
| SessionLaws.PasswordChangeIsFinal | src/modules/user/user.service.ts:248-257 | from a password change on, no token issued to the user by then is honoured again, in any continuation |
| SessionLaws.DeletionIsFinal | src/modules/user/user.service.ts:259-264 | nor is any after the user is deleted |
| SessionLaws.NeverMeansNever | src/modules/auth/jwt.strategy.ts:21-36 | never honoured means at no event of the run |
| SessionLaws.PresentationExactly | src/modules/auth/jwt.strategy.ts:21-36 | an access token is honoured exactly when its user exists at its version |
| SessionLaws.AnyMoment | src/modules/auth/auth.service.ts:285-371 | at any moment any key may lapse, any request die and any token be presented |
| SessionLaws.StartsExist | src/modules/auth/auth.service.ts:460-490 | the runs start from any users and any stored tokens, also of the older formats |
| Sessions.AnswersKeepTheGrant | src/modules/auth/auth.service.ts:285-356 | every answer, minted or replayed, stands for the grant its whole lineage started with |
| SessionLinearity.StepFair | src/infra/redis/redis.service.ts:70-101 | a token's right to be consumed grows only by a counted restore |
| SessionLinearity.ConsumedLinearly | src/infra/redis/redis.service.ts:70-101 | refreshes and logouts together consume a token at most 1 + its restores times |
| SessionLinearity.MintedLinearly | src/modules/auth/auth.service.ts:285-356 | the answers minted from a token and its logouts together are at most 1 + its restores |
| SessionLinearity.FaultFreeAnswersAgree | src/modules/auth/auth.service.ts:285-356 | without failing rotations a token mints at most once and all its answers are identical, and there are none if a logout took it |
| SessionLaws.ConsumptionsCounted | src/infra/redis/redis.service.ts:70-101 | each claim, logout and restore is counted once, for its token |
| SessionLaws.AnswersRecorded | src/modules/auth/auth.service.ts:285-356 | every answer of a refresh is recorded, and as minted if it is new |
| SessionService.FinishIsARun | src/modules/auth/auth.service.ts:187-371 | a request run alone is one of the interleavings |
| SessionService.RevocationIsARun | src/modules/user/user.service.ts:317-325 | revoking alone is one too, with every listed token and the list gone |
| SessionLaws.PasswordChangeIsARun | src/modules/user/user.service.ts:248-257 | a password change run alone is one of the interleavings, and leaves what the method leaves |
| SessionLaws.EndedExactly | src/modules/user/user.service.ts:317-325 | exactly the listed tokens of the user and the list are deleted |
| SessionService.SessionService.ClaimRefreshToken | src/infra/redis/redis.service.ts:86-101 | the token is read, deleted and marked pending at once, or nothing happens |
| SessionService.SessionService.GetAndDel | src/infra/redis/redis.service.ts:70-80 | the token is read and deleted at once, or nothing happens |
| SessionService.SessionService.IssueTokens | src/modules/auth/auth.service.ts:460-490 | the new token is stored and listed for the grant |
| SessionService.SessionService.Login | src/modules/auth/auth.service.ts:187-205 | tokens for the user's present version, or none for an unknown user |
| SessionService.SessionService.Refresh | src/modules/auth/auth.service.ts:285-356 | the answer and all keys as the steps of a refresh leave them |
| SessionService.SessionService.Rotate | src/modules/auth/auth.service.ts:325-348 | new tokens exactly when the version still matches |
| SessionService.SessionService.PollForResult | src/modules/auth/auth.service.ts:309-324 | an answer exactly when a rotation is pending and its result is cached |
| SessionService.SessionService.Logout | src/modules/auth/auth.service.ts:358-371 | the token is consumed under its hash, or else under itself, and unlisted |
| SessionService.SessionService.DelMany | src/infra/redis/redis.service.ts:118-125 | exactly the given keys are deleted |
| SessionService.SessionService.ChangePassword | src/modules/user/user.service.ts:248-257 | the version rises by one and every listed token is gone |
| SessionService.SessionService.PasswordResetConfirm | src/modules/auth/auth.service.ts:405-453 | exactly the right code for a local account raises the version and deletes every listed token; all else leaves sessions alone |
| SessionService.SessionService.DeleteAccount | src/modules/user/user.service.ts:259-264 | the user and every listed token are gone |
| SessionService.SessionService.Validate | src/modules/auth/jwt.strategy.ts:21-36 | never accepts a revoked grant, and accepts every issued one that is not revoked |
| SessionVersions.ValidUntilRevoked | src/modules/auth/jwt.strategy.ts:21-36 | in every run an issued token passes validation exactly until its user's version moves past it or the user is deleted |
| SessionService.RotationMoves | src/modules/auth/auth.service.ts:285-356 | a rotation moves the session from the old token to the new one and remembers the answer |
| SessionService.RefreshTwice | src/modules/auth/auth.service.ts:285-292 | asking again while the answer is remembered gives the same answer and changes no key |
| SessionService.SessionGoesOn | src/modules/auth/auth.service.ts:285-356 | the new token refreshes for the same user and version, and the old one is gone |
| SessionService.RefreshAfterLogout | src/modules/auth/auth.service.ts:358-371 | when a refresh after a logout is still answered, as an if and only if |
| SessionService.RefreshAfterPasswordChange | src/modules/user/user.service.ts:248-257 | after a password change a token of the user is answered exactly while its answer is still cached, and then with an access token that fails validation |
| SessionLaws.FailureRestores | src/modules/auth/auth.service.ts:343-355 | whatever fails behind the version check, the claim is put back |
| SessionLaws.RestorePutsBack | src/modules/auth/auth.service.ts:349-353 | the token is stored again as it was, and no other changes |
| SessionLaws.FailedRotationCanBeRetried | src/modules/auth/auth.service.ts:343-355 | a refresh asked again after a failed rotation is answered for the same grant while that is valid |
| SessionLaws.LoginStores | src/modules/auth/auth.service.ts:460-490 | a login stores its token for the present version and lists it |
| SessionLaws.LoginEndsWithPassword | src/modules/user/user.service.ts:248-257 | the refresh token of a login is answered, and refused after the next password change |
| SessionLaws.LogoutLeaves | src/modules/auth/auth.service.ts:358-371 | a logout takes the token and its listing and nothing else |
| SessionLaws.RejectionLeaves | src/modules/auth/auth.service.ts:328-342 | a refused refresh leaves no pending marker, and unlists the token of a known user |
| SessionLaws.SignUpIsValid | src/modules/auth/auth.service.ts:153-173 | a new user starts at version 0 with a grant that is valid |
| SessionLaws.SessionsGrant | src/modules/auth/auth.service.ts:325-326 | a stored value without a version stands for version 0 |
| SessionLaws.GivesUpAfterTwenty | src/modules/auth/auth.service.ts:309-324 | a refresh that finds a rotation pending looks twenty times for its answer, and then gives up |
| Idempotency.NextKeepsExclusive | src/common/interceptors/idempotency.interceptor.ts:76-119 | while locks outlast their holders, each holder's lock is its own and the only one of its namespace |
| Idempotency.OneHandlerInFlight | src/common/interceptors/idempotency.interceptor.ts:76-119 | then no two handlers of a namespace run at once |
| Idempotency.PollersNeverRun | src/common/interceptors/idempotency.interceptor.ts:121-139 | a request that waits never starts a handler |
| Idempotency.RunsWhileCached | src/common/interceptors/idempotency.interceptor.ts:76-119 | from a publication on, while its record was to live, successes number at most 1 + the requests that had missed, and handler starts at most those requests |
| Idempotency.RepliesAreGenuine | src/common/interceptors/idempotency.interceptor.ts:84-93 | every reply from the cache was returned by a handler of the namespace for the same body |
| Idempotency.ReplyMatchesBody | src/common/interceptors/idempotency.interceptor.ts:86-92 | a cached success is replayed unchanged to the same body and conflicts with any other |
| Idempotency.ReplyIsTheStep | src/common/interceptors/idempotency.interceptor.ts:86-93 | the reply is the one the steps of a request record, and a conflict records none |
| Idempotency.SecondRequest | src/common/interceptors/idempotency.interceptor.ts:112-118 | for an hour after a success the same body gets its response and any other a conflict, then nothing is cached |
| Idempotency.KeysExpire | src/infra/redis/redis.service.ts:45-64 | records, locks and quota counters are live through their last instant and no longer |
| Idempotency.KeyIsCounted | src/common/interceptors/idempotency.interceptor.ts:104-112 | a key is counted, too many or not, and the handler starts exactly within the 300 of an hour |
| Idempotency.DeathLeavesKeys | src/common/interceptors/idempotency.interceptor.ts:103-118 | a death takes the request and leaves every key, its lock included |
| Idempotency.StepKeepsQuota | src/common/interceptors/idempotency.interceptor.ts:104-111 | handlers started in a life of the quota counter are the keys counted, up to 300 |
| Idempotency.QuotaHolds | src/common/interceptors/idempotency.interceptor.ts:104-111 | so in every run |
| Idempotency.MissedRequestStillRuns | src/common/interceptors/idempotency.interceptor.ts:95-112 | a request that missed runs its handler exactly when the lock is free and the quota allows, whatever is cached |
| Idempotency.SlowHandlerLetsAnotherIn | src/common/interceptors/idempotency.interceptor.ts:95-118 | beside a running handler a second of the namespace can start, quota permitting, exactly when the first has outlived its lock |
| IdempotencyRuns.TwoHandlersAtOnce | src/common/interceptors/idempotency.interceptor.ts:95-118 | a run from empty keys in which that happens |
| IdempotencyRuns.RunsWhileCachedIsReached | src/common/interceptors/idempotency.interceptor.ts:76-119 | for every k below the quota, a timely run from empty keys in which k requests had missed at the first publication and k + 1 successes are published while it is cached |
| IdempotencyRuns.PollerGivesUp | src/common/interceptors/idempotency.interceptor.ts:121-138 | a request that finds the lock taken and never sees a result gives up after exactly ten seconds |
| IdempotencyRuns.RefusedIsARun | src/common/interceptors/idempotency.interceptor.ts:104-118 | a request over the quota is counted, runs nothing, caches nothing and gives its lock up |
| Idempotency.HeldIsARun | src/common/interceptors/idempotency.interceptor.ts:95-118 | a request run alone is one of the interleavings, and a timely one exactly when its handler takes at most 30 seconds |
| Idempotency.IdempotencyInterceptor.ProcessIdempotent | src/common/interceptors/idempotency.interceptor.ts:76-119 | for each way through, the answer, a conflict for another body included, and the keys left behind |
| Idempotency.IdempotencyInterceptor.PollForResult | src/common/interceptors/idempotency.interceptor.ts:121-139 | the first of a hundred looks that finds a record decides, and none means giving up |
| Idempotency.WaitedExactly | src/common/interceptors/idempotency.interceptor.ts:121-138 | a waiting request looks every 100 milliseconds, a hundred times, and the first record it sees answers: the response for its body, a conflict for another |
| Idempotency.IdempotencyInterceptor.SetNx | src/infra/redis/redis.service.ts:61-64 | the lock is taken exactly when no live one is there |
| Idempotency.IdempotencyInterceptor.IncrWithTtlOnFirst | src/infra/redis/redis.service.ts:45-55 | the counter goes up by one, with a new hour when it starts |
| Paging.PageIsSound | src/modules/log/log.service.ts:696-739 | a page holds members below the cursor, descending, and everything it leaves is below its next cursor |
| Paging.WalkDescends | src/modules/log/log.service.ts:696-789 | following cursors lists nothing twice and only what was active at some page, even while rows change |
| Paging.WalkIsComplete | src/modules/log/log.service.ts:696-789 | and lists every scrap that is active throughout |
| Paging.WalkOfFixedSet | src/modules/log/log.service.ts:696-789 | on a fixed set the pages together are the one full descending listing, for every limit |
| Paging.ListPage | src/modules/log/log.service.ts:754-789 | a page lists switched-on rows of the user and type below the cursor, newest first, at most the limit; every such row it leaves out is below its next cursor, which is the last listed |
| Paging.ListVocabGrouped | src/modules/log/log.service.ts:696-752 | one page of vocabulary in groups, and its next cursor |
| Paging.GroupByCourse | src/modules/log/log.service.ts:741-751 | the grouping loop yields one group per course, in the order first seen |
| Paging.CoursesDistinct | src/modules/log/log.service.ts:741-751 | exactly the courses of the items have a group, each one |
| Paging.GroupsPartition | src/modules/log/log.service.ts:741-751 | each item is in the group of its course as often as on the page, and in no other |
| Paging.GroupsKeepOrder | src/modules/log/log.service.ts:741-751 | a group keeps the order of the page |
| Paging.GroupsByNewest | src/modules/log/log.service.ts:741-751 | each group starts with its newest item, and groups come in the order of those |

## Left out

- HTTP controllers, validation decorators, Swagger, CORS and start-up: plumbing; the ranges they enforce are taken as given.
- E-mail, SQS, S3, Google sign-in calls, bcrypt and JWT signing: foreign calls. An access token is its grant, hashes are injective, and new tokens are unused numbers.
- `createScrap`'s checks that the card, material or section exists: the item is taken to exist.
- `localDateKey` and its `Intl` conversion: the local date is an input. Date keys are triples, not text, and years outside 0000-9999 are not rendered.
- Response assembly, next-section lookup, dashboards, titles, benefit lists, plan listing and name generation: display only.
- Content edits, account deletion in the ledger, and cascading deletes: they change the sets the counters refer to.
- The NLP worker, admin CRUD, seeding and Notion synchronisation: I/O over content.
- Ledger and jobs: each `$transaction`, with the enqueueing that follows it, is one step. Reads outside the transaction are not stale. Losing a job between commit and enqueue, and the limit of three attempts, are not modelled: a job may be delivered any number of times and leaves the queue only when acknowledged.
- Home: `getResume` is read for an existing user; the last lesson is not part of it.
- Scraps: toggles of one row get strictly increasing stamps, and the queue remembers finished job ids. The constraint failure on insert is a lookup of the index.
- Sessions: keys of hashed and of older tokens are kept apart, though in Redis both are `refresh:` followed by text, so the fallback lookup also finds a token by its stored hash. Stored values are well formed. Times to live are not numbers; any key may expire at any step, which admits every timed run and more. The parallel commands of `issueTokens` and of the restore path run in a fixed order.
- Otp.AttemptBound: each request is one step there; its commands are steps in `OtpRaces`.
- Throttler: the settings are positive and those of a key do not change, and one client is followed at a time; keys of different clients are disjoint.
- Idempotency: Redis does not fail, and namespaces do not collide. A request may die at any step.
- Idempotency.IdempotencyInterceptor.ProcessIdempotent: one request runs while nothing else touches its keys, except that a waiting request sees whatever the cache holds at each look.
- LogService.LogService.CommitProgress: transactions run one after another, so isolation levels are not captured.
