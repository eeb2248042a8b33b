/**
 The notebook's scrap rows and their debounced counters, one database query or queue call at a
 time. Requests and job attempts interleave freely between queries; a job may be attempted many
 times; a request may die between any two of its queries.
 */
module Scraps {
  import opened Common

  const SCRAP_COUNTER_DEBOUNCE_MS := 3_000

  datatype Item = Card(id: int) | Material(id: int)

  /** A row of the table; `changedAt`, not stored, is when its state last really changed. */
  datatype Row = Row(
    user: int,
    item: Item,
    isActive: bool,
    countedIsActive: bool,
    addCount: int,
    removeCount: int,
    lastStateChangedAt: int,
    changedAt: int)

  /** A settlement job; its identity is the row and the stamp, as in its jobId. */
  datatype Job = Job(row: int, stamp: int)

  /** What a request read, or believes, about a row when it decides whether to enqueue. */
  datatype Seen = Seen(row: int, isActive: bool, countedIsActive: bool, stamp: int)

  /** Where a request or a job attempt is: the query it will make next. */
  datatype Process =
    | FindActive(user: int, item: Item)
    | FindInactive(user: int, item: Item)
    | Activate(row: int)
    | Insert(user: int, item: Item)
    | Reread(row: int)
    | RereadActive(user: int, item: Item)
    | FindToDelete(user: int, row: int)
    | Deactivate(row: int, countedRead: bool)
    | Schedule(seen: Seen)
    | SettleRead(job: Job)
    | SettleWrite(job: Job, isActive: bool, countedIsActive: bool)
    | Attempted(job: Job)

  /**
   The rows, the queue with the time each job becomes due, the finished jobs (the queue keeps their ids and drops repeats), and the processes.
   */
  datatype State = State(
    now: int,
    rows: map<int, Row>,
    jobs: map<Job, int>,
    finished: set<Job>,
    processes: map<int, Process>)

  const INITIAL := State(0, map[], map[], {}, map[])

  /** `clock` is the current time for a state change, and `newRow` the id the database assigns. */
  datatype Event =
    | Tick(to: int)
    | Request(pid: int, process: Process)
    | Query(pid: int, clock: int, newRow: int)
    | Attempt(pid: int, job: Job)
    | Acknowledge(pid: int)
    | Crash(pid: int)

  // ---- The writes ----

  /** The row that a lookup by user, item and activity returns: some matching row. */
  predicate Matches(rows: map<int, Row>, id: int, user: int, item: Item, active: bool) {
    id in rows && rows[id].user == user && rows[id].item == item && rows[id].isActive == active
  }

  ghost function Find(rows: map<int, Row>, user: int, item: Item, active: bool): Option<int> {
    if id :| Matches(rows, id, user, item, active) then Some(id) else None
  }

  /** The partial unique index: at most one active row for a user and an item. */
  predicate ActiveElsewhere(rows: map<int, Row>, id: int) {
    id in rows && exists other | other in rows :: other != id && Matches(rows, other, rows[id].user, rows[id].item, true)
  }

  function Flipped(r: Row, active: bool, stamp: int, now: int): Row {
    r.(isActive := active, lastStateChangedAt := stamp, changedAt := now)
  }

  function NewRow(user: int, item: Item, stamp: int, now: int): Row {
    Row(user, item, true, false, 0, 0, stamp, now)
  }

  predicate Settles(r: Row, job: Job, isActive: bool, counted: bool) {
    r.isActive == isActive && r.countedIsActive == counted && r.lastStateChangedAt == job.stamp
  }

  function Settled(r: Row): Row {
    if r.isActive then r.(countedIsActive := true, addCount := r.addCount + 1)
    else r.(countedIsActive := false, removeCount := r.removeCount + 1)
  }

  function SeenOf(id: int, r: Row): Seen {
    Seen(id, r.isActive, r.countedIsActive, r.lastStateChangedAt)
  }

  /** Adding a job whose id the queue knows, waiting or finished, does nothing. */
  function Enqueued(s: State, seen: Seen): map<Job, int> {
    var job := Job(seen.row, seen.stamp);
    if seen.isActive == seen.countedIsActive || job in s.jobs || job in s.finished then s.jobs
    else s.jobs[job := s.now + SCRAP_COUNTER_DEBOUNCE_MS]
  }

  // ---- The steps ----

  function Then(s: State, pid: int, next: Option<Process>): State {
    s.(processes := if next.Some? then s.processes[pid := next.value] else s.processes - {pid})
  }

  function Change(s: State, id: int, r: Row): State {
    s.(rows := s.rows[id := r])
  }

  ghost function AfterQuery(s: State, pid: int, clock: int, newRow: int): State
    requires pid in s.processes
  {
    match s.processes[pid]
    case FindActive(user, item) =>
      var id := Find(s.rows, user, item, true);
      Then(s, pid, Some(if id.Some? then Schedule(SeenOf(id.value, s.rows[id.value])) else FindInactive(user, item)))
    case FindInactive(user, item) =>
      var id := Find(s.rows, user, item, false);
      Then(s, pid, Some(if id.Some? then Activate(id.value) else Insert(user, item)))
    case Activate(id) =>
      if id !in s.rows || ActiveElsewhere(s.rows, id) then Then(s, pid, None)
      else if s.rows[id].isActive then Then(s, pid, Some(RereadActive(s.rows[id].user, s.rows[id].item)))
      else Then(Change(s, id, Flipped(s.rows[id], true, clock, s.now)), pid, Some(Reread(id)))
    case Insert(user, item) =>
      if Find(s.rows, user, item, true).Some? then Then(s, pid, Some(RereadActive(user, item)))
      else Then(Change(s, newRow, NewRow(user, item, clock, s.now)), pid, Some(Schedule(Seen(newRow, true, false, clock))))
    case Reread(id) =>
      Then(s, pid, if id in s.rows then Some(Schedule(SeenOf(id, s.rows[id]))) else None)
    case RereadActive(user, item) =>
      var id := Find(s.rows, user, item, true);
      Then(s, pid, if id.Some? then Some(Schedule(SeenOf(id.value, s.rows[id.value]))) else None)
    case FindToDelete(user, id) =>
      if id !in s.rows || s.rows[id].user != user then Then(s, pid, None)
      else if !s.rows[id].isActive then Then(s, pid, Some(Schedule(SeenOf(id, s.rows[id]))))
      else Then(s, pid, Some(Deactivate(id, s.rows[id].countedIsActive)))
    case Deactivate(id, countedRead) =>
      if id in s.rows && s.rows[id].isActive
      then Then(Change(s, id, Flipped(s.rows[id], false, clock, s.now)), pid, Some(Schedule(Seen(id, false, countedRead, clock))))
      else Then(s, pid, Some(Reread(id)))
    case Schedule(seen) =>
      Then(s.(jobs := Enqueued(s, seen)), pid, None)
    case SettleRead(job) =>
      if job.row !in s.rows || s.rows[job.row].isActive == s.rows[job.row].countedIsActive
      then Then(s, pid, Some(Attempted(job)))
      else Then(s, pid, Some(SettleWrite(job, s.rows[job.row].isActive, s.rows[job.row].countedIsActive)))
    case SettleWrite(job, isActive, counted) =>
      var s' := Then(s, pid, Some(Attempted(job)));
      if job.row in s.rows && Settles(s.rows[job.row], job, isActive, counted)
      then s'.(rows := s.rows[job.row := Settled(s.rows[job.row])]) else s'
    case Attempted(_) => s
  }

  predicate ChangesRow(s: State, pid: int, id: int)
    requires pid in s.processes
  {
    match s.processes[pid]
    case Activate(row) => row == id && id in s.rows && !s.rows[id].isActive
    case Deactivate(row, _) => row == id && id in s.rows && s.rows[id].isActive
    case _ => false
  }

  /**
   What may happen next. Time does not go back, the database assigns unused ids, a job is attempted
   once it is due, and a state change gets a later stamp than the row's last.
   */
  ghost predicate Enabled(s: State, e: Event) {
    match e
    case Tick(to) => s.now <= to
    case Request(pid, process) => pid !in s.processes && (process.FindActive? || process.FindToDelete?)
    case Query(pid, clock, newRow) =>
      && pid in s.processes && !s.processes[pid].Attempted?
      && newRow !in s.rows
      && (forall id | id in s.rows && ChangesRow(s, pid, id) :: s.rows[id].lastStateChangedAt < clock)
    case Attempt(pid, job) => pid !in s.processes && job in s.jobs && s.jobs[job] <= s.now
    case Acknowledge(pid) => pid in s.processes && s.processes[pid].Attempted?
    case Crash(pid) => pid in s.processes
  }

  ghost function Next(s: State, e: Event): State
    requires Enabled(s, e)
  {
    match e
    case Tick(to) => s.(now := to)
    case Request(pid, process) => Then(s, pid, Some(process))
    case Query(pid, clock, newRow) => AfterQuery(s, pid, clock, newRow)
    case Attempt(pid, job) => Then(s, pid, Some(SettleRead(job)))
    case Acknowledge(pid) =>
      var job := s.processes[pid].job;
      Then(s.(jobs := s.jobs - {job}, finished := s.finished + {job}), pid, None)
    case Crash(pid) => Then(s, pid, None)
  }

  ghost predicate ValidRun(s: State, events: seq<Event>)
    decreases |events|
  {
    events == [] || (Enabled(s, events[0]) && ValidRun(Next(s, events[0]), events[1..]))
  }

  ghost function Run(s: State, events: seq<Event>): State
    requires ValidRun(s, events)
    decreases |events|
  {
    if events == [] then s else Run(Next(s, events[0]), events[1..])
  }

  // ---- Safety, under every interleaving, redelivery and crash ----

  /** Settled adds and removes alternate: their difference is the settled state. */
  predicate CountersExact(rows: map<int, Row>) {
    forall id | id in rows ::
      && rows[id].removeCount >= 0
      && rows[id].addCount - rows[id].removeCount == if rows[id].countedIsActive then 1 else 0
  }

  /** A stamp that was seen on a row is never later than the row's. */
  predicate Known(s: State, id: int, stamp: int) {
    id in s.rows && stamp <= s.rows[id].lastStateChangedAt
  }

  predicate Current(s: State, id: int, stamp: int) {
    id in s.rows && stamp == s.rows[id].lastStateChangedAt
  }

  /** A job whose stamp is still the row's is not attempted before the state has stood for the debounce time. */
  predicate Debounced(s: State, job: Job, time: int) {
    && Known(s, job.row, job.stamp)
    && (Current(s, job.row, job.stamp) ==> s.rows[job.row].changedAt + SCRAP_COUNTER_DEBOUNCE_MS <= time)
  }

  /** A handled job left nothing to settle under its stamp. */
  predicate Handled(s: State, job: Job) {
    && Known(s, job.row, job.stamp)
    && (Current(s, job.row, job.stamp) ==> s.rows[job.row].isActive == s.rows[job.row].countedIsActive)
  }

  predicate ProcessInv(s: State, p: Process) {
    match p
    case Schedule(seen) =>
      && Known(s, seen.row, seen.stamp)
      && (Current(s, seen.row, seen.stamp) ==> s.rows[seen.row].isActive == seen.isActive)
    case SettleRead(job) => Debounced(s, job, s.now)
    case SettleWrite(job, isActive, counted) =>
      && Debounced(s, job, s.now) && isActive != counted
      && (Current(s, job.row, job.stamp) ==> s.rows[job.row].isActive == isActive)
    case Attempted(job) => Handled(s, job)
    case _ => true
  }

  ghost predicate Inv(s: State) {
    && CountersExact(s.rows)
    && (forall id | id in s.rows :: s.rows[id].changedAt <= s.now)
    && (forall job | job in s.jobs :: Debounced(s, job, s.jobs[job]))
    && (forall job | job in s.finished :: Handled(s, job))
    && (forall pid | pid in s.processes :: ProcessInv(s, s.processes[pid]))
  }

  /** How one row may change in a step: a new state has a new stamp, and a settled state stays settled. */
  predicate RowEvolves(r: Row, r': Row) {
    && r.lastStateChangedAt <= r'.lastStateChangedAt
    && (r.lastStateChangedAt == r'.lastStateChangedAt ==>
        && r'.isActive == r.isActive && r'.changedAt == r.changedAt
        && (r.isActive == r.countedIsActive ==> r'.isActive == r'.countedIsActive))
  }

  ghost predicate Evolves(s: State, s': State) {
    && s.now <= s'.now
    && (forall id | id in s.rows :: id in s'.rows && RowEvolves(s.rows[id], s'.rows[id]))
  }

  /** What is known about a stamp survives every step. */
  lemma KnowledgeSurvives(s: State, s': State)
    requires Evolves(s, s')
    ensures forall job, t | Debounced(s, job, t) :: Debounced(s', job, t)
    ensures forall job | Handled(s, job) :: Handled(s', job)
    ensures forall p | ProcessInv(s, p) :: ProcessInv(s', p)
  {
    hide Matches;
    forall p | ProcessInv(s, p) ensures ProcessInv(s', p) {
      match p
      case SettleRead(job) => assert Debounced(s, job, s.now);
      case SettleWrite(job, _, _) => assert Debounced(s, job, s.now);
      case _ =>
    }
  }

  /** The queries that may change a row. */
  predicate Writes(p: Process) {
    p.Activate? || p.Insert? || p.Deactivate? || p.SettleWrite?
  }

  lemma ReadingQuery(s: State, pid: int, clock: int, newRow: int)
    requires pid in s.processes && !Writes(s.processes[pid])
    ensures var s' := AfterQuery(s, pid, clock, newRow); s'.rows == s.rows && s'.now == s.now
  {
    hide Matches, Find, Enqueued;
  }

  lemma StateChangeEvolves(s: State, pid: int, clock: int, newRow: int)
    requires Enabled(s, Query(pid, clock, newRow)) && CountersExact(s.rows)
    requires s.processes[pid].Activate? || s.processes[pid].Insert? || s.processes[pid].Deactivate?
    requires forall id | id in s.rows :: s.rows[id].changedAt <= s.now
    ensures var s' := AfterQuery(s, pid, clock, newRow);
            Evolves(s, s') && CountersExact(s'.rows) && forall id | id in s'.rows :: s'.rows[id].changedAt <= s'.now
  {
    hide Matches, Find, ActiveElsewhere;
  }

  lemma SettlementEvolves(s: State, pid: int, clock: int, newRow: int)
    requires Enabled(s, Query(pid, clock, newRow)) && CountersExact(s.rows)
    requires s.processes[pid].SettleWrite? && s.processes[pid].isActive != s.processes[pid].countedIsActive
    requires forall id | id in s.rows :: s.rows[id].changedAt <= s.now
    ensures var s' := AfterQuery(s, pid, clock, newRow);
            Evolves(s, s') && CountersExact(s'.rows) && forall id | id in s'.rows :: s'.rows[id].changedAt <= s'.now
  {
  }

  lemma QueryEvolves(s: State, pid: int, clock: int, newRow: int)
    requires Inv(s) && Enabled(s, Query(pid, clock, newRow))
    ensures var s' := AfterQuery(s, pid, clock, newRow);
            Evolves(s, s') && CountersExact(s'.rows) && forall id | id in s'.rows :: s'.rows[id].changedAt <= s'.now
  {
    var p := s.processes[pid];
    if !Writes(p) {
      ReadingQuery(s, pid, clock, newRow);
    } else if p.SettleWrite? {
      assert ProcessInv(s, p);
      SettlementEvolves(s, pid, clock, newRow);
    } else {
      StateChangeEvolves(s, pid, clock, newRow);
    }
    hide AfterQuery, CountersExact, ProcessInv, Enabled;
  }

  /** A query moves its own process and no other. */
  predicate OthersStay(s: State, s': State, pid: int) {
    && (forall q | q in s.processes && q != pid :: q in s'.processes && s'.processes[q] == s.processes[q])
    && (forall q | q in s'.processes && q != pid :: q in s.processes)
  }

  lemma QueryMovesItself(s: State, pid: int, clock: int, newRow: int)
    requires pid in s.processes && !s.processes[pid].Attempted?
    ensures var s' := AfterQuery(s, pid, clock, newRow); s'.processes == Put(s.processes, pid, Get(s'.processes, pid))
    ensures AfterQuery(s, pid, clock, newRow).finished == s.finished
    ensures !s.processes[pid].Schedule? ==> AfterQuery(s, pid, clock, newRow).jobs == s.jobs
  {
    hide Matches, Find, ActiveElsewhere, Settles, Settled, Flipped, NewRow, Enqueued;
  }

  lemma QueryKeepsOthers(s: State, pid: int, clock: int, newRow: int)
    requires pid in s.processes && !s.processes[pid].Attempted?
    ensures var s' := AfterQuery(s, pid, clock, newRow);
            && OthersStay(s, s', pid)
            && (forall job | job in s.jobs :: job in s'.jobs)
            && s'.finished == s.finished
  {
    QueryMovesItself(s, pid, clock, newRow);
    if !s.processes[pid].Schedule? {
      hide AfterQuery;
    }
  }

  /** A query leaves only debounced jobs in the queue. */
  lemma QueryKeepsJobs(s: State, pid: int, clock: int, newRow: int)
    requires Inv(s) && Enabled(s, Query(pid, clock, newRow))
    ensures var s' := AfterQuery(s, pid, clock, newRow); forall job | job in s'.jobs :: Debounced(s', job, s'.jobs[job])
  {
    QueryEvolves(s, pid, clock, newRow);
    KnowledgeSurvives(s, AfterQuery(s, pid, clock, newRow));
    hide Matches, Find, ActiveElsewhere, CountersExact, Handled;
    var p := s.processes[pid];
    if p.Schedule? {
      assert ProcessInv(s, p);
    } else {
      hide Debounced, Enqueued, Settles, ProcessInv;
      assert AfterQuery(s, pid, clock, newRow).jobs == s.jobs;
    }
  }

  /** A job attempt goes on knowing whether its job still counts. */
  lemma AttemptGoesOn(s: State, pid: int, clock: int, newRow: int)
    requires Inv(s) && Enabled(s, Query(pid, clock, newRow))
    requires s.processes[pid].SettleRead? || s.processes[pid].SettleWrite?
    ensures var s' := AfterQuery(s, pid, clock, newRow); pid in s'.processes && ProcessInv(s', s'.processes[pid])
  {
    hide CountersExact;
    assert ProcessInv(s, s.processes[pid]);
  }

  /** A request goes on with what it has just read or written. */
  lemma RequestGoesOn(s: State, pid: int, clock: int, newRow: int)
    requires Enabled(s, Query(pid, clock, newRow))
    requires !s.processes[pid].SettleRead? && !s.processes[pid].SettleWrite?
    ensures var s' := AfterQuery(s, pid, clock, newRow); pid in s'.processes ==> ProcessInv(s', s'.processes[pid])
  {
    hide ActiveElsewhere, Enqueued, Debounced, Handled;
  }

  lemma StepKeepsInv(s: State, e: Event)
    requires Inv(s) && Enabled(s, e)
    ensures Inv(Next(s, e))
  {
    var s' := Next(s, e);
    if e.Query? {
      QueryEvolves(s, e.pid, e.clock, e.newRow);
      QueryKeepsJobs(s, e.pid, e.clock, e.newRow);
      QueryKeepsOthers(s, e.pid, e.clock, e.newRow);
      if s.processes[e.pid].SettleRead? || s.processes[e.pid].SettleWrite? {
        AttemptGoesOn(s, e.pid, e.clock, e.newRow);
      } else {
        RequestGoesOn(s, e.pid, e.clock, e.newRow);
      }
      hide AfterQuery, ProcessInv, Debounced, Handled, CountersExact;
      KnowledgeSurvives(s, s');
    } else {
      assert Evolves(s, s');
      KnowledgeSurvives(s, s');
      hide CountersExact;
      assert e.Acknowledge? ==> ProcessInv(s, s.processes[e.pid]);
    }
  }

  lemma {:induction false} RunKeepsInv(s: State, events: seq<Event>)
    requires Inv(s) && ValidRun(s, events)
    ensures Inv(Run(s, events))
    decreases |events|
  {
    hide Inv, Next, Enabled;
    if events != [] {
      StepKeepsInv(s, events[0]);
      RunKeepsInv(Next(s, events[0]), events[1..]);
    }
  }

  /** In every run each row's adds exceed its removes by one exactly while its state is counted as active. */
  lemma CountersAreExact(events: seq<Event>)
    requires ValidRun(INITIAL, events)
    ensures CountersExact(Run(INITIAL, events).rows)
  {
    RunKeepsInv(INITIAL, events);
  }

  predicate SameCounters(r: Row, r': Row) {
    r'.addCount == r.addCount && r'.removeCount == r.removeCount && r'.countedIsActive == r.countedIsActive
  }

  /** A settlement counts a state not counted before, which had by then stood for the debounce time. */
  predicate Counts(r: Row, r': Row, now: int) {
    r' == Settled(r) && r.countedIsActive != r.isActive && r.changedAt + SCRAP_COUNTER_DEBOUNCE_MS <= now
  }

  lemma QueryCounts(s: State, pid: int, clock: int, newRow: int, id: int)
    requires Inv(s) && Enabled(s, Query(pid, clock, newRow)) && id in s.rows
    ensures var s' := AfterQuery(s, pid, clock, newRow);
            id in s'.rows && (SameCounters(s.rows[id], s'.rows[id]) || Counts(s.rows[id], s'.rows[id], s.now))
  {
    assert ProcessInv(s, s.processes[pid]);
    hide CountersExact, Matches, Find, ActiveElsewhere, Enqueued, Inv, Handled;
  }

  /** Whatever step of whatever run moves a counter is such a settlement. */
  lemma CountedOnlyAfterDebounce(events: seq<Event>, e: Event, id: int)
    requires ValidRun(INITIAL, events) && Enabled(Run(INITIAL, events), e) && id in Run(INITIAL, events).rows
    ensures var s := Run(INITIAL, events); var s' := Next(s, e);
            id in s'.rows && (SameCounters(s.rows[id], s'.rows[id]) || Counts(s.rows[id], s'.rows[id], s.now))
    ensures var s := Run(INITIAL, events); var r, r' := s.rows[id], Next(s, e).rows[id];
            r'.addCount != r.addCount || r'.removeCount != r.removeCount || r'.countedIsActive != r.countedIsActive ==>
              r.changedAt + 3_000 <= s.now && r.isActive != r.countedIsActive && r'.countedIsActive == r.isActive
  {
    RunKeepsInv(INITIAL, events);
    hide Run, ValidRun, Inv, Counts, AfterQuery;
    if e.Query? {
      QueryCounts(Run(INITIAL, events), e.pid, e.clock, e.newRow, id);
    }
  }

  ghost predicate OneActive(rows: map<int, Row>) {
    forall a, b | a in rows && b in rows && a != b && rows[a].isActive && rows[b].isActive ::
      rows[a].user != rows[b].user || rows[a].item != rows[b].item
  }

  lemma StepKeepsOneActive(s: State, e: Event)
    requires OneActive(s.rows) && Enabled(s, e)
    ensures OneActive(Next(s, e).rows)
  {
    if e.Query? {
      match s.processes[e.pid]
      case Activate(id) =>
        if id in s.rows {
          assert !ActiveElsewhere(s.rows, id) ==>
            forall b | b in s.rows && b != id && s.rows[b].isActive :: !Matches(s.rows, b, s.rows[id].user, s.rows[id].item, true);
        }
      case Insert(user, item) =>
        assert Find(s.rows, user, item, true).None? ==>
          forall b | b in s.rows && s.rows[b].isActive :: !Matches(s.rows, b, user, item, true);
      case _ =>
    }
  }

  /** However requests race, a user never has two active rows for one item. */
  lemma {:induction false} RunKeepsOneActive(s: State, events: seq<Event>)
    requires OneActive(s.rows) && ValidRun(s, events)
    ensures OneActive(Run(s, events).rows)
    decreases |events|
  {
    hide Next, Enabled, OneActive;
    if events != [] {
      StepKeepsOneActive(s, events[0]);
      RunKeepsOneActive(Next(s, events[0]), events[1..]);
    }
  }

  // ---- Convergence ----

  /** Someone will still enqueue, or has enqueued, a job for the row's present state. */
  ghost predicate Owed(s: State, id: int)
    requires id in s.rows
  {
    || Job(id, s.rows[id].lastStateChangedAt) in s.jobs
    || (exists pid :: pid in s.processes && Owes(s.processes[pid], id, s.rows[id].lastStateChangedAt))
  }

  predicate Owes(p: Process, id: int, stamp: int) {
    || p == Reread(id)
    || (p.Schedule? && p.seen.row == id && p.seen.stamp == stamp && p.seen.isActive != p.seen.countedIsActive)
  }

  ghost predicate Covered(s: State) {
    forall id | id in s.rows && s.rows[id].isActive != s.rows[id].countedIsActive :: Owed(s, id)
  }

  /** A request that changed a row's state, or is about to read one again, and has yet to enqueue its job. */
  predicate StillOwes(p: Process) {
    p.Reread? || (p.Schedule? && p.seen.isActive != p.seen.countedIsActive)
  }

  /**
   No request dies between its update and its enqueue, and no deletion commits on a stale reading of
   an uncounted row that has been counted since. Anything else may die, job attempts among them.
   */
  predicate Tidy(s: State, e: Event) {
    && (e.Crash? && e.pid in s.processes ==> !StillOwes(s.processes[e.pid]))
    && (e.Query? && e.pid in s.processes && s.processes[e.pid].Deactivate? ==>
        var p := s.processes[e.pid];
        p.row in s.rows && s.rows[p.row].isActive && s.rows[p.row].countedIsActive ==> p.countedRead)
  }

  ghost predicate TidyRun(s: State, events: seq<Event>)
    requires ValidRun(s, events)
    decreases |events|
  {
    events == [] || (Tidy(s, events[0]) && TidyRun(Next(s, events[0]), events[1..]))
  }

  /** What a step owes, it owed already, unless the stepping process was the one that owed it. */
  lemma DebtsOfOthersStay(s: State, s': State, pid: int, id: int)
    requires id in s.rows && id in s'.rows && s'.rows[id].lastStateChangedAt == s.rows[id].lastStateChangedAt
    requires Owed(s, id) && (pid in s.processes ==> !Owes(s.processes[pid], id, s.rows[id].lastStateChangedAt))
    requires forall q | q in s.processes && q != pid :: q in s'.processes && s'.processes[q] == s.processes[q]
    requires forall job | job in s.jobs && job.row == id && job.stamp == s.rows[id].lastStateChangedAt :: job in s'.jobs
    ensures Owed(s', id)
  {
    if Job(id, s.rows[id].lastStateChangedAt) !in s.jobs {
      var q :| q in s.processes && Owes(s.processes[q], id, s.rows[id].lastStateChangedAt);
      assert q in s'.processes && Owes(s'.processes[q], id, s'.rows[id].lastStateChangedAt);
    }
  }

  /** A row whose state a query changed is owed by the process that changed it. */
  lemma ChangedRowIsOwed(s: State, pid: int, clock: int, newRow: int, id: int)
    requires Inv(s) && Enabled(s, Query(pid, clock, newRow)) && Tidy(s, Query(pid, clock, newRow))
    requires var s' := AfterQuery(s, pid, clock, newRow);
             && id in s'.rows && s'.rows[id].isActive != s'.rows[id].countedIsActive
             && (id !in s.rows || s'.rows[id].lastStateChangedAt != s.rows[id].lastStateChangedAt)
    ensures Owed(AfterQuery(s, pid, clock, newRow), id)
  {
    hide Inv, Matches, Find, ActiveElsewhere, Enqueued;
    var s' := AfterQuery(s, pid, clock, newRow);
    assert pid in s'.processes && Owes(s'.processes[pid], id, s'.rows[id].lastStateChangedAt);
  }

  /** A process that owed a row pays, or goes on owing it. */
  lemma OwnDebtIsPaid(s: State, pid: int, clock: int, newRow: int, id: int)
    requires Inv(s) && Enabled(s, Query(pid, clock, newRow))
    requires id in s.rows && s.rows[id].isActive != s.rows[id].countedIsActive
    requires Owes(s.processes[pid], id, s.rows[id].lastStateChangedAt)
    ensures var s' := AfterQuery(s, pid, clock, newRow); s'.rows == s.rows && Owed(s', id)
  {
    hide CountersExact, Matches, Find, ActiveElsewhere, ProcessInv, Debounced;
    var s', p := AfterQuery(s, pid, clock, newRow), s.processes[pid];
    if p == Reread(id) {
      assert Owes(s'.processes[pid], id, s'.rows[id].lastStateChangedAt);
    } else {
      assert Job(id, p.seen.stamp) !in s.finished;
    }
  }

  lemma QueryKeepsCovered(s: State, pid: int, clock: int, newRow: int, id: int)
    requires Inv(s) && Covered(s) && Enabled(s, Query(pid, clock, newRow)) && Tidy(s, Query(pid, clock, newRow))
    requires var s' := AfterQuery(s, pid, clock, newRow);
             id in s'.rows && s'.rows[id].isActive != s'.rows[id].countedIsActive
    ensures Owed(AfterQuery(s, pid, clock, newRow), id)
  {
    var s', p := AfterQuery(s, pid, clock, newRow), s.processes[pid];
    QueryEvolves(s, pid, clock, newRow);
    QueryKeepsOthers(s, pid, clock, newRow);
    hide AfterQuery, Inv, Enabled, Owes, Owed, Tidy;
    if id in s.rows && s'.rows[id].lastStateChangedAt == s.rows[id].lastStateChangedAt {
      assert s.rows[id].isActive != s.rows[id].countedIsActive;
      if Owes(p, id, s.rows[id].lastStateChangedAt) {
        OwnDebtIsPaid(s, pid, clock, newRow, id);
      } else {
        DebtsOfOthersStay(s, s', pid, id);
      }
    } else {
      ChangedRowIsOwed(s, pid, clock, newRow, id);
    }
  }

  lemma StepKeepsCovered(s: State, e: Event)
    requires Inv(s) && Covered(s) && Enabled(s, e) && Tidy(s, e)
    ensures Covered(Next(s, e))
  {
    var s' := Next(s, e);
    forall id | id in s'.rows && s'.rows[id].isActive != s'.rows[id].countedIsActive ensures Owed(s', id) {
      match e
      case Query(pid, clock, newRow) => QueryKeepsCovered(s, pid, clock, newRow, id);
      case Tick(_) => assert Owed(s, id);
      case Request(pid, _) => DebtsOfOthersStay(s, s', pid, id);
      case Attempt(pid, _) => DebtsOfOthersStay(s, s', pid, id);
      case Acknowledge(pid) =>
        assert ProcessInv(s, s.processes[pid]);
        DebtsOfOthersStay(s, s', pid, id);
      case Crash(pid) => DebtsOfOthersStay(s, s', pid, id);
    }
  }

  lemma {:induction false} RunKeepsCovered(s: State, events: seq<Event>)
    requires Inv(s) && Covered(s) && ValidRun(s, events) && TidyRun(s, events)
    ensures Covered(Run(s, events))
    decreases |events|
  {
    hide Inv, Covered, Next, Enabled, Tidy;
    if events != [] {
      StepKeepsInv(s, events[0]);
      StepKeepsCovered(s, events[0]);
      RunKeepsCovered(Next(s, events[0]), events[1..]);
    }
  }

  /** Once requests and jobs have all finished, every row is counted as it stands. */
  lemma SettlementConverges(events: seq<Event>)
    requires ValidRun(INITIAL, events) && TidyRun(INITIAL, events)
    ensures var s := Run(INITIAL, events);
            s.processes == map[] && s.jobs == map[] ==>
            forall id | id in s.rows :: s.rows[id].countedIsActive == s.rows[id].isActive
  {
    RunKeepsCovered(INITIAL, events);
  }

  /**
   When a deletion commits, coverage survives exactly if the row is not counted, or was read as
   counted, or another request is about to read it again.
   */
  lemma DeletionCoverage(s: State, pid: int, clock: int, newRow: int)
    requires Inv(s) && Covered(s) && Enabled(s, Query(pid, clock, newRow)) && s.processes[pid].Deactivate?
    requires ChangesRow(s, pid, s.processes[pid].row)
    ensures var p := s.processes[pid];
            Covered(AfterQuery(s, pid, clock, newRow)) <==>
            || !s.rows[p.row].countedIsActive || p.countedRead
            || exists q :: q in s.processes && s.processes[q] == Reread(p.row)
  {
    hide Matches, Find, ActiveElsewhere, CountersExact;
    var s', p := AfterQuery(s, pid, clock, newRow), s.processes[pid];
    forall id | id in s'.rows && id != p.row && s'.rows[id].isActive != s'.rows[id].countedIsActive ensures Owed(s', id) {
      assert Owed(s, id);
      DebtsOfOthersStay(s, s', pid, id);
    }
    assert forall q | q in s.processes && q != pid :: s'.processes[q] == s.processes[q] && ProcessInv(s, s.processes[q]);
    assert Job(p.row, clock) !in s'.jobs;
    if q :| q in s.processes && s.processes[q] == Reread(p.row) {
      assert q != pid && Owes(s'.processes[q], p.row, clock);
    }
    if p.countedRead {
      assert Owes(s'.processes[pid], p.row, clock);
    } else if s.rows[p.row].countedIsActive && !(exists q :: q in s.processes && s.processes[q] == Reread(p.row)) {
      assert !Owed(s', p.row);
    }
  }

  /**
   When a process dies, coverage survives exactly if every uncounted row it owed has its job waiting,
   or another process that owes it.
   */
  lemma CrashCoverage(s: State, pid: int)
    requires Covered(s) && Enabled(s, Crash(pid))
    ensures Covered(Next(s, Crash(pid))) <==>
            forall id | id in s.rows && s.rows[id].isActive != s.rows[id].countedIsActive
                        && Owes(s.processes[pid], id, s.rows[id].lastStateChangedAt) ::
              || Job(id, s.rows[id].lastStateChangedAt) in s.jobs
              || exists q :: q in s.processes && q != pid && Owes(s.processes[q], id, s.rows[id].lastStateChangedAt)
  {
    var s' := Next(s, Crash(pid));
    forall id | id in s.rows && s.rows[id].isActive != s.rows[id].countedIsActive
      ensures Owed(s', id) <==>
              || Job(id, s.rows[id].lastStateChangedAt) in s.jobs
              || exists q :: q in s.processes && q != pid && Owes(s.processes[q], id, s.rows[id].lastStateChangedAt)
    {
      var stamp := s.rows[id].lastStateChangedAt;
      hide Owes;
      if q :| q in s.processes && q != pid && Owes(s.processes[q], id, stamp) {
        assert q in s'.processes && Owes(s'.processes[q], id, stamp);
      }
      if q :| q in s'.processes && Owes(s'.processes[q], id, stamp) {
        assert q in s.processes && q != pid && Owes(s.processes[q], id, stamp);
      }
    }
    forall id | id in s.rows && s.rows[id].isActive != s.rows[id].countedIsActive
                && !Owes(s.processes[pid], id, s.rows[id].lastStateChangedAt)
      ensures Owed(s', id)
    {
      hide Owes;
      DebtsOfOthersStay(s, s', pid, id);
    }
    hide Owes;
  }
}
