/**
 Concrete runs of the scrap protocol: the two ways a settlement is lost, each from the empty tables,
 and how deleting the row once more repairs it.
 */
module ScrapRuns {
  import opened Common
  import opened Scraps

  lemma Append(s: State, events: seq<Event>, e: Event)
    requires ValidRun(s, events) && Enabled(Run(s, events), e)
    ensures ValidRun(s, events + [e]) && Run(s, events + [e]) == Next(Run(s, events), e)
    decreases |events|
  {
    hide Enabled, Next;
    if events == [] {
      assert events + [e] == [e] && ValidRun(Next(s, e), []) && Run(Next(s, e), []) == Next(s, e);
    } else {
      Append(Next(s, events[0]), events[1..], e);
      assert (events + [e])[1..] == events[1..] + [e];
    }
  }

  // ---- Single steps, for the runs below ----

  function At(s: State, pid: int, p: Process): State {
    s.(processes := s.processes[pid := p])
  }

  lemma RequestStarts(s: State, pid: int, p: Process)
    requires pid !in s.processes && (p.FindActive? || p.FindToDelete?)
    ensures Enabled(s, Request(pid, p)) && Next(s, Request(pid, p)) == At(s, pid, p)
  {
  }

  lemma DeletionReads(s: State, pid: int, id: int, c: int, n: int)
    requires id in s.rows && s.rows[id].isActive && n !in s.rows && pid in s.processes
    requires s.processes[pid] == FindToDelete(s.rows[id].user, id)
    ensures Enabled(s, Query(pid, c, n)) && Next(s, Query(pid, c, n)) == At(s, pid, Deactivate(id, s.rows[id].countedIsActive))
  {
  }

  lemma DeletionCommits(s: State, pid: int, id: int, counted: bool, c: int, n: int)
    requires id in s.rows && s.rows[id].isActive && s.rows[id].lastStateChangedAt < c && n !in s.rows
    requires pid in s.processes && s.processes[pid] == Deactivate(id, counted)
    ensures Enabled(s, Query(pid, c, n))
    ensures Next(s, Query(pid, c, n)) ==
            At(Change(s, id, Flipped(s.rows[id], false, c, s.now)), pid, Schedule(Seen(id, false, counted, c)))
  {
  }

  lemma NothingEnqueued(s: State, pid: int, seen: Seen, c: int, n: int)
    requires n !in s.rows && pid in s.processes && s.processes[pid] == Schedule(seen) && seen.isActive == seen.countedIsActive
    ensures Enabled(s, Query(pid, c, n)) && Next(s, Query(pid, c, n)) == s.(processes := s.processes - {pid})
  {
  }

  lemma AttemptStarts(s: State, pid: int, job: Job)
    requires pid !in s.processes && job in s.jobs && s.jobs[job] <= s.now
    ensures Enabled(s, Attempt(pid, job)) && Next(s, Attempt(pid, job)) == At(s, pid, SettleRead(job))
  {
  }

  lemma AttemptReads(s: State, pid: int, job: Job, c: int, n: int)
    requires n !in s.rows && pid in s.processes && s.processes[pid] == SettleRead(job)
    requires job.row in s.rows && s.rows[job.row].isActive != s.rows[job.row].countedIsActive
    ensures Enabled(s, Query(pid, c, n))
    ensures Next(s, Query(pid, c, n)) == At(s, pid, SettleWrite(job, s.rows[job.row].isActive, s.rows[job.row].countedIsActive))
  {
  }

  lemma AttemptSettles(s: State, pid: int, job: Job, active: bool, c: int, n: int)
    requires n !in s.rows && pid in s.processes && s.processes[pid] == SettleWrite(job, active, !active)
    requires job.row in s.rows && Settles(s.rows[job.row], job, active, !active)
    ensures Enabled(s, Query(pid, c, n))
    ensures Next(s, Query(pid, c, n)) == At(Change(s, job.row, Settled(s.rows[job.row])), pid, Attempted(job))
  {
  }

  function Acknowledged(s: State, pid: int, job: Job): State {
    s.(jobs := s.jobs - {job}, finished := s.finished + {job}, processes := s.processes - {pid})
  }

  lemma AttemptEnds(s: State, pid: int, job: Job)
    requires pid in s.processes && s.processes[pid] == Attempted(job)
    ensures Enabled(s, Acknowledge(pid)) && Next(s, Acknowledge(pid)) == Acknowledged(s, pid, job)
  {
  }

  /** A row waiting to be counted, its job due, and nothing else going on. */
  predicate Waiting(s: State, id: int) {
    && id in s.rows && s.rows[id].isActive && !s.rows[id].countedIsActive && s.processes == map[]
    && var job := Job(id, s.rows[id].lastStateChangedAt); s.jobs.Keys == {job} && s.jobs[job] <= s.now
  }

  /** Everything has finished, and the row is counted as active while it is not. It stays so until it is deleted again or its state changes. */
  predicate Lost(s: State, id: int) {
    s.processes == map[] && s.jobs == map[] && id in s.rows && s.rows[id].countedIsActive && !s.rows[id].isActive
  }

  /** A due job settles its row while a request stands before its next query. */
  lemma JobSettles(s: State, id: int, n: int) returns (events: seq<Event>)
    requires n !in s.rows && 1 !in s.processes && id in s.rows && s.rows[id].isActive != s.rows[id].countedIsActive
    requires var job := Job(id, s.rows[id].lastStateChangedAt); s.jobs.Keys == {job} && s.jobs[job] <= s.now
    ensures ValidRun(s, events) && forall e | e in events :: !e.Crash?
    ensures var job := Job(id, s.rows[id].lastStateChangedAt);
            Run(s, events) == Change(s, id, Settled(s.rows[id])).(jobs := map[], finished := s.finished + {job})
  {
    hide Enabled, Next;
    var job := Job(id, s.rows[id].lastStateChangedAt);
    AttemptStarts(s, 1, job);
    var s1 := At(s, 1, SettleRead(job));
    AttemptReads(s1, 1, job, 0, n);
    var s2 := At(s1, 1, SettleWrite(job, s.rows[id].isActive, s.rows[id].countedIsActive));
    AttemptSettles(s2, 1, job, s.rows[id].isActive, 0, n);
    var s3 := At(Change(s2, id, Settled(s.rows[id])), 1, Attempted(job));
    AttemptEnds(s3, 1, job);
    var s4 := Acknowledged(s3, 1, job);
    assert s4.processes == s.processes && s4.jobs == map[];
    events := FourSteps(s, Attempt(1, job), Query(1, 0, n), Query(1, 0, n), Acknowledge(1));
  }

  lemma FourSteps(s: State, a: Event, b: Event, c: Event, d: Event) returns (events: seq<Event>)
    requires Enabled(s, a) && Enabled(Next(s, a), b) && Enabled(Next(Next(s, a), b), c)
    requires Enabled(Next(Next(Next(s, a), b), c), d)
    ensures events == [a] + [b] + [c] + [d] && ValidRun(s, events) && Run(s, events) == Next(Next(Next(Next(s, a), b), c), d)
  {
    hide Enabled, Next;
    assert ValidRun(s, []) && Run(s, []) == s;
    Append(s, [], a);
    assert [] + [a] == [a];
    Append(s, [a], b);
    Append(s, [a] + [b], c);
    Append(s, [a] + [b] + [c], d);
    events := [a] + [b] + [c] + [d];
  }

  lemma {:induction false} RunConcat(s: State, a: seq<Event>, b: seq<Event>)
    requires ValidRun(s, a) && ValidRun(Run(s, a), b)
    ensures ValidRun(s, a + b) && Run(s, a + b) == Run(Run(s, a), b)
    decreases |a|
  {
    hide Enabled, Next;
    if a == [] {
      assert a + b == b;
    } else {
      RunConcat(Next(s, a[0]), a[1..], b);
      assert (a + b)[1..] == a[1..] + b;
    }
  }

  /**
   The lost settlement: an active row waits to be counted; a deletion reads it as uncounted, its job
   settles it, and only then does the deletion commit.
   */
  lemma StaleDeletionLosesSettlement(s: State, id: int) returns (events: seq<Event>)
    requires Waiting(s, id)
    ensures ValidRun(s, events) && Lost(Run(s, events), id)
    ensures forall e | e in events :: !e.Crash?
  {
    var r, n, c := s.rows[id], Greatest(s.rows.Keys) + 1, s.rows[id].lastStateChangedAt + 1;
    var find, seen := FindToDelete(r.user, id), Seen(id, false, false, c);
    RequestStarts(s, 0, find);
    DeletionReads(At(s, 0, find), 0, id, c, n);
    var s2 := At(At(s, 0, find), 0, Deactivate(id, false));
    var settling := JobSettles(s2, id, n);
    var s3 := Run(s2, settling);
    DeletionCommits(s3, 0, id, false, c, n);
    var s4 := At(Change(s3, id, Flipped(s3.rows[id], false, c, s3.now)), 0, Schedule(seen));
    NothingEnqueued(s4, 0, seen, c, n);
    hide Enabled, Next, Greatest;
    var opening := TwoSteps(s, Request(0, find), Query(0, c, n));
    RunConcat(s, opening, settling);
    var closing := TwoSteps(s3, Query(0, c, n), Query(0, c, n));
    RunConcat(s, opening + settling, closing);
    events := opening + settling + closing;
  }

  /** The lost enqueue: a deletion of a counted row dies between its update and its enqueue. */
  lemma DeadDeletionLosesSettlement(s: State, id: int) returns (events: seq<Event>)
    requires id in s.rows && s.rows[id].isActive && s.rows[id].countedIsActive && s.processes == map[] && s.jobs == map[]
    ensures ValidRun(s, events) && Lost(Run(s, events), id)
  {
    var r, n, c := s.rows[id], Greatest(s.rows.Keys) + 1, s.rows[id].lastStateChangedAt + 1;
    var find, seen := FindToDelete(r.user, id), Seen(id, false, true, c);
    RequestStarts(s, 0, find);
    DeletionReads(At(s, 0, find), 0, id, c, n);
    var s2 := At(At(s, 0, find), 0, Deactivate(id, true));
    DeletionCommits(s2, 0, id, true, c, n);
    var s3 := At(Change(s2, id, Flipped(s2.rows[id], false, c, s2.now)), 0, Schedule(seen));
    Dies(s3, 0);
    events := FourSteps(s, Request(0, find), Query(0, c, n), Query(0, c, n), Crash(0));
  }

  lemma Dies(s: State, pid: int)
    requires pid in s.processes
    ensures Enabled(s, Crash(pid)) && Next(s, Crash(pid)) == s.(processes := s.processes - {pid})
  {
  }

  lemma TwoSteps(s: State, a: Event, b: Event) returns (events: seq<Event>)
    requires Enabled(s, a) && Enabled(Next(s, a), b)
    ensures events == [a] + [b] && ValidRun(s, events) && Run(s, events) == Next(Next(s, a), b)
  {
    hide Enabled, Next;
    assert ValidRun(s, []) && Run(s, []) == s;
    Append(s, [], a);
    assert [] + [a] == [a];
    Append(s, [a], b);
    events := [a] + [b];
  }

  // ---- Repair ----

  lemma InactiveFound(s: State, pid: int, id: int, c: int, n: int)
    requires id in s.rows && !s.rows[id].isActive && n !in s.rows && pid in s.processes
    requires s.processes[pid] == FindToDelete(s.rows[id].user, id)
    ensures Enabled(s, Query(pid, c, n)) && Next(s, Query(pid, c, n)) == At(s, pid, Schedule(SeenOf(id, s.rows[id])))
  {
  }

  /** The queue does not know the job of a lost row: a job it finished would have settled the row. */
  lemma LostJobIsUnknown(s: State, id: int)
    requires Inv(s) && Lost(s, id)
    ensures Job(id, s.rows[id].lastStateChangedAt) !in s.finished
  {
    assert Job(id, s.rows[id].lastStateChangedAt) in s.finished ==> Handled(s, Job(id, s.rows[id].lastStateChangedAt));
  }

  /** Deleting a lost row again changes no row and enqueues its job. */
  lemma DeletedAgain(s: State, id: int) returns (events: seq<Event>)
    requires Inv(s) && Lost(s, id)
    ensures ValidRun(s, events)
    ensures Run(s, events) == s.(jobs := map[Job(id, s.rows[id].lastStateChangedAt) := s.now + SCRAP_COUNTER_DEBOUNCE_MS])
  {
    var r, n := s.rows[id], Greatest(s.rows.Keys) + 1;
    var find, seen := FindToDelete(r.user, id), SeenOf(id, r);
    LostJobIsUnknown(s, id);
    RequestStarts(s, 0, find);
    InactiveFound(At(s, 0, find), 0, id, 0, n);
    var s2 := At(At(s, 0, find), 0, Schedule(seen));
    JobEnqueued(s2, 0, seen, 0, n);
    assert s2.processes - {0} == map[];
    hide Enabled, Next, Greatest, Inv;
    var opening := TwoSteps(s, Request(0, find), Query(0, 0, n));
    events := opening + [Query(0, 0, n)];
    Append(s, opening, Query(0, 0, n));
  }

  /** Once the debounce time has passed, that job settles the row: everything has finished, and the row is counted as it stands. */
  lemma LostRowIsRepaired(s: State, id: int) returns (events: seq<Event>)
    requires Inv(s) && Lost(s, id)
    ensures ValidRun(s, events)
    ensures var s' := Run(s, events);
            s'.processes == map[] && s'.jobs == map[] && s'.rows == s.rows[id := Settled(s.rows[id])]
            && s'.rows[id].countedIsActive == s'.rows[id].isActive
  {
    hide Enabled, Next, Inv, Run, ValidRun;
    var deletion := DeletedAgain(s, id);
    var s1 := Run(s, deletion);
    TimePasses(s1, s1.now + SCRAP_COUNTER_DEBOUNCE_MS);
    Append(s, deletion, Tick(s1.now + SCRAP_COUNTER_DEBOUNCE_MS));
    var waiting := deletion + [Tick(s1.now + SCRAP_COUNTER_DEBOUNCE_MS)];
    var settling := JobSettles(Run(s, waiting), id, Greatest(s.rows.Keys) + 1);
    RunConcat(s, waiting, settling);
    events := waiting + settling;
  }

  // ---- From the empty tables ----

  lemma NothingFound(s: State, pid: int, user: int, item: Item, c: int, n: int)
    requires s.rows == map[] && pid in s.processes
    ensures Enabled(s, Query(pid, c, n)) || s.processes[pid].Attempted?
    ensures s.processes[pid] == FindActive(user, item) ==> Next(s, Query(pid, c, n)) == At(s, pid, FindInactive(user, item))
    ensures s.processes[pid] == FindInactive(user, item) ==> Next(s, Query(pid, c, n)) == At(s, pid, Insert(user, item))
    ensures s.processes[pid] == Insert(user, item) ==>
            Next(s, Query(pid, c, n)) == At(Change(s, n, NewRow(user, item, c, s.now)), pid, Schedule(Seen(n, true, false, c)))
  {
  }

  lemma JobEnqueued(s: State, pid: int, seen: Seen, c: int, n: int)
    requires n !in s.rows && pid in s.processes && s.processes[pid] == Schedule(seen) && seen.isActive != seen.countedIsActive
    requires s.jobs == map[] && Job(seen.row, seen.stamp) !in s.finished
    ensures Enabled(s, Query(pid, c, n))
    ensures Next(s, Query(pid, c, n)) ==
            s.(jobs := map[Job(seen.row, seen.stamp) := s.now + SCRAP_COUNTER_DEBOUNCE_MS], processes := s.processes - {pid})
  {
  }

  lemma TimePasses(s: State, to: int)
    requires s.now <= to
    ensures Enabled(s, Tick(to)) && Next(s, Tick(to)) == s.(now := to)
  {
  }

  lemma CreationInserts(user: int, item: Item) returns (events: seq<Event>)
    ensures ValidRun(INITIAL, events) && forall e | e in events :: !e.Crash?
    ensures Run(INITIAL, events) == State(0, map[1 := NewRow(user, item, 1, 0)], map[], {}, map[0 := Schedule(Seen(1, true, false, 1))])
  {
    var find := FindActive(user, item);
    RequestStarts(INITIAL, 0, find);
    var s1 := At(INITIAL, 0, find);
    NothingFound(s1, 0, user, item, 1, 1);
    var s2 := At(s1, 0, FindInactive(user, item));
    NothingFound(s2, 0, user, item, 1, 1);
    var s3 := At(s2, 0, Insert(user, item));
    NothingFound(s3, 0, user, item, 1, 1);
    hide Enabled, Next;
    events := FourSteps(INITIAL, Request(0, find), Query(0, 1, 1), Query(0, 1, 1), Query(0, 1, 1));
  }

  /** Creating a scrap and waiting for the debounce time leaves its row waiting to be counted. */
  lemma CreationWaits(user: int, item: Item) returns (events: seq<Event>)
    ensures ValidRun(INITIAL, events) && Waiting(Run(INITIAL, events), 1)
    ensures forall e | e in events :: !e.Crash?
  {
    hide Enabled, Next, Run, ValidRun;
    var opening := CreationInserts(user, item);
    var s4 := Run(INITIAL, opening);
    JobEnqueued(s4, 0, Seen(1, true, false, 1), 1, 2);
    var s5 := Next(s4, Query(0, 1, 2));
    TimePasses(s5, SCRAP_COUNTER_DEBOUNCE_MS);
    var closing := TwoSteps(s4, Query(0, 1, 2), Tick(SCRAP_COUNTER_DEBOUNCE_MS));
    RunConcat(INITIAL, opening, closing);
    events := opening + closing;
  }

  /** Both losses happen from the empty tables: one without any death, one without any stale reading. */
  lemma SettlementsAreLost(user: int, item: Item) returns (stale: seq<Event>, dead: seq<Event>)
    ensures ValidRun(INITIAL, stale) && Lost(Run(INITIAL, stale), 1) && forall e | e in stale :: !e.Crash?
    ensures ValidRun(INITIAL, dead) && Lost(Run(INITIAL, dead), 1)
  {
    hide Enabled, Next, Run, ValidRun;
    var creation := CreationWaits(user, item);
    var s := Run(INITIAL, creation);
    var deletion := StaleDeletionLosesSettlement(s, 1);
    RunConcat(INITIAL, creation, deletion);
    stale := creation + deletion;
    var settling := JobSettles(s, 1, Greatest(s.rows.Keys) + 1);
    RunConcat(INITIAL, creation, settling);
    var death := DeadDeletionLosesSettlement(Run(s, settling), 1);
    RunConcat(INITIAL, creation + settling, death);
    dead := creation + settling + death;
  }
}
