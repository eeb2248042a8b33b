/**
 What a whole scrap request or job delivery does when nothing interrupts it, said of the row it is
 about: the queries of Scraps, run to the end.
 */
module ScrapLaws {
  import opened Common
  import opened Scraps
  import opened ScrapRuns

  function QueriesLeft(p: Process): nat {
    match p
    case FindActive(_, _) => 6
    case FindInactive(_, _) => 5
    case FindToDelete(_, _) => 5
    case Activate(_) => 4
    case Insert(_, _) => 4
    case Deactivate(_, _) => 4
    case Reread(_) => 3
    case RereadActive(_, _) => 3
    case SettleRead(_) => 3
    case SettleWrite(_, _, _) => 2
    case Schedule(_) => 1
    case Attempted(_) => 0
  }

  /** The state when a process has made all its queries, undisturbed. */
  ghost function Alone(s: State, pid: int, clock: int, newRow: int): State
    decreases if pid in s.processes then 1 + QueriesLeft(s.processes[pid]) else 0
  {
    if pid !in s.processes || s.processes[pid].Attempted? then s
    else Alone(AfterQuery(s, pid, clock, newRow), pid, clock, newRow)
  }

  /** Running undisturbed is one of the interleavings, if the clock is ahead of the stamps and the new id is free. */
  lemma {:induction false} AloneIsARun(s: State, pid: int, clock: int, newRow: int) returns (events: seq<Event>)
    requires pid in s.processes && s.processes[pid].Insert? ==> newRow !in s.rows
    requires pid in s.processes && !s.processes[pid].Insert? ==>
             newRow !in s.rows || QueriesLeft(s.processes[pid]) < 4
    requires pid in s.processes && QueriesLeft(s.processes[pid]) >= 4 ==> forall id | id in s.rows :: s.rows[id].lastStateChangedAt < clock
    ensures ValidRun(s, events) && Run(s, events) == Alone(s, pid, clock, newRow)
    decreases if pid in s.processes then 1 + QueriesLeft(s.processes[pid]) else 0
  {
    if pid !in s.processes || s.processes[pid].Attempted? {
      events := [];
    } else {
      var n := if s.processes[pid].Insert? then newRow else if s.rows == map[] then newRow else Greatest(s.rows.Keys) + 1;
      OneQuery(s, pid, clock, newRow, n);
      var s' := Next(s, Query(pid, clock, n));
      hide Enabled, Next, AfterQuery, QueriesLeft;
      var rest := AloneIsARun(s', pid, clock, newRow);
      Prepend(s, Query(pid, clock, n), rest);
      events := [Query(pid, clock, n)] + rest;
    }
  }

  lemma Prepend(s: State, e: Event, events: seq<Event>)
    requires Enabled(s, e) && ValidRun(Next(s, e), events)
    ensures ValidRun(s, [e] + events) && Run(s, [e] + events) == Run(Next(s, e), events)
  {
    hide Enabled, Next;
    assert ([e] + events)[1..] == events;
  }

  /** A query other than the insertion does not depend on the id the database would assign. */
  lemma OneQuery(s: State, pid: int, clock: int, newRow: int, n: int)
    requires pid in s.processes && !s.processes[pid].Attempted? && n !in s.rows && (s.processes[pid].Insert? ==> n == newRow)
    requires QueriesLeft(s.processes[pid]) >= 4 ==> newRow !in s.rows && forall id | id in s.rows :: s.rows[id].lastStateChangedAt < clock
    ensures Enabled(s, Query(pid, clock, n))
    ensures var s' := Next(s, Query(pid, clock, n));
            && s' == AfterQuery(s, pid, clock, newRow)
            && (pid in s'.processes ==>
                && QueriesLeft(s'.processes[pid]) < QueriesLeft(s.processes[pid])
                && (QueriesLeft(s'.processes[pid]) >= 4 ==> s'.rows == s.rows))
  {
    hide Matches, Find, ActiveElsewhere, Enqueued, Settles;
  }

  // ---- Creation ----

  /** The same row in a new state since now, under a new stamp. */
  predicate Turned(r: Row, r': Row, active: bool, stamp: int, now: int) {
    && r'.isActive == active && r'.lastStateChangedAt == stamp && r'.changedAt == now
    && r'.user == r.user && r'.item == r.item && r'.countedIsActive == r.countedIsActive
    && r'.addCount == r.addCount && r'.removeCount == r.removeCount
  }

  /** The queue after a decision about a row: its job is added, due in three seconds, if the row is uncounted and the job new. */
  predicate Decided(s: State, s': State, id: int, isActive: bool, counted: bool, stamp: int) {
    s'.jobs == if isActive != counted && Job(id, stamp) !in s.jobs && Job(id, stamp) !in s.finished
               then s.jobs[Job(id, stamp) := s.now + 3_000] else s.jobs
  }

  /** An item that has an active row keeps it: no row changes. */
  lemma CreationFindsActive(s: State, pid: int, user: int, item: Item, clock: int, newRow: int) returns (id: int)
    requires pid in s.processes && s.processes[pid] == FindActive(user, item)
    requires exists x :: Matches(s.rows, x, user, item, true)
    ensures var s' := Alone(s, pid, clock, newRow);
            && Matches(s.rows, id, user, item, true)
            && s'.rows == s.rows && s'.processes == s.processes - {pid} && s'.now == s.now && s'.finished == s.finished
            && Decided(s, s', id, true, s.rows[id].countedIsActive, s.rows[id].lastStateChangedAt)
  {
    hide Enqueued;
    id := Find(s.rows, user, item, true).value;
    var s1 := At(s, pid, Schedule(SeenOf(id, s.rows[id])));
    assert Alone(s, pid, clock, newRow) == Alone(s1, pid, clock, newRow);
    DecisionEnds(s1, pid, clock, newRow);
    assert s1.processes - {pid} == s.processes - {pid};
  }

  lemma DecisionEnds(s: State, pid: int, clock: int, newRow: int)
    requires pid in s.processes && s.processes[pid].Schedule?
    ensures var s', seen := Alone(s, pid, clock, newRow), s.processes[pid].seen;
            && s' == s.(jobs := s'.jobs, processes := s.processes - {pid})
            && Decided(s, s', seen.row, seen.isActive, seen.countedIsActive, seen.stamp)
  {
    hide Matches, Find, ActiveElsewhere;
    var s1 := AfterQuery(s, pid, clock, newRow);
    assert Alone(s1, pid, clock, newRow) == s1;
  }

  /** An item with only inactive rows gets one of them back, with its counters, and no other row changes. */
  lemma CreationReactivates(s: State, pid: int, user: int, item: Item, clock: int, newRow: int) returns (id: int)
    requires pid in s.processes && s.processes[pid] == FindActive(user, item)
    requires (exists x :: Matches(s.rows, x, user, item, false)) && !exists x :: Matches(s.rows, x, user, item, true)
    ensures var s' := Alone(s, pid, clock, newRow);
            && Matches(s.rows, id, user, item, false)
            && s'.rows.Keys == s.rows.Keys && Turned(s.rows[id], s'.rows[id], true, clock, s.now)
            && (forall x | x in s.rows && x != id :: s'.rows[x] == s.rows[x])
            && s'.processes == s.processes - {pid} && s'.now == s.now && s'.finished == s.finished
            && Decided(s, s', id, true, s.rows[id].countedIsActive, clock)
  {
    hide Enqueued;
    id := Find(s.rows, user, item, false).value;
    var s1 := At(s, pid, FindInactive(user, item));
    assert Alone(s, pid, clock, newRow) == Alone(s1, pid, clock, newRow);
    var s2 := At(s, pid, Activate(id));
    assert AfterQuery(s1, pid, clock, newRow) == s2;
    assert Alone(s1, pid, clock, newRow) == Alone(s2, pid, clock, newRow);
    NobodyElse(s.rows, id, user, item);
    ActivationEnds(s2, pid, id, clock, newRow);
    assert s2.processes - {pid} == s.processes - {pid};
  }

  lemma NobodyElse(rows: map<int, Row>, id: int, user: int, item: Item)
    requires Matches(rows, id, user, item, false) && !exists x :: Matches(rows, x, user, item, true)
    ensures !ActiveElsewhere(rows, id)
  {
  }

  lemma ActivationEnds(s: State, pid: int, id: int, clock: int, newRow: int)
    requires pid in s.processes && s.processes[pid] == Activate(id)
    requires id in s.rows && !s.rows[id].isActive && !ActiveElsewhere(s.rows, id)
    ensures var s' := Alone(s, pid, clock, newRow);
            && s'.rows.Keys == s.rows.Keys && Turned(s.rows[id], s'.rows[id], true, clock, s.now)
            && (forall x | x in s.rows && x != id :: s'.rows[x] == s.rows[x])
            && s'.processes == s.processes - {pid} && s'.now == s.now && s'.finished == s.finished
            && Decided(s, s', id, true, s.rows[id].countedIsActive, clock)
  {
    hide Enqueued, Matches, Find, ActiveElsewhere;
    var s1 := At(Change(s, id, Flipped(s.rows[id], true, clock, s.now)), pid, Reread(id));
    assert Alone(s, pid, clock, newRow) == Alone(s1, pid, clock, newRow);
    var s2 := At(s1, pid, Schedule(SeenOf(id, s1.rows[id])));
    assert Alone(s1, pid, clock, newRow) == Alone(s2, pid, clock, newRow);
    DecisionEnds(s2, pid, clock, newRow);
    assert s2.processes - {pid} == s.processes - {pid};
  }

  /** An item without rows gets a new one, active and not yet counted. */
  lemma CreationInserts(s: State, pid: int, user: int, item: Item, clock: int, newRow: int)
    requires pid in s.processes && s.processes[pid] == FindActive(user, item)
    requires (!exists x :: Matches(s.rows, x, user, item, true)) && !exists x :: Matches(s.rows, x, user, item, false)
    ensures var s' := Alone(s, pid, clock, newRow);
            && s'.rows == s.rows[newRow := Row(user, item, true, false, 0, 0, clock, s.now)]
            && s'.processes == s.processes - {pid} && s'.now == s.now && s'.finished == s.finished
            && Decided(s, s', newRow, true, false, clock)
  {
    hide Enqueued;
    assert Find(s.rows, user, item, true).None? && Find(s.rows, user, item, false).None?;
    hide Matches, Find, ActiveElsewhere;
    var s1 := At(s, pid, FindInactive(user, item));
    assert Alone(s, pid, clock, newRow) == Alone(s1, pid, clock, newRow);
    var s2 := At(s, pid, Insert(user, item));
    assert AfterQuery(s1, pid, clock, newRow) == s2;
    assert Alone(s1, pid, clock, newRow) == Alone(s2, pid, clock, newRow);
    var s3 := At(Change(s, newRow, NewRow(user, item, clock, s.now)), pid, Schedule(Seen(newRow, true, false, clock)));
    assert AfterQuery(s2, pid, clock, newRow) == s3;
    assert Alone(s2, pid, clock, newRow) == Alone(s3, pid, clock, newRow);
    DecisionEnds(s3, pid, clock, newRow);
    assert s3.processes - {pid} == s.processes - {pid};
  }

  /** A creation that loses a race against another of the same item changes no row and decides about the winner's. */
  lemma CreationLosesRace(s: State, pid: int, user: int, item: Item, clock: int, newRow: int) returns (id: int)
    requires pid in s.processes && s.processes[pid] == Insert(user, item)
    requires exists x :: Matches(s.rows, x, user, item, true)
    ensures var s' := Alone(s, pid, clock, newRow);
            && Matches(s.rows, id, user, item, true)
            && s'.rows == s.rows && s'.processes == s.processes - {pid}
            && Decided(s, s', id, true, s.rows[id].countedIsActive, s.rows[id].lastStateChangedAt)
  {
    hide Enqueued;
    id := Find(s.rows, user, item, true).value;
    var s1 := At(s, pid, RereadActive(user, item));
    assert Alone(s, pid, clock, newRow) == Alone(s1, pid, clock, newRow);
    var s2 := At(s, pid, Schedule(SeenOf(id, s.rows[id])));
    assert AfterQuery(s1, pid, clock, newRow) == s2;
    assert Alone(s1, pid, clock, newRow) == Alone(s2, pid, clock, newRow);
    DecisionEnds(s2, pid, clock, newRow);
    assert s2.processes - {pid} == s.processes - {pid};
  }

  // ---- Deletion ----

  /** An active row of the user is turned off, with its counters, and no other row changes. */
  lemma DeletionTurnsOff(s: State, pid: int, user: int, id: int, clock: int, newRow: int)
    requires pid in s.processes && s.processes[pid] == FindToDelete(user, id)
    requires id in s.rows && s.rows[id].user == user && s.rows[id].isActive
    ensures var s' := Alone(s, pid, clock, newRow);
            && s'.rows.Keys == s.rows.Keys && Turned(s.rows[id], s'.rows[id], false, clock, s.now)
            && (forall x | x in s.rows && x != id :: s'.rows[x] == s.rows[x])
            && s'.processes == s.processes - {pid} && s'.now == s.now && s'.finished == s.finished
            && Decided(s, s', id, false, s.rows[id].countedIsActive, clock)
  {
    hide Enqueued, Matches, Find, ActiveElsewhere;
    var s1 := At(s, pid, Deactivate(id, s.rows[id].countedIsActive));
    assert Alone(s, pid, clock, newRow) == Alone(s1, pid, clock, newRow);
    var s2 := At(Change(s, id, Flipped(s.rows[id], false, clock, s.now)), pid, Schedule(Seen(id, false, s.rows[id].countedIsActive, clock)));
    assert AfterQuery(s1, pid, clock, newRow) == s2;
    assert Alone(s1, pid, clock, newRow) == Alone(s2, pid, clock, newRow);
    DecisionEnds(s2, pid, clock, newRow);
    assert s2.processes - {pid} == s.processes - {pid};
  }

  /** Any other deletion changes no row: a row already off is only scheduled, and a row not the user's, or none, is not found. */
  lemma DeletionLeavesRows(s: State, pid: int, user: int, id: int, clock: int, newRow: int)
    requires pid in s.processes && s.processes[pid] == FindToDelete(user, id)
    requires id in s.rows && s.rows[id].user == user ==> !s.rows[id].isActive
    ensures var s' := Alone(s, pid, clock, newRow);
            && s'.rows == s.rows && s'.processes == s.processes - {pid} && s'.now == s.now && s'.finished == s.finished
            && (if id in s.rows && s.rows[id].user == user
                then Decided(s, s', id, false, s.rows[id].countedIsActive, s.rows[id].lastStateChangedAt) else s'.jobs == s.jobs)
  {
    hide Enqueued, Matches, Find, ActiveElsewhere;
    if id in s.rows && s.rows[id].user == user {
      var s1 := At(s, pid, Schedule(SeenOf(id, s.rows[id])));
      assert Alone(s, pid, clock, newRow) == Alone(s1, pid, clock, newRow);
      DecisionEnds(s1, pid, clock, newRow);
      assert s1.processes - {pid} == s.processes - {pid};
    } else {
      var s1 := s.(processes := s.processes - {pid});
      assert Alone(s, pid, clock, newRow) == Alone(s1, pid, clock, newRow);
    }
  }

  // ---- Settlement ----

  /** A delivery counts its row if it is uncounted and still the one the job was made for: an add if it is on, a removal if it is off. */
  lemma SettlementCounts(s: State, pid: int, job: Job, clock: int, newRow: int)
    requires pid in s.processes && s.processes[pid] == SettleRead(job)
    ensures var s' := Alone(s, pid, clock, newRow);
            && s'.processes == s.processes[pid := Attempted(job)] && s'.now == s.now && s'.jobs == s.jobs && s'.finished == s.finished
            && s'.rows.Keys == s.rows.Keys
            && (forall x | x in s.rows && x != job.row :: s'.rows[x] == s.rows[x])
            && (job.row in s.rows ==>
                var r, r' := s.rows[job.row], s'.rows[job.row];
                if r.isActive != r.countedIsActive && r.lastStateChangedAt == job.stamp
                then r' == Row(r.user, r.item, r.isActive, r.isActive, r.addCount + (if r.isActive then 1 else 0),
                               r.removeCount + (if r.isActive then 0 else 1), r.lastStateChangedAt, r.changedAt)
                else r' == r)
  {
    hide Enqueued, Matches, Find, ActiveElsewhere;
    var s1 := AfterQuery(s, pid, clock, newRow);
    assert Alone(s, pid, clock, newRow) == Alone(s1, pid, clock, newRow);
    if s1.processes[pid].SettleWrite? {
      var s2 := AfterQuery(s1, pid, clock, newRow);
      assert Alone(s1, pid, clock, newRow) == Alone(s2, pid, clock, newRow) == s2;
    }
  }
}
