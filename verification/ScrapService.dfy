/**
 The same rows and queue as the service and the job processor use them when each request or job
 runs without interruption: statement by statement, over tables updated in place.
 */
module ScrapService {
  import opened Common
  import opened Scraps

  ghost predicate AllPending(s: State) {
    forall id | id in s.rows && s.rows[id].isActive != s.rows[id].countedIsActive ::
      Job(id, s.rows[id].lastStateChangedAt) in s.jobs
  }

  class ScrapService {
    var now: int
    var rows: map<int, Row>
    var jobs: map<Job, int>
    var finished: set<Job>

    ghost function Contents(): State
      reads this
    {
      State(now, rows, jobs, finished, map[])
    }

    /** What interleaved runs keep, and every unsettled row has its job waiting. */
    ghost predicate Valid()
      reads this
    {
      Inv(Contents()) && OneActive(rows) && AllPending(Contents())
    }

    constructor ()
      ensures Valid() && rows == map[] && jobs == map[]
    {
      now, rows, jobs, finished := 0, map[], map[], {};
    }

    method ScheduleScrapCounterSettlement(seen: Seen)
      modifies this`jobs
      ensures jobs == Enqueued(old(Contents()), seen)
      ensures forall job | job in old(jobs) :: job in jobs && jobs[job] == old(jobs)[job]
      ensures forall job | job in jobs && job !in old(jobs) ::
                job == Job(seen.row, seen.stamp) && job !in finished && jobs[job] == now + SCRAP_COUNTER_DEBOUNCE_MS
      ensures seen.isActive != seen.countedIsActive ==> Job(seen.row, seen.stamp) in jobs || Job(seen.row, seen.stamp) in finished
    {
      if seen.isActive == seen.countedIsActive {
        return;
      }
      var job := Job(seen.row, seen.stamp);
      if job !in jobs && job !in finished {
        jobs := jobs[job := now + SCRAP_COUNTER_DEBOUNCE_MS];
      }
    }

    /** Turns the item's row on, making one if there is none. Whatever happens, the item ends up with an active row. */
    method CreateScrap(user: int, item: Item, clock: int, newRow: int) returns (id: int)
      requires Valid() && newRow !in rows && forall r | r in rows :: rows[r].lastStateChangedAt < clock
      modifies this`rows, this`jobs
      ensures Valid() && Matches(rows, id, user, item, true)
      ensures rows == if id !in old(rows) then old(rows)[id := NewRow(user, item, clock, now)]
                      else if old(rows)[id].isActive then old(rows) else old(rows)[id := Flipped(old(rows)[id], true, clock, now)]
      ensures id !in old(rows) ==> id == newRow && forall r | r in old(rows) :: old(rows)[r].user != user || old(rows)[r].item != item
    {
      if active :| active in rows && Matches(rows, active, user, item, true) {
        id := active;
        NothingToEnqueue(Contents(), id);
        ScheduleScrapCounterSettlement(SeenOf(id, rows[id]));
        return;
      }
      if inactive :| inactive in rows && Matches(rows, inactive, user, item, false) {
        id := inactive;
        rows := rows[id := Flipped(rows[id], true, clock, now)];
      } else {
        id := newRow;
        rows := rows[id := NewRow(user, item, clock, now)];
      }
      ScheduledFlipKeepsInv(old(Contents()), id, rows[id]);
      hide Inv, AllPending;
      ScheduleScrapCounterSettlement(SeenOf(id, rows[id]));
    }

    /** Turns a user's row off. Someone else's row, or none, is not found and nothing changes. */
    method DeleteScrap(user: int, id: int, clock: int) returns (found: bool)
      requires Valid() && forall r | r in rows :: rows[r].lastStateChangedAt < clock
      modifies this`rows, this`jobs
      ensures Valid()
      ensures found <==> id in old(rows) && old(rows)[id].user == user
      ensures rows == if found && old(rows)[id].isActive then old(rows)[id := Flipped(old(rows)[id], false, clock, now)] else old(rows)
      ensures !found ==> jobs == old(jobs)
    {
      if id !in rows || rows[id].user != user {
        return false;
      }
      var scrap := rows[id];
      if scrap.isActive {
        rows := rows[id := Flipped(scrap, false, clock, now)];
        ScheduledFlipKeepsInv(old(Contents()), id, rows[id]);
        ScheduleScrapCounterSettlement(Seen(id, false, scrap.countedIsActive, clock));
      } else {
        NothingToEnqueue(Contents(), id);
        ScheduleScrapCounterSettlement(SeenOf(id, scrap));
      }
      return true;
    }

    /** One delivery of a due job: it counts the row's state if that is uncounted and still the one the job was made for. */
    method SettleScrapStateCount(job: Job)
      requires Valid() && job in jobs && jobs[job] <= now
      modifies this`rows, this`jobs, this`finished
      ensures Valid() && jobs == old(jobs) - {job}
      ensures rows == if job.row in old(rows) && Current(old(Contents()), job.row, job.stamp)
                         && old(rows)[job.row].isActive != old(rows)[job.row].countedIsActive
                      then old(rows)[job.row := Settled(old(rows)[job.row])] else old(rows)
    {
      SettlingKeepsInv(Contents(), job);
      hide Inv, AllPending;
      if job.row in rows && rows[job.row].isActive != rows[job.row].countedIsActive {
        var isActive, counted := rows[job.row].isActive, rows[job.row].countedIsActive;
        if Settles(rows[job.row], job, isActive, counted) {
          rows := rows[job.row := Settled(rows[job.row])];
        }
      }
      jobs := jobs - {job};
      finished := finished + {job};
    }
  }

  /** A state change followed by its scheduling keeps everything. */
  lemma ScheduledFlipKeepsInv(s: State, id: int, r: Row)
    requires Inv(s) && s.processes == map[] && AllPending(s) && r.changedAt == s.now
    requires if id in s.rows then s.rows[id].lastStateChangedAt < r.lastStateChangedAt && SameCounters(s.rows[id], r)
             else SameCounters(NewRow(0, Card(0), 0, 0), r)
    ensures var s1 := s.(rows := s.rows[id := r]);
            var s2 := s1.(jobs := Enqueued(s1, SeenOf(id, r)));
            Inv(s2) && AllPending(s2)
  {
    var s1 := s.(rows := s.rows[id := r]);
    assert Evolves(s, s1);
    KnowledgeSurvives(s, s1);
    assert forall job | job in s.jobs || job in s.finished :: job != Job(id, r.lastStateChangedAt);
    assert CountersExact(s1.rows);
    hide CountersExact;
  }

  lemma NothingToEnqueue(s: State, id: int)
    requires Inv(s) && s.processes == map[] && AllPending(s) && id in s.rows
    ensures Enqueued(s, SeenOf(id, s.rows[id])) == s.jobs
  {
  }

  lemma SettlingKeepsInv(s: State, job: Job)
    requires Inv(s) && s.processes == map[] && AllPending(s) && job in s.jobs && s.jobs[job] <= s.now
    ensures var due := Current(s, job.row, job.stamp) && s.rows[job.row].isActive != s.rows[job.row].countedIsActive;
            var s1 := if due then s.(rows := s.rows[job.row := Settled(s.rows[job.row])]) else s;
            var s2 := s1.(jobs := s.jobs - {job}, finished := s.finished + {job});
            Inv(s2) && AllPending(s2)
  {
    var due := Current(s, job.row, job.stamp) && s.rows[job.row].isActive != s.rows[job.row].countedIsActive;
    var s1 := if due then s.(rows := s.rows[job.row := Settled(s.rows[job.row])]) else s;
    assert Evolves(s, s1) && CountersExact(s1.rows);
    KnowledgeSurvives(s, s1);
    assert Handled(s1, job);
    hide CountersExact, Handled, Debounced;
  }
}
