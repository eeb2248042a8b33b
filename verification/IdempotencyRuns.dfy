/**
 Concrete runs of the idempotency protocol, each from empty keys: the bound on repeated runs is reached
 for every number of requests that missed the cache, and a slow handler meets a second one.
 */
module IdempotencyRuns {
  import opened Common
  import opened Idempotency

  const EMPTY := State(World(Redis(0, map[], map[], map[]), History({}, {}, map[], map[], map[])), map[], 0)

  lemma {:induction false} Append(s: State, events: seq<Event>, e: Event)
    requires ValidRun(s, events) && Enabled(Run(s, events), e)
    ensures ValidRun(s, events + [e]) && Run(s, events + [e]) == Next(Run(s, events), e)
    ensures TimelyRun(s, events) && Timely(Next(Run(s, events), e)) ==> TimelyRun(s, events + [e])
    decreases |events|
  {
    hide Enabled, Next, Timely;
    if events == [] {
      assert events + [e] == [e] && ValidRun(Next(s, e), []) && Run(Next(s, e), []) == Next(s, e);
      assert Timely(Next(s, e)) ==> TimelyRun(Next(s, e), []);
    } else {
      Append(Next(s, events[0]), events[1..], e);
      assert (events + [e])[1..] == events[1..] + [e];
    }
  }

  lemma {:induction false} Concat(s: State, a: seq<Event>, b: seq<Event>)
    requires TimelyRun(s, a) && ValidRun(s, a) && TimelyRun(Run(s, a), b) && ValidRun(Run(s, a), b)
    ensures TimelyRun(s, a + b) && ValidRun(s, a + b) && Run(s, a + b) == Run(Run(s, a), b)
    decreases |a|
  {
    hide Enabled, Next, Timely;
    if a == [] {
      assert a + b == b;
    } else {
      Concat(Next(s, a[0]), a[1..], b);
      assert (a + b)[1..] == a[1..] + b;
    }
  }

  lemma NoMore(s: State)
    requires Timely(s)
    ensures ValidRun(s, []) && TimelyRun(s, []) && Run(s, []) == s
  {
  }

  // ---- Requests that missed the cache wait for their turn ----

  predicate Between(pid: int, a: int, n: int) {
    a <= pid < n
  }

  function Range(a: int, n: int): set<int> {
    set pid | a <= pid < n && Between(pid, a, n)
  }

  function MissedFrom(ns: Namespace, body: int, a: int, n: int): map<int, Process> {
    map pid | pid in Range(a, n) :: Missed(ns, body)
  }

  /** The first `a` of n requests have been served, the others have missed the cache and hold nothing. */
  predicate Queued(s: State, ns: Namespace, body: int, a: nat, n: nat) {
    var r, h := s.w.redis, s.w.history;
    && s.processes == MissedFrom(ns, body, a, n) && s.nextPid == n
    && r.now == 0 && ns !in r.locks && LiveCount(r, ns.principal) == a
    && Tally(h.published, ns) == a && Tally(h.started, ns) == a
  }

  lemma OneMoreMisses(s: State, ns: Namespace, body: int, n: nat)
    requires Queued(s, ns, body, 0, n) && s.w.redis.records == map[]
    ensures var request, step := Request(ns, body), Step(n, None);
            && Enabled(Next(s, request), step) && Timely(Next(s, request)) && Timely(Next(Next(s, request), step))
            && Queued(Next(Next(s, request), step), ns, body, 0, n + 1)
            && Next(Next(s, request), step).w.redis.records == map[]
  {
    assert MissedFrom(ns, body, 0, n)[n := Missed(ns, body)] == MissedFrom(ns, body, 0, n + 1);
  }

  lemma {:induction false} AllMiss(ns: Namespace, body: int, n: nat) returns (events: seq<Event>)
    ensures ValidRun(EMPTY, events) && TimelyRun(EMPTY, events)
    ensures Queued(Run(EMPTY, events), ns, body, 0, n) && Run(EMPTY, events).w.redis.records == map[]
  {
    if n == 0 {
      events := [];
      NoMore(EMPTY);
    } else {
      hide Next, Timely, Run, ValidRun, TimelyRun, Queued;
      events := AllMiss(ns, body, n - 1);
      OneMoreMisses(Run(EMPTY, events), ns, body, n - 1);
      RequestsAlways(Run(EMPTY, events), ns, body);
      Append(EMPTY, events, Request(ns, body));
      Append(EMPTY, events + [Request(ns, body)], Step(n - 1, None));
      events := events + [Request(ns, body)] + [Step(n - 1, None)];
    }
  }

  lemma RequestsAlways(s: State, ns: Namespace, body: int)
    ensures Enabled(s, Request(ns, body))
  {
  }

  // ---- One turn ----

  /** Request a has the lock and its handler has returned; the others are as before. */
  predicate Served(s: State, ns: Namespace, body: int, a: nat, n: nat) {
    var r, h := s.w.redis, s.w.history;
    && a < n && s.processes == MissedFrom(ns, body, a, n)[a := Publishing(ns, body, LOCK_TTL_MS, a)] && s.nextPid == n
    && r.now == 0 && LiveCount(r, ns.principal) == a + 1
    && Tally(h.published, ns) == a && Tally(h.started, ns) == a + 1
  }

  lemma TakesLock(s: State, ns: Namespace, body: int, a: nat, n: nat)
    requires Queued(s, ns, body, a, n) && a < n
    ensures Enabled(s, Step(a, None)) && Timely(s)
    ensures var r := s.w.redis;
            Next(s, Step(a, None)) == State(
              s.w.(redis := r.(locks := r.locks[ns := LOCK_TTL_MS])),
              s.processes[a := Locked(ns, body, LOCK_TTL_MS)], n)
  {
  }

  lemma Starts(s: State, ns: Namespace, body: int, a: nat, n: nat)
    requires Queued(s, ns, body, a, n) && a < n && a < MAX_NEW_KEYS_PER_HOUR
    ensures var s1 := Next(s, Step(a, None));
            var s2 := Next(s1, Step(a, None));
            && Timely(s1) && Timely(s2)
            && s2.processes == s.processes[a := Running(ns, body, LOCK_TTL_MS)] && s2.nextPid == n
            && s2.w.redis.now == 0 && LiveCount(s2.w.redis, ns.principal) == a + 1
            && s2.w.redis.records == s.w.redis.records && s2.w.redis.locks == s.w.redis.locks[ns := LOCK_TTL_MS]
            && Tally(s2.w.history.published, ns) == a && Tally(s2.w.history.started, ns) == a + 1
  {
    TakesLock(s, ns, body, a, n);
    hide LiveRecord, LockLive, Replayed;
  }

  lemma TurnStarts(s: State, ns: Namespace, body: int, a: nat, n: nat) returns (events: seq<Event>)
    requires Queued(s, ns, body, a, n) && a < n && a < MAX_NEW_KEYS_PER_HOUR
    ensures ValidRun(s, events) && TimelyRun(s, events) && Served(Run(s, events), ns, body, a, n)
  {
    var step, answered := Step(a, None), Step(a, Some(a));
    TakesLock(s, ns, body, a, n);
    Starts(s, ns, body, a, n);
    var s2 := Next(Next(s, step), step);
    HandlerReturned(s2, ns, body, a, n);
    NoMore(s);
    hide Run, ValidRun, TimelyRun, After, Timely, Queued, Served;
    Append(s, [], step);
    Append(s, [] + [step], step);
    Append(s, [] + [step] + [step], answered);
    events := [] + [step] + [step] + [answered];
  }

  lemma HandlerReturned(s: State, ns: Namespace, body: int, a: nat, n: nat)
    requires a < n && s.processes == MissedFrom(ns, body, a, n)[a := Running(ns, body, LOCK_TTL_MS)] && s.nextPid == n
    requires s.w.redis.now == 0 && LiveCount(s.w.redis, ns.principal) == a + 1
    requires Tally(s.w.history.published, ns) == a && Tally(s.w.history.started, ns) == a + 1
    ensures Enabled(s, Step(a, Some(a))) && Served(Next(s, Step(a, Some(a))), ns, body, a, n) && Timely(Next(s, Step(a, Some(a))))
  {
  }

  lemma TurnEnds(s: State, ns: Namespace, body: int, a: nat, n: nat)
    requires Served(s, ns, body, a, n)
    ensures var step := Step(a, None);
            var s1 := Next(s, step);
            && Enabled(s1, step) && Timely(s) && Timely(s1) && Timely(Next(s1, step))
            && s1.w.redis.now == 0 && Tally(s1.w.history.started, ns) == a + 1
            && Queued(Next(s1, step), ns, body, a + 1, n)
  {
    var s2 := Next(Next(s, Step(a, None)), Step(a, None));
    assert s2.processes == MissedFrom(ns, body, a + 1, n);
    hide LiveRecord, LockLive, Replayed;
  }

  lemma {:induction false} AllServed(s: State, ns: Namespace, body: int, a: nat, n: nat) returns (events: seq<Event>)
    requires Queued(s, ns, body, a, n) && a <= n <= MAX_NEW_KEYS_PER_HOUR
    ensures ValidRun(s, events) && TimelyRun(s, events) && Queued(Run(s, events), ns, body, n, n)
    decreases n - a
  {
    if a == n {
      events := [];
      NoMore(s) by { assert s.processes == map[]; }
    } else {
      var turn := TurnStarts(s, ns, body, a, n);
      var s3 := Run(s, turn);
      TurnEnds(s3, ns, body, a, n);
      hide Next, Run, ValidRun, TimelyRun, Timely, Queued, Served;
      assert Enabled(s3, Step(a, None)) by { PublisherSteps(s3, ns, body, a, n); }
      Append(s, turn, Step(a, None));
      Append(s, turn + [Step(a, None)], Step(a, None));
      turn := turn + [Step(a, None)] + [Step(a, None)];
      var rest := AllServed(Run(s, turn), ns, body, a + 1, n);
      Concat(s, turn, rest);
      events := turn + rest;
    }
  }

  lemma PublisherSteps(s: State, ns: Namespace, body: int, a: nat, n: nat)
    requires Served(s, ns, body, a, n)
    ensures Enabled(s, Step(a, None)) && a in s.processes && s.processes[a].Publishing? && s.processes[a].ns == ns
  {
  }

  lemma {:induction false} RangeSize(a: int, n: int)
    requires a <= n
    ensures |Range(a, n)| == n - a
    decreases n - a
  {
    if a < n {
      RangeSize(a, n - 1);
      assert Range(a, n) == Range(a, n - 1) + {n - 1};
    } else {
      assert Range(a, n) == {};
    }
  }

  /** At the first publication, all the other requests have missed. */
  lemma OthersMissed(s: State, ns: Namespace, body: int, k: nat)
    requires Served(s, ns, body, 0, k + 1)
    ensures |Matching(s.processes, HasMissed(ns))| == k
  {
    RangeSize(1, k + 1);
    assert Matching(s.processes, HasMissed(ns)) == Range(1, k + 1);
  }

  /**
   The bound of RunsWhileCached is reached: for every k below the quota, some timely run from empty keys
   has k requests missed when the first success is published, and each of them starts its handler and
   publishes once more, while no time passes.
   */
  lemma RunsWhileCachedIsReached(ns: Namespace, body: int, k: nat) returns (before: seq<Event>, after: seq<Event>)
    requires k < MAX_NEW_KEYS_PER_HOUR
    ensures Start(EMPTY) && ValidRun(EMPTY, before) && TimelyRun(EMPTY, before)
    ensures var s := Run(EMPTY, before);
            && 0 in s.processes && s.processes[0].Publishing? && s.processes[0].ns == ns
            && Tally(s.w.history.published, ns) == 0 && |Matching(s.processes, HasMissed(ns))| == k
            && Enabled(s, Step(0, None))
            && var s' := Next(s, Step(0, None));
            && ValidRun(s', after) && TimelyRun(s', after)
            && var end := Run(s', after);
            && end.w.redis.now == s.w.redis.now
            && Tally(end.w.history.published, ns) == 1 + k
            && Tally(end.w.history.started, ns) == Tally(s.w.history.started, ns) + k
  {
    var n, step := k + 1, Step(0, None);
    var misses := AllMiss(ns, body, n);
    var s0 := Run(EMPTY, misses);
    var turn := TurnStarts(s0, ns, body, 0, n);
    var s := Run(s0, turn);
    hide Next, Timely, Run, ValidRun, TimelyRun;
    Concat(EMPTY, misses, turn);
    before := misses + turn;
    PublisherSteps(s, ns, body, 0, n);
    OthersMissed(s, ns, body, k);
    TurnEnds(s, ns, body, 0, n);
    var s' := Next(s, step);
    NoMore(s');
    Append(s', [], step);
    var rest := AllServed(Run(s', [] + [step]), ns, body, 1, n);
    Concat(s', [] + [step], rest);
    after := [] + [step] + rest;
  }

  // ---- A handler that outlives its lock ----

  /** Two requests miss the cache, one starts, its lock lapses, and the other starts beside it. */
  lemma TwoHandlersAtOnce(ns: Namespace, body: int) returns (events: seq<Event>)
    ensures Start(EMPTY) && ValidRun(EMPTY, events)
    ensures var ps := Run(EMPTY, events).processes;
            0 in ps && 1 in ps && ps[0].Running? && ps[1].Running? && ps[0].ns == ps[1].ns == ns
  {
    var step, tick := Step(0, None), Tick(LOCK_TTL_MS + 1);
    events := AllMiss(ns, body, 2);
    var s := Run(EMPTY, events);
    TakesLock(s, ns, body, 0, 2);
    Starts(s, ns, body, 0, 2);
    var s2 := Next(Next(s, step), step);
    LockLapses(s2, ns, body);
    var s3 := Next(s2, tick);
    SlowHandlerLetsAnotherIn(s3, 0, 1);
    MissedRequestStillRuns(s3, 1);
    Unrolled(s3, Step(1, None));
    assert Enabled(Next(s, step), step) by { hide After; assert 0 in Next(s, step).processes; }
    hide Next, Run, ValidRun, TimelyRun, Timely, Enabled, Queued;
    Append(EMPTY, events, step);
    Append(EMPTY, events + [step], step);
    Append(EMPTY, events + [step] + [step], tick);
    Append(EMPTY, events + [step] + [step] + [tick], Step(1, None));
    Append(EMPTY, events + [step] + [step] + [tick] + [Step(1, None)], Step(1, None));
    events := events + [step] + [step] + [tick] + [Step(1, None)] + [Step(1, None)];
  }

  lemma Unrolled(s: State, e: Event)
    requires ValidRun(s, [e, e])
    ensures Enabled(s, e) && Enabled(Next(s, e), e) && Run(s, [e, e]) == Next(Next(s, e), e)
  {
    assert [e, e][1..] == [e] && [e][1..] == [];
    assert Run(Next(Next(s, e), e), []) == Next(Next(s, e), e);
  }

  lemma LockLapses(s: State, ns: Namespace, body: int)
    requires s.processes == MissedFrom(ns, body, 0, 2)[0 := Running(ns, body, LOCK_TTL_MS)]
    requires s.w.redis.now == 0 && ns in s.w.redis.locks && s.w.redis.locks[ns] == LOCK_TTL_MS
    requires LiveCount(s.w.redis, ns.principal) == 1
    ensures var s' := Next(s, Tick(LOCK_TTL_MS + 1));
            && Enabled(s, Tick(LOCK_TTL_MS + 1)) && !LockLive(s'.w.redis, ns)
            && s'.processes == s.processes && s'.processes[1] == Missed(ns, body)
            && LiveCount(s'.w.redis, ns.principal) < MAX_NEW_KEYS_PER_HOUR
  {
  }

  // ---- A key too many ----

  /** A request alone that is over the quota is counted, runs nothing, caches nothing and gives its lock up. */
  lemma RefusedIsARun(s: State, ns: Namespace, body: int) returns (events: seq<Event>)
    requires s.processes == map[]
    requires LiveRecord(s.w.redis, ns).None? && !LockLive(s.w.redis, ns)
    requires LiveCount(s.w.redis, ns.principal) >= 300
    ensures ValidRun(s, events) && TimelyRun(s, events) && Run(s, events).processes == map[]
    ensures Run(s, events).w.redis == Returned(Taken(s.w.redis, ns, 0), ns, body, None)
    ensures Run(s, events).w.history == s.w.history
  {
    var s3, step := Alone(s, ns, body), Step(s.nextPid, None);
    RefusedSteps(s, ns, body);
    var s4 := Next(s3, step);
    var s5 := Next(s4, step);
    NoMore(s5);
    hide Next, Timely, Run, ValidRun, TimelyRun, Enabled, Returned, Taken;
    Prepend(s4, step, []);
    Prepend(s3, step, [step] + []);
    events := LockIsTaken(s, ns, body, [step] + ([step] + []));
  }

  lemma RefusedSteps(s: State, ns: Namespace, body: int)
    requires LiveCount(s.w.redis, ns.principal) >= 300
    ensures var s3, step := Alone(s, ns, body), Step(s.nextPid, None);
            var s4 := Next(s3, step);
            var s5 := Next(s4, step);
            && Timely(s3) && Timely(s4) && Timely(s5) && Enabled(s3, step) && Enabled(s4, step)
            && s5.processes == map[] && s5.w.history == s.w.history
            && s5.w.redis == Returned(Taken(s.w.redis, ns, 0), ns, body, None)
  {
    hide LiveRecord, LockLive, Replayed, Tally;
    CountedKeepsLocks(s.w.redis, ns.principal, s.w.redis.locks[ns := s.w.redis.now + LOCK_TTL_MS]);
    hide Counted;
  }

  // ---- A request that waits ----

  lemma LooksAgain(s: State, pid: int, deadline: nat)
    requires pid in s.processes && s.processes[pid].Checking? && s.processes[pid].deadline == deadline
    requires s.w.redis.now < deadline && LiveRecord(s.w.redis, s.processes[pid].ns).None?
    ensures var step, tick := Step(pid, None), Tick(100);
            var s1 := Next(s, step);
            var s2 := Next(s1, tick);
            && Enabled(s, step) && Enabled(s1, tick) && Enabled(s2, step)
            && Next(s2, step) == State(s.w.(redis := s.w.redis.(now := s.w.redis.now + 100)), s.processes, s.nextPid)
            && LiveRecord(Next(s2, step).w.redis, s.processes[pid].ns).None?
  {
    var s3 := Next(Next(Next(s, Step(pid, None)), Tick(100)), Step(pid, None));
    assert s3.processes == s.processes;
    hide Replayed, LockLive;
  }

  lemma {:induction false} LooksOn(s: State, pid: int, n: nat) returns (events: seq<Event>)
    requires pid in s.processes && s.processes[pid].Checking? && LiveRecord(s.w.redis, s.processes[pid].ns).None?
    requires s.processes[pid].deadline == s.w.redis.now + 100 * n
    ensures ValidRun(s, events)
    ensures Run(s, events) == State(s.w.(redis := s.w.redis.(now := s.w.redis.now + 100 * n)), s.processes, s.nextPid)
    decreases n
  {
    if n == 0 {
      events := [];
    } else {
      var step, tick, deadline := Step(pid, None), Tick(100), s.processes[pid].deadline;
      LooksAgain(s, pid, deadline);
      var s3 := Next(Next(Next(s, step), tick), step);
      hide Enabled, Next;
      var rest := LooksOn(s3, pid, n - 1);
      Prepend(Next(Next(s, step), tick), step, rest);
      Prepend(Next(s, step), tick, [step] + rest);
      Prepend(s, step, [tick] + ([step] + rest));
      events := [step] + ([tick] + ([step] + rest));
    }
  }

  /** A request that finds the lock taken and never sees a result looks a hundred times and gives up after ten seconds. */
  lemma PollerGivesUp(s: State, pid: int) returns (events: seq<Event>)
    requires pid in s.processes && s.processes[pid].Missed? && LockLive(s.w.redis, s.processes[pid].ns)
    requires LiveRecord(s.w.redis, s.processes[pid].ns).None?
    ensures ValidRun(s, events)
    ensures Run(s, events) == State(s.w.(redis := s.w.redis.(now := s.w.redis.now + 10_000)), s.processes - {pid}, s.nextPid)
  {
    var step, p := Step(pid, None), s.processes[pid];
    var s1 := Next(s, step);
    assert s1 == s.(processes := s.processes[pid := Checking(p.ns, p.body, s.w.redis.now + 10_000)]);
    var looks := LooksOn(s1, pid, 100);
    var s2 := Run(s1, looks);
    GivesUp(s2, pid);
    hide Next, Run, ValidRun, Enabled;
    Append(s1, looks, step);
    assert Enabled(s, step) by { PollSteps(s, pid); }
    Prepend(s, step, looks + [step]);
    events := [step] + (looks + [step]);
    assert s1.processes - {pid} == s.processes - {pid};
  }

  lemma PollSteps(s: State, pid: int)
    requires pid in s.processes && !s.processes[pid].Waiting?
    ensures Enabled(s, Step(pid, None))
  {
  }

  lemma GivesUp(s: State, pid: int)
    requires pid in s.processes && s.processes[pid].Checking? && s.processes[pid].deadline <= s.w.redis.now
    ensures Enabled(s, Step(pid, None)) && Next(s, Step(pid, None)) == s.(processes := s.processes - {pid})
  {
  }
}
