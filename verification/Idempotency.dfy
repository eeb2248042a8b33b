/**
 The idempotency interceptor: requests that carry a key share a record of the first successful
 response, a lock around the handler, and a quota of new keys for each principal. Every Redis command
 is one step, and requests interleave freely. A key of Redis is live up to and including its expiry.
 */
module Idempotency {
  import opened Common

  const TTL_MS: nat := 3_600_000
  const QUOTA_TTL_MS: nat := 3_600_000
  const MAX_NEW_KEYS_PER_HOUR: nat := 300
  const LOCK_TTL_MS: nat := 30_000
  const LOCK_POLL_INTERVAL_MS: nat := 100
  const LOCK_MAX_WAIT_MS: nat := 10_000

  /** Method, path and principal of a request, and its key; `route` stands for all but the principal. */
  datatype Namespace = Namespace(principal: int, route: int)

  /** A cached success; the bodies are known by their hashes. */
  datatype Record = Record(body: int, response: int, expiry: nat)

  datatype Counter = Counter(count: nat, expiry: nat)

  datatype Redis = Redis(
    now: nat,
    records: map<Namespace, Record>,
    locks: map<Namespace, nat>,
    quotas: map<int, Counter>)

  /** What a handler returned, and for which body. */
  datatype Response = Response(ns: Namespace, body: int, response: int)

  /** For the statements below only: successes of handlers, replies from the cache, and counts of both kinds of run. */
  datatype History = History(
    produced: set<Response>,
    replayed: set<Response>,
    started: map<Namespace, nat>,
    published: map<Namespace, nat>,
    admitted: map<int, nat>)

  datatype World = World(redis: Redis, history: History)

  /** A request, by the step it takes next; the holder of a lock knows until when it is live. */
  datatype Process =
    | Arrived(ns: Namespace, body: int)
    | Missed(ns: Namespace, body: int)
    | Locked(ns: Namespace, body: int, until: nat)
    | Running(ns: Namespace, body: int, until: nat)
    | Publishing(ns: Namespace, body: int, until: nat, response: int)
    | Releasing(ns: Namespace, body: int, until: nat)
    | Checking(ns: Namespace, body: int, deadline: nat)
    | Waiting(ns: Namespace, body: int, deadline: nat, wake: nat)

  datatype State = State(w: World, processes: map<int, Process>, nextPid: int)

  datatype Event =
    | Request(ns: Namespace, body: int)
    | Step(pid: int, outcome: Option<int>)
    | Die(pid: int)
    | Tick(ms: nat)

  function LiveRecord(r: Redis, ns: Namespace): Option<Record> {
    if ns in r.records && r.now <= r.records[ns].expiry then Some(r.records[ns]) else None
  }

  predicate LockLive(r: Redis, ns: Namespace) {
    ns in r.locks && r.now <= r.locks[ns]
  }

  function LiveCount(r: Redis, principal: int): nat {
    if principal in r.quotas && r.now <= r.quotas[principal].expiry then r.quotas[principal].count else 0
  }

  /** incrWithTtlOnFirst on the quota counter: the life of the counter starts with its first increment. */
  function Counted(r: Redis, principal: int): Redis {
    var n := LiveCount(r, principal);
    var expiry := if n == 0 then r.now + QUOTA_TTL_MS else r.quotas[principal].expiry;
    r.(quotas := r.quotas[principal := Counter(n + 1, expiry)])
  }

  /** A key is live through the instant of its expiry, and not a millisecond longer. */
  lemma KeysExpire(r: Redis, ns: Namespace, record: Record, lock: nat, quota: Counter)
    requires ns in r.records && r.records[ns] == record && ns in r.locks && r.locks[ns] == lock
    requires ns.principal in r.quotas && r.quotas[ns.principal] == quota
    ensures LiveRecord(r.(now := record.expiry), ns) == Some(record) && LiveRecord(r.(now := record.expiry + 1), ns) == None
    ensures LockLive(r.(now := lock), ns) && !LockLive(r.(now := lock + 1), ns)
    ensures LiveCount(r.(now := quota.expiry), ns.principal) == quota.count
            && LiveCount(r.(now := quota.expiry + 1), ns.principal) == 0
  {
  }

  function Tally<K>(m: map<K, nat>, k: K): nat {
    if k in m then m[k] else 0
  }

  /** A cached record answers a request with the same body and refuses any other. */
  function Replayed(w: World, ns: Namespace, body: int, record: Record): World {
    if record.body == body
    then w.(history := w.history.(replayed := w.history.replayed + {Response(ns, body, record.response)}))
    else w
  }

  /** The holder of the lock counts its key, and starts the handler unless there are too many. */
  function AfterLocked(w: World, p: Process): (World, Option<Process>)
    requires p.Locked?
  {
    var r, h, principal := w.redis, w.history, p.ns.principal;
    var n := LiveCount(r, principal) + 1;
    if n > MAX_NEW_KEYS_PER_HOUR then
      (w.(redis := Counted(r, principal)), Some(Releasing(p.ns, p.body, p.until)))
    else
      (World(Counted(r, principal),
             h.(started := h.started[p.ns := Tally(h.started, p.ns) + 1],
                admitted := h.admitted[principal := (if n == 1 then 0 else Tally(h.admitted, principal)) + 1])),
       Some(Running(p.ns, p.body, p.until)))
  }

  function After(w: World, p: Process, outcome: Option<int>): (World, Option<Process>) {
    var r, h := w.redis, w.history;
    match p
    case Arrived(ns, body) =>
      var cached := LiveRecord(r, ns);
      if cached.Some? then (Replayed(w, ns, body, cached.value), None) else (w, Some(Missed(ns, body)))
    case Missed(ns, body) =>
      if LockLive(r, ns) then (w, Some(Checking(ns, body, r.now + LOCK_MAX_WAIT_MS)))
      else (w.(redis := r.(locks := r.locks[ns := r.now + LOCK_TTL_MS])), Some(Locked(ns, body, r.now + LOCK_TTL_MS)))
    case Locked(_, _, _) => AfterLocked(w, p)
    case Running(ns, body, until) =>
      if outcome.None? then (w, Some(Releasing(ns, body, until)))
      else (w.(history := h.(produced := h.produced + {Response(ns, body, outcome.value)})),
            Some(Publishing(ns, body, until, outcome.value)))
    case Publishing(ns, body, until, response) =>
      (World(r.(records := r.records[ns := Record(body, response, r.now + TTL_MS)]),
             h.(published := h.published[ns := Tally(h.published, ns) + 1])),
       Some(Releasing(ns, body, until)))
    case Releasing(ns, _, _) => (w.(redis := r.(locks := r.locks - {ns})), None)
    case Checking(ns, body, deadline) =>
      (w, if r.now < deadline then Some(Waiting(ns, body, deadline, r.now + LOCK_POLL_INTERVAL_MS)) else None)
    case Waiting(ns, body, deadline, _) =>
      var cached := LiveRecord(r, ns);
      if cached.Some? then (Replayed(w, ns, body, cached.value), None) else (w, Some(Checking(ns, body, deadline)))
  }

  predicate Enabled(s: State, e: Event) {
    match e
    case Step(pid, _) =>
      pid in s.processes && (s.processes[pid].Waiting? ==> s.processes[pid].wake <= s.w.redis.now)
    case Die(pid) => pid in s.processes
    case _ => true
  }

  function Next(s: State, e: Event): State
    requires Enabled(s, e)
  {
    match e
    case Request(ns, body) => s.(processes := s.processes[s.nextPid := Arrived(ns, body)], nextPid := s.nextPid + 1)
    case Step(pid, outcome) =>
      var after := After(s.w, s.processes[pid], outcome);
      State(after.0, Put(s.processes, pid, after.1), s.nextPid)
    case Die(pid) => s.(processes := s.processes - {pid})
    case Tick(ms) => s.(w := s.w.(redis := s.w.redis.(now := s.w.redis.now + ms)))
  }

  predicate ValidRun(s: State, events: seq<Event>)
    decreases |events|
  {
    events == [] || (Enabled(s, events[0]) && ValidRun(Next(s, events[0]), events[1..]))
  }

  function Run(s: State, events: seq<Event>): State
    requires ValidRun(s, events)
    decreases |events|
  {
    if events == [] then s else Run(Next(s, events[0]), events[1..])
  }

  /** A death takes the request and leaves every key, its lock included. */
  lemma DeathLeavesKeys(s: State, pid: int)
    requires Enabled(s, Die(pid))
    ensures var s' := Next(s, Die(pid));
            && pid !in s'.processes && s'.w == s.w
            && (forall q | q in s.processes && q != pid :: q in s'.processes && s'.processes[q] == s.processes[q])
  {
  }

  /** The holder of the lock counts its key, too many or not, and starts its handler exactly within the quota. */
  lemma KeyIsCounted(w: World, p: Process)
    requires p.Locked?
    ensures var (w', next) := After(w, p, None);
            var before, principal := LiveCount(w.redis, p.ns.principal), p.ns.principal;
            && LiveCount(w'.redis, principal) == before + 1
            && (before > 0 ==> w'.redis.quotas[principal].expiry == w.redis.quotas[principal].expiry)
            && (before == 0 ==> w'.redis.quotas[principal].expiry == w.redis.now + 3_600_000)
            && w'.redis.locks == w.redis.locks && w'.redis.records == w.redis.records
            && next == Some(if before < 300 then Running(p.ns, p.body, p.until) else Releasing(p.ns, p.body, p.until))
  {
  }

  // ---- No lock outlives its time to live ----

  predicate HoldsLock(p: Process) {
    p.Locked? || p.Running? || p.Publishing? || p.Releasing?
  }

  ghost predicate Timely(s: State) {
    forall pid | pid in s.processes && HoldsLock(s.processes[pid]) :: s.w.redis.now <= s.processes[pid].until
  }

  ghost predicate TimelyRun(s: State, events: seq<Event>)
    decreases |events|
  {
    Timely(s) && (events == [] || (Enabled(s, events[0]) && TimelyRun(Next(s, events[0]), events[1..])))
  }

  lemma {:induction false} TimelyRunIsValid(s: State, events: seq<Event>)
    requires TimelyRun(s, events)
    ensures ValidRun(s, events) && Timely(Run(s, events))
    decreases |events|
  {
    if events != [] {
      TimelyRunIsValid(Next(s, events[0]), events[1..]);
    }
  }

  ghost predicate Start(s: State) {
    && s.processes == map[] && s.w.history == History({}, {}, map[], map[], map[])
    && s.w.redis.records == map[] && s.w.redis.locks == map[] && s.w.redis.quotas == map[]
  }

  // ---- At most one handler in flight ----

  ghost predicate Exclusive(s: State) {
    && (forall pid | pid in s.processes && HoldsLock(s.processes[pid]) ::
          s.processes[pid].ns in s.w.redis.locks && s.w.redis.locks[s.processes[pid].ns] == s.processes[pid].until)
    && (forall a, b | a in s.processes && b in s.processes && a != b && HoldsLock(s.processes[a]) && HoldsLock(s.processes[b]) ::
          s.processes[a].ns != s.processes[b].ns)
  }

  /** A step takes a free lock, keeps the lock it holds, gives it up, or touches none. */
  lemma LocksAfter(w: World, p: Process, outcome: Option<int>)
    ensures var (w', next) := After(w, p, outcome);
            && (next.Some? ==> next.value.ns == p.ns)
            && (if next.Some? && HoldsLock(next.value)
                then (HoldsLock(p) && next.value.until == p.until && w'.redis.locks == w.redis.locks)
                     || (p.Missed? && !LockLive(w.redis, p.ns) && w'.redis.locks == w.redis.locks[p.ns := next.value.until])
                else w'.redis.locks == if HoldsLock(p) then w.redis.locks - {p.ns} else w.redis.locks)
  {
  }

  lemma NextKeepsExclusive(s: State, e: Event)
    requires Enabled(s, e) && Timely(s) && Exclusive(s)
    ensures Exclusive(Next(s, e))
  {
    if e.Step? {
      LocksAfter(s.w, s.processes[e.pid], e.outcome);
    }
    hide After;
  }

  lemma {:induction false} RunKeepsExclusive(s: State, events: seq<Event>)
    requires TimelyRun(s, events) && Exclusive(s)
    ensures ValidRun(s, events) && Exclusive(Run(s, events))
    decreases |events|
  {
    hide Exclusive, Timely, Next, Enabled;
    TimelyRunIsValid(s, events);
    if events != [] {
      NextKeepsExclusive(s, events[0]);
      RunKeepsExclusive(Next(s, events[0]), events[1..]);
    }
  }

  /** While no lock outlives its time to live, no two handlers of one namespace run at once. */
  lemma OneHandlerInFlight(start: State, events: seq<Event>, a: int, b: int)
    requires Start(start) && TimelyRun(start, events)
    ensures ValidRun(start, events)
    ensures var ps := Run(start, events).processes;
            a in ps && b in ps && ps[a].Running? && ps[b].Running? && ps[a].ns == ps[b].ns ==> a == b
  {
    RunKeepsExclusive(start, events);
  }

  // ---- Waiting requests never run the handler ----

  predicate Polls(p: Process) {
    p.Checking? || p.Waiting?
  }

  /** A request that found the lock taken waits until it ends; it holds no lock and starts no handler. */
  lemma {:induction false} PollersNeverRun(s: State, events: seq<Event>, pid: int)
    requires ValidRun(s, events) && pid < s.nextPid && (pid in s.processes ==> Polls(s.processes[pid]))
    ensures pid in Run(s, events).processes ==> Polls(Run(s, events).processes[pid])
    decreases |events|
  {
    if events != [] {
      PollersNeverRun(Next(s, events[0]), events[1..], pid);
    }
  }

  // ---- How often a handler runs while its record lives ----

  /** May still publish a success in the namespace. */
  function MayPublish(ns: Namespace): Process -> bool {
    (p: Process) => p.ns == ns && (p.Missed? || p.Locked? || p.Running? || p.Publishing?)
  }

  /** May still start a handler in the namespace. */
  function MayStart(ns: Namespace): Process -> bool {
    (p: Process) => p.ns == ns && (p.Missed? || p.Locked?)
  }

  function HasMissed(ns: Namespace): Process -> bool {
    (p: Process) => p.ns == ns && p.Missed?
  }

  /** Successes published so far, or still possible without another miss. */
  function Publications(s: State, ns: Namespace): nat {
    Tally(s.w.history.published, ns) + |Matching(s.processes, MayPublish(ns))|
  }

  /** Handlers started so far, or still possible without another miss. */
  function Starts(s: State, ns: Namespace): nat {
    Tally(s.w.history.started, ns) + |Matching(s.processes, MayStart(ns))|
  }

  /** The record of the namespace stays live for some time. */
  predicate RecordLives(s: State, ns: Namespace, until: nat) {
    ns in s.w.redis.records && until <= s.w.redis.records[ns].expiry && until <= s.w.redis.now + TTL_MS
  }

  /** One request's step while the record lives: it publishes or starts only what it might have before. */
  lemma StepWhileCached(w: World, p: Process, outcome: Option<int>, ns: Namespace, until: nat)
    requires ns in w.redis.records && w.redis.now <= until <= w.redis.records[ns].expiry && until <= w.redis.now + TTL_MS
    ensures var (w', next) := After(w, p, outcome);
            && w'.redis.now == w.redis.now
            && ns in w'.redis.records && until <= w'.redis.records[ns].expiry
            && Tally(w'.history.published, ns) + Weight(next, MayPublish(ns)) <= Tally(w.history.published, ns) + Weight(Some(p), MayPublish(ns))
            && Tally(w'.history.started, ns) + Weight(next, MayStart(ns)) <= Tally(w.history.started, ns) + Weight(Some(p), MayStart(ns))
  {
  }

  lemma NextWhileCached(s: State, e: Event, ns: Namespace, until: nat)
    requires Enabled(s, e) && RecordLives(s, ns, until) && s.w.redis.now <= until
    ensures RecordLives(Next(s, e), ns, until)
    ensures Publications(Next(s, e), ns) <= Publications(s, ns)
    ensures Starts(Next(s, e), ns) <= Starts(s, ns)
  {
    hide After, Matching;
    var s' := Next(s, e);
    if e.Request? {
      ProcessMoves(s.processes, s.nextPid, Some(Arrived(e.ns, e.body)), ns);
    } else if e.Step? {
      StepWhileCached(s.w, s.processes[e.pid], e.outcome, ns, until);
      ProcessMoves(s.processes, e.pid, After(s.w, s.processes[e.pid], e.outcome).1, ns);
    } else if e.Die? {
      ProcessMoves(s.processes, e.pid, None, ns);
    }
  }

  lemma ProcessMoves(ps: map<int, Process>, pid: int, next: Option<Process>, ns: Namespace)
    ensures |Matching(Put(ps, pid, next), MayPublish(ns))| + Weight(Get(ps, pid), MayPublish(ns))
         == |Matching(ps, MayPublish(ns))| + Weight(next, MayPublish(ns))
    ensures |Matching(Put(ps, pid, next), MayStart(ns))| + Weight(Get(ps, pid), MayStart(ns))
         == |Matching(ps, MayStart(ns))| + Weight(next, MayStart(ns))
  {
    MatchingMoves(ps, pid, next, MayPublish(ns));
    MatchingMoves(ps, pid, next, MayStart(ns));
  }

  predicate LastsUntil(s: State, events: seq<Event>, until: nat)
    requires ValidRun(s, events)
  {
    Run(s, events).w.redis.now <= until
  }

  lemma {:induction false} ClockOnlyAdvances(s: State, events: seq<Event>)
    requires ValidRun(s, events)
    ensures s.w.redis.now <= Run(s, events).w.redis.now
    decreases |events|
  {
    if events != [] {
      ClockOnlyAdvances(Next(s, events[0]), events[1..]);
    }
  }

  lemma {:induction false} RunWhileCached(s: State, events: seq<Event>, ns: Namespace, until: nat)
    requires ValidRun(s, events) && RecordLives(s, ns, until) && LastsUntil(s, events, until)
    ensures Publications(Run(s, events), ns) <= Publications(s, ns)
    ensures Starts(Run(s, events), ns) <= Starts(s, ns)
    decreases |events|
  {
    ClockOnlyAdvances(s, events);
    hide Next, Enabled, Publications, Starts, RecordLives;
    if events != [] {
      NextWhileCached(s, events[0], ns, until);
      RunWhileCached(Next(s, events[0]), events[1..], ns, until);
    }
  }

  /** When the holder of the lock publishes, only requests that missed the cache before may still run. */
  lemma PublishingLeavesTheMissed(s: State, pid: int)
    requires Exclusive(s) && pid in s.processes && s.processes[pid].Publishing?
    ensures var ns := s.processes[pid].ns;
            var s' := Next(s, Step(pid, None));
            && RecordLives(s', ns, s.w.redis.now + TTL_MS)
            && Publications(s', ns) == Tally(s.w.history.published, ns) + 1 + |Matching(s.processes, HasMissed(ns))|
            && Starts(s', ns) == Tally(s.w.history.started, ns) + |Matching(s.processes, HasMissed(ns))|
  {
    var ns := s.processes[pid].ns;
    var s' := Next(s, Step(pid, None));
    var missed := Matching(s.processes, HasMissed(ns));
    forall k
      ensures k in Matching(s'.processes, MayPublish(ns)) <==> k in missed
      ensures k in Matching(s'.processes, MayStart(ns)) <==> k in missed
    {
      if k in s.processes && k != pid && HoldsLock(s.processes[k]) {
        assert s.processes[k].ns != ns;
      }
    }
    assert Matching(s'.processes, MayPublish(ns)) == missed;
    assert Matching(s'.processes, MayStart(ns)) == missed;
  }

  /**
   From the publication of a success on, for as long as its record was to live, no more successes are
   published than one and the requests that had missed the cache by then, and no more handlers start,
   failing ones included, than those requests.
   */
  lemma RunsWhileCached(start: State, before: seq<Event>, pid: int, after: seq<Event>)
    requires Start(start) && TimelyRun(start, before) && ValidRun(start, before)
    requires var s := Run(start, before);
             && pid in s.processes && s.processes[pid].Publishing?
             && ValidRun(Next(s, Step(pid, None)), after)
             && Run(Next(s, Step(pid, None)), after).w.redis.now <= s.w.redis.now + TTL_MS
    ensures var s := Run(start, before);
            var ns := s.processes[pid].ns;
            var end := Run(Next(s, Step(pid, None)), after);
            var missed := |Matching(s.processes, HasMissed(ns))|;
            && Tally(end.w.history.published, ns) <= Tally(s.w.history.published, ns) + 1 + missed
            && Tally(end.w.history.started, ns) <= Tally(s.w.history.started, ns) + missed
  {
    var s := Run(start, before);
    RunKeepsExclusive(start, before);
    hide Exclusive, Timely, Run, ValidRun, TimelyRun, Next;
    PublishingLeavesTheMissed(s, pid);
    RunWhileCached(Next(s, Step(pid, None)), after, s.processes[pid].ns, s.w.redis.now + TTL_MS);
  }

  // ---- Replays ----

  ghost predicate Sound(s: State) {
    var r, h := s.w.redis, s.w.history;
    && h.replayed <= h.produced
    && (forall ns | ns in r.records :: Response(ns, r.records[ns].body, r.records[ns].response) in h.produced)
    && (forall pid | pid in s.processes && s.processes[pid].Publishing? ::
          Response(s.processes[pid].ns, s.processes[pid].body, s.processes[pid].response) in h.produced)
  }

  lemma NextKeepsSound(s: State, e: Event)
    requires Enabled(s, e) && Sound(s)
    ensures Sound(Next(s, e))
  {
  }

  lemma {:induction false} RunKeepsSound(s: State, events: seq<Event>)
    requires ValidRun(s, events) && Sound(s)
    ensures Sound(Run(s, events))
    decreases |events|
  {
    hide Sound, Next, Enabled;
    if events != [] {
      NextKeepsSound(s, events[0]);
      RunKeepsSound(Next(s, events[0]), events[1..]);
    }
  }

  /** Every reply from the cache is what a handler returned in this namespace for the same body, locks lost or not. */
  lemma RepliesAreGenuine(start: State, events: seq<Event>, reply: Response)
    requires Start(start) && ValidRun(start, events)
    ensures reply in Run(start, events).w.history.replayed ==> reply in Run(start, events).w.history.produced
  {
    RunKeepsSound(start, events);
  }

  // ---- The quota ----

  /** Within one life of a principal's counter, the handlers started are the keys counted, up to the maximum. */
  predicate WithinQuota(w: World, principal: int) {
    var n, admitted := LiveCount(w.redis, principal), Tally(w.history.admitted, principal);
    admitted <= MAX_NEW_KEYS_PER_HOUR && (n > 0 ==> admitted == Min(n, MAX_NEW_KEYS_PER_HOUR))
  }

  lemma StepKeepsQuota(w: World, p: Process, outcome: Option<int>, principal: int)
    requires WithinQuota(w, principal)
    ensures WithinQuota(After(w, p, outcome).0, principal)
  {
    if p.Locked? {
      hide LiveRecord, LockLive, Replayed;
    } else {
      hide AfterLocked;
    }
  }

  lemma {:induction false} RunKeepsQuota(s: State, events: seq<Event>, principal: int)
    requires ValidRun(s, events) && WithinQuota(s.w, principal)
    ensures WithinQuota(Run(s, events).w, principal)
    decreases |events|
  {
    if events != [] {
      var e := events[0];
      if e.Step? {
        StepKeepsQuota(s.w, s.processes[e.pid], e.outcome, principal);
      }
      hide After;
      assert WithinQuota(Next(s, e).w, principal);
      hide WithinQuota, Next, Enabled;
      RunKeepsQuota(Next(s, e), events[1..], principal);
    }
  }

  /** No hour of a principal's counter starts more handlers than the maximum. */
  lemma QuotaHolds(start: State, events: seq<Event>, principal: int)
    requires Start(start) && ValidRun(start, events)
    ensures WithinQuota(Run(start, events).w, principal) && Tally(Run(start, events).w.history.admitted, principal) <= 300
  {
    RunKeepsQuota(start, events, principal);
  }

  // ---- Where at most once fails ----

  /** A request that missed the cache starts its handler exactly when the lock is free and the quota allows, cached success or not. */
  lemma MissedRequestStillRuns(s: State, pid: int)
    requires pid in s.processes && s.processes[pid].Missed?
    ensures var events := [Step(pid, None), Step(pid, None)];
            var ns := s.processes[pid].ns;
            && ValidRun(s, events)
            && (pid in Run(s, events).processes && Run(s, events).processes[pid].Running?
                <==> !LockLive(s.w.redis, ns) && LiveCount(s.w.redis, ns.principal) < MAX_NEW_KEYS_PER_HOUR)
            && (forall q | q in s.processes && q != pid :: q in Run(s, events).processes && Run(s, events).processes[q] == s.processes[q])
  {
    var events := [Step(pid, None), Step(pid, None)];
    assert events[1..] == [Step(pid, None)] && events[1..][1..] == [];
    var s1 := Next(s, Step(pid, None));
    var s2 := Next(s1, Step(pid, None));
    assert ValidRun(s2, []) && Run(s2, []) == s2;
  }

  /** Beside a running handler a second one of the namespace can start, quota permitting, exactly when the first has outlived its lock. */
  lemma SlowHandlerLetsAnotherIn(s: State, slow: int, pid: int)
    requires slow in s.processes && s.processes[slow].Running?
    requires pid in s.processes && s.processes[pid].Missed? && s.processes[pid].ns == s.processes[slow].ns
    requires LiveCount(s.w.redis, s.processes[slow].ns.principal) < MAX_NEW_KEYS_PER_HOUR
    ensures var events := [Step(pid, None), Step(pid, None)];
            && ValidRun(s, events)
            && slow in Run(s, events).processes && Run(s, events).processes[slow].Running?
            && (pid in Run(s, events).processes && Run(s, events).processes[pid].Running? <==> !LockLive(s.w.redis, s.processes[slow].ns))
  {
    MissedRequestStillRuns(s, pid);
    hide ValidRun, Run;
  }

  // ---- The interceptor ----

  datatype Answer = Fresh(response: int) | Replay(response: int) | Conflict | TooManyKeys | Failed | Unavailable

  function Reply(record: Record, body: int): Answer {
    if record.body == body then Replay(record.response) else Conflict
  }

  /** A cached success is replayed to a request with the same body, unchanged, and refused to every other. */
  lemma ReplyMatchesBody(record: Record, body: int)
    ensures (Reply(record, body).Replay? <==> record.body == body) && (Reply(record, body).Conflict? <==> record.body != body)
    ensures record.body == body ==> Reply(record, body) == Replay(record.response)
  {
  }

  /** The answer is the one the steps of a request record, and a conflict records nothing. */
  lemma ReplyIsTheStep(w: World, p: Process, record: Record)
    requires (p.Arrived? || p.Waiting?) && LiveRecord(w.redis, p.ns) == Some(record)
    ensures var (w', next) := After(w, p, None);
            && next.None? && w'.redis == w.redis
            && w'.history == w.history.(replayed := w'.history.replayed)
            && w'.history.replayed == w.history.replayed
                 + (if Reply(record, p.body).Replay? then {Response(p.ns, p.body, Reply(record, p.body).response)} else {})
  {
  }

  /** The instant of a poller's n-th look at the cache. */
  function Look(start: nat, n: nat): nat {
    start + n * LOCK_POLL_INTERVAL_MS
  }

  const LOOKS := LOCK_MAX_WAIT_MS / LOCK_POLL_INTERVAL_MS

  /** A handler of the lock's holder has returned, or thrown: its success is cached, and the lock is gone. */
  function Returned(r: Redis, ns: Namespace, body: int, handler: Option<int>): Redis {
    var unlocked := r.(locks := r.locks - {ns});
    if handler.None? then unlocked
    else unlocked.(records := r.records[ns := Record(body, handler.value, r.now + TTL_MS)])
  }

  /** A request has taken the lock and been counted, some time ago. */
  function Taken(r: Redis, ns: Namespace, elapsed: nat): Redis {
    Counted(r, ns.principal).(now := r.now + elapsed, locks := r.locks[ns := r.now + LOCK_TTL_MS])
  }

  /**
   After a handler has succeeded: for an hour its response answers every request with the same body
   and any other body conflicts, then nothing is cached; the lock is free and the key has been counted.
   */
  lemma SecondRequest(r: Redis, ns: Namespace, body: int, response: int, elapsed: nat, later: nat, other: int)
    ensures var done := Returned(Taken(r, ns, elapsed), ns, body, Some(response));
            var afterwards := done.(now := done.now + later);
            && done.now == r.now + elapsed && !LockLive(afterwards, ns)
            && LiveCount(done.(now := r.now), ns.principal) == LiveCount(r, ns.principal) + 1
            && (later <= 3_600_000 ==>
                && LiveRecord(afterwards, ns).Some?
                && Reply(LiveRecord(afterwards, ns).value, body) == Replay(response)
                && (other != body ==> Reply(LiveRecord(afterwards, ns).value, other) == Conflict))
            && (later > 3_600_000 ==> LiveRecord(afterwards, ns).None?)
  {
  }

  /** After a handler has failed, or was one too many, nothing new is cached and the lock is free. */
  lemma AfterFailure(r: Redis, ns: Namespace, body: int, elapsed: nat, x: Namespace)
    ensures var done := Returned(Taken(r, ns, elapsed), ns, body, None);
            && done.records == r.records && done.now == r.now + elapsed && ns !in done.locks
            && (x != ns ==> (x in done.locks <==> x in r.locks) && (x in r.locks ==> done.locks[x] == r.locks[x]))
  {
  }

  class IdempotencyInterceptor {
    var redis: Redis

    constructor (now: nat)
      ensures redis == Redis(now, map[], map[], map[])
    {
      redis := Redis(now, map[], map[], map[]);
    }

    method SetNx(ns: Namespace) returns (acquired: bool)
      modifies this
      ensures acquired <==> !LockLive(old(redis), ns)
      ensures redis == if acquired then old(redis).(locks := old(redis).locks[ns := old(redis).now + LOCK_TTL_MS]) else old(redis)
    {
      acquired := !(ns in redis.locks && redis.now <= redis.locks[ns]);
      if acquired {
        redis := redis.(locks := redis.locks[ns := redis.now + LOCK_TTL_MS]);
      }
    }

    method IncrWithTtlOnFirst(principal: int) returns (n: nat)
      modifies this
      ensures redis == Counted(old(redis), principal) && n == LiveCount(redis, principal) == LiveCount(old(redis), principal) + 1
    {
      var live := principal in redis.quotas && redis.now <= redis.quotas[principal].expiry;
      n := (if live then redis.quotas[principal].count else 0) + 1;
      var expiry := if n == 1 then redis.now + QUOTA_TTL_MS else redis.quotas[principal].expiry;
      redis := redis.(quotas := redis.quotas[principal := Counter(n, expiry)]);
    }

    /** `handler` is what the handler would return, or nothing if it throws, after `elapsed`; `seen` is the cached record at each instant. */
    method ProcessIdempotent(ns: Namespace, body: int, handler: Option<int>, elapsed: nat, seen: nat -> Option<Record>)
      returns (answer: Answer)
      modifies this
      ensures var r := old(redis);
              var cached := LiveRecord(r, ns);
              if cached.Some? then redis == r && answer == Reply(cached.value, body)
              else if LockLive(r, ns) then redis == r && Waited(r.now, body, seen, answer)
              else
                if LiveCount(r, ns.principal) >= MAX_NEW_KEYS_PER_HOUR
                then redis == Returned(Taken(r, ns, 0), ns, body, None) && answer == TooManyKeys
                else
                  && redis == Returned(Taken(r, ns, elapsed), ns, body, handler)
                  && answer == if handler.Some? then Fresh(handler.value) else Failed
      ensures LiveRecord(old(redis), ns).Some? ==>
                answer == if LiveRecord(old(redis), ns).value.body == body
                          then Replay(LiveRecord(old(redis), ns).value.response) else Conflict
      ensures answer.Fresh? ==> handler == Some(answer.response)
    {
      var cached := LiveRecord(redis, ns);
      if cached.Some? {
        return if cached.value.body != body then Conflict else Replay(cached.value.response);
      }
      var acquired := SetNx(ns);
      if !acquired {
        answer := PollForResult(redis.now, body, seen);
        return;
      }
      answer := RunHandler(ns, body, handler, elapsed);
    }

    /** The holder of the lock, until it gives it up. */
    method RunHandler(ns: Namespace, body: int, handler: Option<int>, elapsed: nat) returns (answer: Answer)
      modifies this
      ensures var r := old(redis);
              var late := Counted(r, ns.principal).(now := r.now + elapsed);
              if LiveCount(r, ns.principal) >= MAX_NEW_KEYS_PER_HOUR
              then redis == Returned(Counted(r, ns.principal), ns, body, None) && answer == TooManyKeys
              else redis == Returned(late, ns, body, handler) && answer == if handler.Some? then Fresh(handler.value) else Failed
    {
      var newKeys := IncrWithTtlOnFirst(ns.principal);
      if newKeys > MAX_NEW_KEYS_PER_HOUR {
        answer := TooManyKeys;
      } else {
        redis := redis.(now := redis.now + elapsed);
        if handler.Some? {
          redis := redis.(records := redis.records[ns := Record(body, handler.value, redis.now + TTL_MS)]);
          answer := Fresh(handler.value);
        } else {
          answer := Failed;
        }
      }
      redis := redis.(locks := redis.locks - {ns});
    }

    method PollForResult(start: nat, body: int, seen: nat -> Option<Record>) returns (answer: Answer)
      ensures Waited(start, body, seen, answer)
      ensures answer.Replay? || answer.Conflict? || answer.Unavailable?
    {
      var now := start;
      ghost var n := 0;
      while now < start + LOCK_MAX_WAIT_MS
        invariant now == Look(start, n) && n <= LOOKS
        invariant forall i :: 1 <= i <= n ==> seen(Look(start, i)).None?
      {
        now := now + LOCK_POLL_INTERVAL_MS;
        n := n + 1;
        var cached := seen(now);
        assert now == Look(start, n);
        if cached.Some? {
          return if cached.value.body != body then Conflict else Replay(cached.value.response);
        }
      }
      answer := Unavailable;
    }
  }

  /** A poller answers from the first of its looks that finds a record, and gives up after the last. */
  ghost predicate Waited(start: nat, body: int, seen: nat -> Option<Record>, answer: Answer) {
    || (answer == Unavailable && forall i :: 1 <= i <= LOOKS ==> seen(Look(start, i)).None?)
    || (exists n :: && 1 <= n <= LOOKS && seen(Look(start, n)).Some? && answer == Reply(seen(Look(start, n)).value, body)
                    && forall i :: 1 <= i < n ==> seen(Look(start, i)).None?)
  }

  lemma HandlerReturns(s: State, pid: int, handler: Option<int>) returns (events: seq<Event>)
    requires s.processes.Keys == {pid} && s.processes[pid].Running?
    ensures ValidRun(s, events) && Run(s, events).processes == map[]
    ensures Run(s, events).w.redis == Returned(s.w.redis, s.processes[pid].ns, s.processes[pid].body, handler)
    ensures TimelyRun(s, events) <==> s.w.redis.now <= s.processes[pid].until
  {
    var step := Step(pid, handler);
    var s1 := Next(s, step);
    var s2 := Next(s1, step);
    if handler.Some? {
      var s3 := Next(s2, step);
      assert ValidRun(s3, []) && Run(s3, []) == s3;
      hide Next, Enabled;
      Prepend(s2, step, []);
      Prepend(s1, step, [step] + []);
      Prepend(s, step, [step] + ([step] + []));
      events := [step] + ([step] + ([step] + []));
    } else {
      assert ValidRun(s2, []) && Run(s2, []) == s2;
      hide Next, Enabled;
      Prepend(s1, step, []);
      Prepend(s, step, [step] + []);
      events := [step] + ([step] + []);
    }
  }

  /** A request alone, once it has the lock. */
  function Alone(s: State, ns: Namespace, body: int): State {
    var until := s.w.redis.now + LOCK_TTL_MS;
    State(s.w.(redis := s.w.redis.(locks := s.w.redis.locks[ns := until])), map[s.nextPid := Locked(ns, body, until)], s.nextPid + 1)
  }

  lemma LockIsTaken(s: State, ns: Namespace, body: int, rest: seq<Event>) returns (events: seq<Event>)
    requires s.processes == map[]
    requires LiveRecord(s.w.redis, ns).None? && !LockLive(s.w.redis, ns) && ValidRun(Alone(s, ns, body), rest)
    ensures ValidRun(s, events) && Run(s, events) == Run(Alone(s, ns, body), rest)
    ensures TimelyRun(s, events) <==> TimelyRun(Alone(s, ns, body), rest)
  {
    var step := Step(s.nextPid, None);
    var s1 := Next(s, Request(ns, body));
    var s2 := Next(s1, step);
    assert Next(s2, step) == Alone(s, ns, body);
    assert Timely(s) && Timely(s1) && Timely(s2);
    hide Next, Enabled, Timely;
    Prepend(s2, step, rest);
    Prepend(s1, step, [step] + rest);
    Prepend(s, Request(ns, body), [step] + ([step] + rest));
    events := [Request(ns, body)] + ([step] + ([step] + rest));
  }

  lemma AloneRuns(s: State, ns: Namespace, body: int, elapsed: nat)
    requires LiveCount(s.w.redis, ns.principal) < MAX_NEW_KEYS_PER_HOUR
    ensures var s3, until := Alone(s, ns, body), s.w.redis.now + LOCK_TTL_MS;
            var s4 := Next(s3, Step(s.nextPid, None));
            && Timely(s3) && Timely(s4)
            && s4.processes == map[s.nextPid := Running(ns, body, until)]
            && Next(s4, Tick(elapsed)).processes == s4.processes
            && Next(s4, Tick(elapsed)).w.redis == Taken(s.w.redis, ns, elapsed)
  {
    hide LiveRecord, LockLive, Replayed, Tally;
    CountedKeepsLocks(s.w.redis, ns.principal, s.w.redis.locks[ns := s.w.redis.now + LOCK_TTL_MS]);
    hide Counted;
  }

  lemma CountedKeepsLocks(r: Redis, principal: int, locks: map<Namespace, nat>)
    ensures Counted(r.(locks := locks), principal) == Counted(r, principal).(locks := locks)
    ensures LiveCount(r.(locks := locks), principal) == LiveCount(r, principal)
    ensures Counted(r, principal).now == r.now
  {
  }

  /** What having waited means: no look found a record, or the first that did decides the answer. */
  lemma WaitedExactly(start: nat, body: int, seen: nat -> Option<Record>, answer: Answer)
    ensures Waited(start, body, seen, answer) <==>
            || (answer == Unavailable && forall n | 1 <= n <= 100 :: seen(Look(start, n)).None?)
            || (exists n :: && 1 <= n <= 100 && seen(Look(start, n)).Some?
                            && (forall i | 1 <= i < n :: seen(Look(start, i)).None?)
                            && answer == if seen(Look(start, n)).value.body == body
                                         then Replay(seen(Look(start, n)).value.response) else Conflict)
    ensures forall n: nat :: Look(start, n) == start + 100 * n
  {
  }

  /** Holding the lock undisturbed is one of the interleavings, timely if the handler is. */
  lemma HeldIsARun(s: State, ns: Namespace, body: int, handler: Option<int>, elapsed: nat) returns (events: seq<Event>)
    requires s.processes == map[]
    requires LiveRecord(s.w.redis, ns).None? && !LockLive(s.w.redis, ns)
    requires LiveCount(s.w.redis, ns.principal) < MAX_NEW_KEYS_PER_HOUR
    ensures ValidRun(s, events) && Run(s, events).processes == map[]
    ensures Run(s, events).w.redis == Returned(Taken(s.w.redis, ns, elapsed), ns, body, handler)
    ensures TimelyRun(s, events) <==> elapsed <= 30_000
  {
    var s3 := Alone(s, ns, body);
    var step := Step(s.nextPid, None);
    AloneRuns(s, ns, body, elapsed);
    var s4 := Next(s3, step);
    var s5 := Next(s4, Tick(elapsed));
    hide Next, After, Enabled, Timely, Run, ValidRun, TimelyRun;
    events := HandlerReturns(s5, s.nextPid, handler);
    hide Returned, Taken;
    Prepend(s4, Tick(elapsed), events);
    events := [Tick(elapsed)] + events;
    Prepend(s3, step, events);
    events := LockIsTaken(s, ns, body, [step] + events);
  }

  lemma Prepend(s: State, e: Event, events: seq<Event>)
    requires Enabled(s, e)
    ensures ValidRun(s, [e] + events) <==> ValidRun(Next(s, e), events)
    ensures ValidRun(s, [e] + events) ==> Run(s, [e] + events) == Run(Next(s, e), events)
    ensures TimelyRun(s, [e] + events) <==> Timely(s) && TimelyRun(Next(s, e), events)
  {
    assert ([e] + events)[1..] == events;
  }
}
