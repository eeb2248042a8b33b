/**
 The one-time codes command by command: any number of sends and verifications of one address, in any
 interleaving, at any times. A verification reads the code and compares before it counts a wrong
 guess, so what bounds the guesses is that verifications do not overlap.
 */
module OtpRaces {
  import opened Common
  import opened Otp

  /** A request, by the command it gives next. */
  datatype Process =
    | ReadCode(guess: string)
    | CountFail
    | DropCode
    | DropFails
    | ReadCooldown(code: string)
    | StoreCode(code: string)
    | StoreCooldown

  /** How many wrong guesses were compared with the code stored last, and how many right ones accepted. */
  datatype Tally = Tally(wrong: nat, accepted: nat)

  /** The keys, the clock, the requests, and the tally of the code stored last. */
  datatype State = State(keys: Keys, now: int, processes: map<int, Process>, tally: Tally)

  datatype Event =
    | Tick(to: int)
    | Begin(pid: int, process: Process)
    | Command(pid: int)
    | Die(pid: int)

  const NOTHING := State(Keys(None, None, None), 0, map[], Tally(0, 0))

  /** The keys and the tally after a command, and what the request does next. */
  function After(k: Keys, now: int, t: Tally, p: Process): (Keys, Tally, Option<Process>) {
    match p
    case ReadCode(guess) =>
      if Live(k.code, now).None? then (k, t, None)
      else if k.code.value.value == guess then (k, t.(accepted := t.accepted + 1), Some(DropCode))
      else (k, t.(wrong := t.wrong + 1), Some(CountFail))
    case CountFail =>
      var fails := Incremented(k.fails, now);
      (k.(fails := Some(fails)), t, if fails.value > OTP_MAX_FAILS then Some(DropCode) else None)
    case DropCode => (k.(code := None), t, Some(DropFails))
    case DropFails => (k.(fails := None), t, None)
    case ReadCooldown(code) => (k, t, if Live(k.cooldown, now).Some? then None else Some(StoreCode(code)))
    case StoreCode(code) => (k.(code := Some(Entry(code, now + OTP_TTL))), Tally(0, 0), Some(StoreCooldown))
    case StoreCooldown => (k.(cooldown := Some(Entry("1", now + OTP_COOLDOWN_SECONDS))), t, None)
  }

  predicate Enabled(s: State, e: Event) {
    match e
    case Tick(to) => s.now <= to
    case Begin(pid, p) => pid !in s.processes && (p.ReadCode? || p.ReadCooldown?)
    case Command(pid) => pid in s.processes
    case Die(pid) => pid in s.processes
  }

  function Next(s: State, e: Event): State
    requires Enabled(s, e)
  {
    match e
    case Tick(to) => s.(now := to)
    case Begin(pid, p) => s.(processes := s.processes[pid := p])
    case Command(pid) =>
      var (keys, tally, next) := After(s.keys, s.now, s.tally, s.processes[pid]);
      State(keys, s.now, Put(s.processes, pid, next), tally)
    case Die(pid) => s.(processes := s.processes - {pid})
  }

  predicate ValidRun(s: State, events: seq<Event>)
    decreases |events|
  {
    events == [] || (Enabled(s, events[0]) && ValidRun(Next(s, events[0]), events[1..]))
  }

  function Run(s: State, events: seq<Event>): State
    requires ValidRun(s, events)
    decreases |events|
  {
    if events == [] then s else Run(Next(s, events[0]), events[1..])
  }

  // ---- The bound ----

  /** A verification that has compared its guess and has commands left. */
  predicate Deciding(p: Process) {
    p.CountFail? || p.DropCode? || p.DropFails?
  }

  predicate Verifies(p: Process) {
    p.ReadCode? || Deciding(p)
  }

  predicate NoneVerifies(s: State) {
    forall pid | pid in s.processes :: !Verifies(s.processes[pid])
  }

  /** A verification begins only when no other is under way. */
  predicate Apart(s: State, e: Event) {
    e.Begin? && e.process.ReadCode? ==> NoneVerifies(s)
  }

  /** No verification dies between its comparison and its last command. */
  predicate Survives(s: State, e: Event) {
    e.Die? && e.pid in s.processes ==> !Deciding(s.processes[e.pid])
  }

  /** A run whose verifications are kept apart, or kept alive, or both. */
  predicate OrderlyRun(s: State, events: seq<Event>, apart: bool, alive: bool)
    requires ValidRun(s, events)
    decreases |events|
  {
    events == [] ||
    (&& (apart ==> Apart(s, events[0])) && (alive ==> Survives(s, events[0]))
     && OrderlyRun(Next(s, events[0]), events[1..], apart, alive))
  }

  /** The wrong guesses that may have been counted: a counter opened before the code leaves it at most four. */
  function Room(k: Keys): int
    requires k.code.Some?
  {
    match k.fails
    case None => 4
    case Some(e) => if e.expiry < k.code.value.expiry then e.value - 1 else e.value + 4
  }

  predicate CounterInRange(k: Keys) {
    k.fails.Some? ==> 1 <= k.fails.value.value <= OTP_MAX_FAILS
  }

  /** What holds while no verification is deciding; `ahead` is 1 when one has compared and not yet counted. */
  predicate Within(k: Keys, now: int, t: Tally, ahead: nat) {
    && CounterInRange(k)
    && (Live(k.code, now).Some? ==> t.wrong <= Room(k) + ahead)
    && (k.code.Some? ==> t.accepted == 0)
  }

  predicate KeysInv(s: State) {
    && s.tally.wrong <= 10 && s.tally.accepted <= 1
    && (s.keys.code.Some? ==> s.keys.code.value.expiry <= s.now + OTP_TTL)
  }

  /** What is known while process p, the only one that verifies, stands before its next command. */
  predicate Stage(s: State, p: Process) {
    match p
    case CountFail => s.keys.code.Some? && Within(s.keys, s.now, s.tally, 1)
    case DropCode => true
    case DropFails => s.keys.code.Some? ==> s.tally == Tally(0, 0)
    case _ => Within(s.keys, s.now, s.tally, 0)
  }

  /** At most one process verifies: v, if any. What is known follows its stage. */
  predicate Inv(s: State, v: Option<int>) {
    && KeysInv(s)
    && (forall pid | pid in s.processes && v != Some(pid) :: !Verifies(s.processes[pid]))
    && (v.Some? ==> v.value in s.processes && Verifies(s.processes[v.value]))
    && Known(s, v)
  }

  predicate Known(s: State, v: Option<int>) {
    match v
    case None => Within(s.keys, s.now, s.tally, 0)
    case Some(pid) => pid in s.processes && Stage(s, s.processes[pid])
  }

  /** A send at any moment of a verification leaves what is known about it. */
  lemma SendKeepsStage(s: State, p: Process, q: Process)
    requires KeysInv(s) && !Verifies(p) && Stage(s, q)
    ensures var (keys, tally, next) := After(s.keys, s.now, s.tally, p);
            var s' := State(keys, s.now, s.processes, tally);
            KeysInv(s') && Stage(s', q) && (next.Some? ==> !Verifies(next.value))
  {
  }

  /** A verification goes on in its stage, and when it ends the next may begin. */
  lemma VerificationGoesOn(s: State, p: Process)
    requires KeysInv(s) && Verifies(p) && Stage(s, p)
    ensures var (keys, tally, next) := After(s.keys, s.now, s.tally, p);
            var s' := State(keys, s.now, s.processes, tally);
            && KeysInv(s')
            && (next.Some? ==> Verifies(next.value) && Stage(s', next.value))
            && (next.None? ==> Within(keys, s.now, tally, 0))
  {
  }

  lemma SendKeepsInv(s: State, pid: int, v: Option<int>)
    requires Inv(s, v) && Enabled(s, Command(pid)) && v != Some(pid)
    ensures Inv(Next(s, Command(pid)), v)
  {
    SendKeepsStage(s, s.processes[pid], if v.Some? then s.processes[v.value] else ReadCode(""));
    hide After, Within, Verifies;
  }

  lemma VerificationKeepsInv(s: State, pid: int)
    requires Inv(s, Some(pid)) && Enabled(s, Command(pid))
    ensures var s' := Next(s, Command(pid)); Inv(s', if pid in s'.processes then Some(pid) else None)
  {
    VerificationGoesOn(s, s.processes[pid]);
    hide After, Within, Verifies;
  }

  lemma NextKeepsInv(s: State, e: Event, v: Option<int>) returns (v': Option<int>)
    requires Inv(s, v) && Enabled(s, e) && Apart(s, e) && Survives(s, e)
    ensures Inv(Next(s, e), v')
  {
    v' := v;
    if e.Command? {
      if v == Some(e.pid) {
        VerificationKeepsInv(s, e.pid);
        v' := if e.pid in Next(s, e).processes then v else None;
      } else {
        SendKeepsInv(s, e.pid, v);
      }
    } else if e.Begin? && e.process.ReadCode? {
      assert v.None?;
      v' := Some(e.pid);
    } else if e.Die? && v == Some(e.pid) {
      v' := None;
    }
    hide After;
  }

  lemma {:induction false} RunKeepsInv(s: State, events: seq<Event>, v: Option<int>) returns (v': Option<int>)
    requires ValidRun(s, events) && OrderlyRun(s, events, true, true) && Inv(s, v)
    ensures Inv(Run(s, events), v')
    decreases |events|
  {
    hide Inv, Next, Enabled, Apart, Survives;
    v' := v;
    if events != [] {
      v' := NextKeepsInv(s, events[0], v);
      v' := RunKeepsInv(Next(s, events[0]), events[1..], v');
    }
  }

  /**
   If verifications of an address do not overlap and none dies half-way, at most ten wrong guesses are
   ever compared with one code, and it is accepted at most once, however sends and the clock move
   between their commands.
   */
  lemma BoundWithoutOverlap(events: seq<Event>)
    requires ValidRun(NOTHING, events) && OrderlyRun(NOTHING, events, true, true)
    ensures Run(NOTHING, events).tally.wrong <= 10 && Run(NOTHING, events).tally.accepted <= 1
  {
    var v := RunKeepsInv(NOTHING, events, None);
  }

  /** Time passes, and a death takes only its request: the keys stay as its commands left them. */
  lemma ClockAndDeath(s: State, to: int, pid: int)
    requires s.now <= to && pid in s.processes
    ensures Enabled(s, Tick(to)) && Next(s, Tick(to)) == State(s.keys, to, s.processes, s.tally)
    ensures Enabled(s, Die(pid)) && Next(s, Die(pid)) == State(s.keys, s.now, s.processes - {pid}, s.tally)
  {
  }

  // ---- Without it there is no bound ----

  lemma {:induction false} Append(s: State, events: seq<Event>, e: Event, apart: bool, alive: bool)
    requires ValidRun(s, events) && OrderlyRun(s, events, apart, alive) && Enabled(Run(s, events), e)
    requires (apart ==> Apart(Run(s, events), e)) && (alive ==> Survives(Run(s, events), e))
    ensures ValidRun(s, events + [e]) && Run(s, events + [e]) == Next(Run(s, events), e)
    ensures OrderlyRun(s, events + [e], apart, alive)
    decreases |events|
  {
    hide Enabled, Next, Apart, Survives;
    if events == [] {
      assert events + [e] == [e] && ValidRun(Next(s, e), []) && Run(Next(s, e), []) == Next(s, e);
      assert OrderlyRun(Next(s, e), [], apart, alive);
    } else {
      Append(Next(s, events[0]), events[1..], e, apart, alive);
      assert (events + [e])[1..] == events[1..] + [e];
    }
  }

  /** A code has just been issued, so many wrong guesses have been compared with it, and none was counted. */
  predicate Guessed(s: State, n: nat) {
    CodeFresh(s) && s.tally == Tally(n, 0)
  }

  predicate CodeFresh(s: State) {
    s.keys == Keys(Some(Entry("code", OTP_TTL)), Some(Entry("1", OTP_COOLDOWN_SECONDS)), None) && s.now == 0
  }

  lemma SendSteps(s1: State, s2: State, s3: State)
    requires s1 == NOTHING.(processes := map[0 := ReadCooldown("code")])
    requires s2 == NOTHING.(processes := map[0 := StoreCode("code")])
    requires s3 == s2.(keys := Keys(Some(Entry("code", OTP_TTL)), None, None), processes := map[0 := StoreCooldown])
    ensures Next(NOTHING, Begin(0, ReadCooldown("code"))) == s1
    ensures Next(s1, Command(0)) == s2 && Next(s2, Command(0)) == s3
    ensures Guessed(Next(s3, Command(0)), 0) && Next(s3, Command(0)).processes == map[]
  {
  }

  lemma CodeSent(apart: bool, alive: bool) returns (events: seq<Event>)
    ensures ValidRun(NOTHING, events) && OrderlyRun(NOTHING, events, apart, alive)
    ensures Guessed(Run(NOTHING, events), 0) && Run(NOTHING, events).processes == map[]
  {
    var s1 := NOTHING.(processes := map[0 := ReadCooldown("code")]);
    var s2 := NOTHING.(processes := map[0 := StoreCode("code")]);
    var s3 := s2.(keys := Keys(Some(Entry("code", OTP_TTL)), None, None), processes := map[0 := StoreCooldown]);
    SendSteps(s1, s2, s3);
    assert ValidRun(NOTHING, []) && Run(NOTHING, []) == NOTHING && OrderlyRun(NOTHING, [], apart, alive);
    hide Next, Run, ValidRun, OrderlyRun;
    Append(NOTHING, [], Begin(0, ReadCooldown("code")), apart, alive);
    events := [] + [Begin(0, ReadCooldown("code"))];
    Append(NOTHING, events, Command(0), apart, alive);
    events := events + [Command(0)];
    Append(NOTHING, events, Command(0), apart, alive);
    events := events + [Command(0)];
    Append(NOTHING, events, Command(0), apart, alive);
    events := events + [Command(0)];
  }

  /** One more verification reads the code, compares a wrong guess, and goes no further. */
  lemma OneMoreGuess(s: State, pid: int, n: nat)
    requires Guessed(s, n) && pid !in s.processes
    ensures var begin := Begin(pid, ReadCode("no"));
            && Enabled(s, begin) && Enabled(Next(s, begin), Command(pid))
            && Next(Next(s, begin), Command(pid)) == s.(processes := s.processes[pid := CountFail], tally := Tally(n + 1, 0))
  {
    assert "no" != "code";
  }

  /** For every n, n verifications that overlap compare n wrong guesses with one code before any of them is counted. */
  lemma {:induction false} OverlapIsUnbounded(n: nat) returns (events: seq<Event>)
    ensures ValidRun(NOTHING, events) && OrderlyRun(NOTHING, events, false, true)
    ensures Guessed(Run(NOTHING, events), n)
    ensures forall pid | pid in Run(NOTHING, events).processes :: 0 <= pid < n
  {
    hide Next, Run, ValidRun, OrderlyRun;
    if n == 0 {
      events := CodeSent(false, true);
    } else {
      events := OverlapIsUnbounded(n - 1);
      OneMoreGuess(Run(NOTHING, events), n - 1, n - 1);
      Append(NOTHING, events, Begin(n - 1, ReadCode("no")), false, true);
      Append(NOTHING, events + [Begin(n - 1, ReadCode("no"))], Command(n - 1), false, true);
      events := events + [Begin(n - 1, ReadCode("no"))] + [Command(n - 1)];
    }
  }

  /** And n that overlap with the right guess are all accepted before any of them uses the code up. */
  lemma {:induction false} OverlapAcceptsAgain(n: nat) returns (events: seq<Event>)
    ensures ValidRun(NOTHING, events) && OrderlyRun(NOTHING, events, false, true)
    ensures CodeFresh(Run(NOTHING, events)) && Run(NOTHING, events).tally == Tally(0, n)
    ensures forall pid | pid in Run(NOTHING, events).processes :: 0 <= pid < n
  {
    hide Next, Run, ValidRun, OrderlyRun;
    if n == 0 {
      events := CodeSent(false, true);
    } else {
      events := OverlapAcceptsAgain(n - 1);
      OneMoreAcceptance(Run(NOTHING, events), n - 1, n - 1);
      Append(NOTHING, events, Begin(n - 1, ReadCode("code")), false, true);
      Append(NOTHING, events + [Begin(n - 1, ReadCode("code"))], Command(n - 1), false, true);
      events := events + [Begin(n - 1, ReadCode("code"))] + [Command(n - 1)];
    }
  }

  lemma OneMoreAcceptance(s: State, pid: int, n: nat)
    requires CodeFresh(s) && s.tally == Tally(0, n) && pid !in s.processes
    ensures var begin := Begin(pid, ReadCode("code"));
            && Enabled(s, begin) && Enabled(Next(s, begin), Command(pid))
            && Next(Next(s, begin), Command(pid)) == s.(processes := s.processes[pid := DropCode], tally := Tally(0, n + 1))
  {
  }

  /** So do n verifications one after another, if each dies before it counts its guess. */
  lemma {:induction false} DeathIsUnbounded(n: nat) returns (events: seq<Event>)
    ensures ValidRun(NOTHING, events) && OrderlyRun(NOTHING, events, true, false)
    ensures Guessed(Run(NOTHING, events), n) && Run(NOTHING, events).processes == map[]
  {
    hide Run, ValidRun, OrderlyRun;
    if n == 0 {
      events := CodeSent(true, false);
    } else {
      events := DeathIsUnbounded(n - 1);
      var s, begin := Run(NOTHING, events), Begin(0, ReadCode("no"));
      OneMoreGuess(s, 0, n - 1);
      Append(NOTHING, events, begin, true, false);
      Append(NOTHING, events + [begin], Command(0), true, false);
      Append(NOTHING, events + [begin] + [Command(0)], Die(0), true, false);
      assert map[0 := CountFail] - {0} == map[];
      events := events + [begin] + [Command(0)] + [Die(0)];
    }
  }

  // ---- Whole requests ----

  /** A request run to its end while nothing else moves. */
  function Finish(k: Keys, now: int, t: Tally, p: Process): (Keys, Tally)
    decreases StepsLeft(p)
  {
    var (keys, tally, next) := After(k, now, t, p);
    if next.None? then (keys, tally) else Finish(keys, now, tally, next.value)
  }

  function StepsLeft(p: Process): nat {
    match p
    case ReadCode(_) => 4
    case CountFail => 3
    case DropCode => 2
    case DropFails => 1
    case ReadCooldown(_) => 3
    case StoreCode(_) => 2
    case StoreCooldown => 1
  }

  /** A verification run alone is a guess of the sequential runs. */
  lemma VerificationAlone(k: Keys, now: int, t: Tally, guess: string)
    ensures Finish(k, now, t, ReadCode(guess)) ==
            (AfterGuess(k, now, guess),
             if WrongGuess(k, now, guess) then t.(wrong := t.wrong + 1)
             else if Live(k.code, now).Some? then t.(accepted := t.accepted + 1) else t)
  {
    if WrongGuess(k, now, guess) {
      var t' := t.(wrong := t.wrong + 1);
      assert Finish(k, now, t, ReadCode(guess)) == Finish(k, now, t', CountFail);
      var counted := k.(fails := Some(Incremented(k.fails, now)));
      if counted.fails.value.value > OTP_MAX_FAILS {
        assert Finish(k, now, t', CountFail) == Finish(counted, now, t', DropCode);
      }
    } else if Live(k.code, now).Some? {
      assert Finish(k, now, t, ReadCode(guess)) == Finish(k, now, t.(accepted := t.accepted + 1), DropCode);
    }
  }

  /** A send run alone is a send of the sequential runs. */
  lemma SendAlone(k: Keys, now: int, t: Tally, code: string)
    ensures Finish(k, now, t, ReadCooldown(code)) ==
            (AfterSend(k, now, code), if Live(k.cooldown, now).Some? then t else Tally(0, 0))
  {
    if Live(k.cooldown, now).None? {
      assert Finish(k, now, t, ReadCooldown(code)) == Finish(k, now, t, StoreCode(code));
      var stored := k.(code := Some(Entry(code, now + OTP_TTL)));
      assert Finish(k, now, t, StoreCode(code)) == Finish(stored, now, Tally(0, 0), StoreCooldown);
    }
  }

  /** And running alone is one of the interleavings. */
  lemma {:induction false} FinishIsARun(s: State, pid: int) returns (events: seq<Event>)
    requires pid in s.processes
    ensures ValidRun(s, events)
    ensures var (keys, tally) := Finish(s.keys, s.now, s.tally, s.processes[pid]);
            Run(s, events) == State(keys, s.now, s.processes - {pid}, tally)
    decreases StepsLeft(s.processes[pid])
  {
    var e := Command(pid);
    var s' := Next(s, e);
    if pid in s'.processes {
      var rest := FinishIsARun(s', pid);
      events := [e] + rest;
      assert events[1..] == rest && s'.processes - {pid} == s.processes - {pid};
    } else {
      events := [e];
      assert ValidRun(s', []) && Run(s', []) == s';
    }
  }

  // ---- Sequential runs ----

  lemma {:induction false} FinishOrderly(s: State, pid: int) returns (events: seq<Event>)
    requires pid in s.processes
    ensures ValidRun(s, events) && OrderlyRun(s, events, true, true)
    ensures var (keys, tally) := Finish(s.keys, s.now, s.tally, s.processes[pid]);
            Run(s, events) == State(keys, s.now, s.processes - {pid}, tally)
    decreases StepsLeft(s.processes[pid])
  {
    var e := Command(pid);
    var s' := Next(s, e);
    if pid in s'.processes {
      var rest := FinishOrderly(s', pid);
      events := [e] + rest;
      assert events[1..] == rest && s'.processes - {pid} == s.processes - {pid};
    } else {
      events := [e];
      assert ValidRun(s', []) && Run(s', []) == s' && OrderlyRun(s', [], true, true);
    }
  }

  lemma {:induction false} Concat(s: State, a: seq<Event>, b: seq<Event>)
    requires ValidRun(s, a) && OrderlyRun(s, a, true, true) && ValidRun(Run(s, a), b) && OrderlyRun(Run(s, a), b, true, true)
    ensures ValidRun(s, a + b) && OrderlyRun(s, a + b, true, true) && Run(s, a + b) == Run(Run(s, a), b)
    decreases |a|
  {
    hide Enabled, Next, Apart, Survives;
    if a == [] {
      assert a + b == b;
    } else {
      Concat(Next(s, a[0]), a[1..], b);
      assert (a + b)[1..] == a[1..] + b;
    }
  }

  /** Every sequential run is an orderly run of the commands, with the same keys and the same wrong guesses. */
  lemma {:induction false} SequentialRunsAreOrderly(events: seq<Otp.Event>) returns (commands: seq<Event>)
    requires Otp.Ordered(events) && forall i | 0 <= i < |events| :: 0 <= events[i].now
    ensures ValidRun(NOTHING, commands) && OrderlyRun(NOTHING, commands, true, true)
    ensures var s, h := Run(NOTHING, commands), Otp.Run(NO_CODES, events);
            && s.processes == map[] && s.keys == h.keys && s.tally.wrong == h.wrong
            && s.now == if events == [] then 0 else events[|events| - 1].now
  {
    if events == [] {
      commands := [];
    } else {
      var n := |events| - 1;
      var before := SequentialRunsAreOrderly(events[..n]);
      var last := OneRequest(Run(NOTHING, before), events[n]);
      Concat(NOTHING, before, last);
      commands := before + last;
    }
  }

  /** One request alone, at its time. */
  lemma OneRequest(s: State, e: Otp.Event) returns (commands: seq<Event>)
    requires s.processes == map[] && s.now <= e.now
    ensures ValidRun(s, commands) && OrderlyRun(s, commands, true, true)
    ensures var s', h := Run(s, commands), Otp.Step(History(s.keys, s.tally.wrong), e);
            s'.processes == map[] && s'.now == e.now && s'.keys == h.keys && s'.tally.wrong == h.wrong
  {
    var p := match e case Send(_, code) => ReadCooldown(code) case Guess(_, guess) => ReadCode(guess);
    var begin := Begin(0, p);
    var s1 := Next(s, Tick(e.now));
    var s2 := Next(s1, begin);
    if e.Send? {
      SendAlone(s.keys, e.now, s.tally, e.code);
    } else {
      VerificationAlone(s.keys, e.now, s.tally, e.guess);
    }
    var rest := FinishOrderly(s2, 0);
    assert s2.processes - {0} == map[];
    hide Finish, After;
    assert ([begin] + rest)[1..] == rest && ([Tick(e.now)] + ([begin] + rest))[1..] == [begin] + rest;
    commands := [Tick(e.now)] + ([begin] + rest);
  }

  /** So the bound of ten is reached by an orderly run. */
  lemma TenIsReachedOrderly() returns (commands: seq<Event>)
    ensures ValidRun(NOTHING, commands) && OrderlyRun(NOTHING, commands, true, true) && Run(NOTHING, commands).tally.wrong == 10
  {
    TenGuessesCounted();
    TenGuessesTimed();
    hide TenGuesses, Otp.Run, Run, ValidRun, OrderlyRun;
    commands := SequentialRunsAreOrderly(TenGuesses());
  }
}
