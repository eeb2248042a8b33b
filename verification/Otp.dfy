/**
 E-mail one-time codes: the code, its resend cooldown and the counter of wrong guesses, three
 Redis keys with expiries, in seconds. A key is live up to and including its expiry. The counter
 is not cleared when a new code is sent.
 */
module Otp {
  import opened Common

  const OTP_TTL := 300
  const OTP_COOLDOWN_SECONDS := 60
  const OTP_MAX_FAILS := 5

  datatype Entry<+V> = Entry(value: V, expiry: int)

  datatype Keys = Keys(code: Option<Entry<string>>, cooldown: Option<Entry<string>>, fails: Option<Entry<nat>>)

  datatype Outcome = Verified | InvalidCode | AttemptsExceeded | UserNotFound

  function Live<V>(e: Option<Entry<V>>, now: int): Option<Entry<V>> {
    if e.Some? && now <= e.value.expiry then e else None
  }

  function AfterSend(k: Keys, now: int, code: string): Keys {
    if Live(k.cooldown, now).Some? then k
    else k.(code := Some(Entry(code, now + OTP_TTL)), cooldown := Some(Entry("1", now + OTP_COOLDOWN_SECONDS)))
  }

  /** A guess is compared with a code only while one is stored. */
  predicate WrongGuess(k: Keys, now: int, guess: string) {
    Live(k.code, now).Some? && k.code.value.value != guess
  }

  /** incrWithTtlOnFirst: the first increment starts the counter's window, later ones keep it. */
  function Incremented(fails: Option<Entry<nat>>, now: int): Entry<nat> {
    var n := (if Live(fails, now).Some? then fails.value.value else 0) + 1;
    Entry(n, if n == 1 then now + OTP_TTL else fails.value.expiry)
  }

  /** The counter after increments at each of the times. */
  function CounterAfter(fails: Option<Entry<nat>>, times: seq<int>): Option<Entry<nat>> {
    if times == [] then fails else Some(Incremented(CounterAfter(fails, times[..|times| - 1]), times[|times| - 1]))
  }

  /** Increments within the window of the first are all counted, and the window is that of the first. */
  lemma {:induction false} CounterCountsItsWindow(fails: Option<Entry<nat>>, times: seq<int>)
    requires times != [] && Live(fails, times[0]).None?
    requires forall i | 0 <= i < |times| :: times[0] <= times[i] <= times[0] + OTP_TTL
    ensures CounterAfter(fails, times) == Some(Entry(|times|, times[0] + OTP_TTL))
  {
    if |times| > 1 {
      CounterCountsItsWindow(fails, times[..|times| - 1]);
    } else {
      assert CounterAfter(fails, times[..0]) == fails;
    }
  }

  function AfterGuess(k: Keys, now: int, guess: string): Keys {
    if Live(k.code, now).None? then k
    else if k.code.value.value == guess then k.(code := None, fails := None)
    else
      var fails := Incremented(k.fails, now);
      if fails.value > OTP_MAX_FAILS then k.(code := None, fails := None) else k.(fails := Some(fails))
  }

  /** The keys of one e-mail address, for sign-up or for a password reset; the two flows use keys of their own. */
  class EmailCodes {
    var code: Option<Entry<string>>
    var cooldown: Option<Entry<string>>
    var fails: Option<Entry<nat>>

    function Contents(): Keys
      reads this
    {
      Keys(code, cooldown, fails)
    }

    constructor ()
      ensures Contents() == Keys(None, None, None)
    {
      code, cooldown, fails := None, None, None;
    }

    method SendEmailCode(now: int, newCode: string) returns (sent: bool)
      modifies this
      ensures Contents() == AfterSend(old(Contents()), now, newCode)
      ensures sent <==> Live(old(cooldown), now).None?
    {
      if cooldown.Some? && now <= cooldown.value.expiry {
        return false;
      }
      code := Some(Entry(newCode, now + OTP_TTL));
      cooldown := Some(Entry("1", now + OTP_COOLDOWN_SECONDS));
      return true;
    }

    method IncrWithTtlOnFirst(now: int) returns (n: nat)
      modifies this`fails
      ensures fails == Some(Incremented(old(fails), now)) && n == fails.value.value >= 1
      ensures n > 1 ==> Live(old(fails), now).Some? && fails.value.expiry == old(fails).value.expiry
      ensures n == 1 ==> fails.value.expiry == now + OTP_TTL
    {
      n := (if fails.Some? && now <= fails.value.expiry then fails.value.value else 0) + 1;
      fails := Some(Entry(n, if n == 1 then now + OTP_TTL else fails.value.expiry));
    }

    method VerifyEmailCode(now: int, guess: string) returns (r: Outcome)
      modifies this`code, this`fails
      ensures Contents() == AfterGuess(old(Contents()), now, guess)
      ensures r == Verified <==> Live(old(code), now).Some? && old(code).value.value == guess
      ensures r == Verified || r == AttemptsExceeded ==> code == None && fails == None
      ensures r == AttemptsExceeded <==> WrongGuess(old(Contents()), now, guess)
                                         && Incremented(old(fails), now).value > OTP_MAX_FAILS
      ensures r != UserNotFound
    {
      var stored := if code.Some? && now <= code.value.expiry then Some(code.value.value) else None;
      if stored.None? || stored.value != guess {
        if stored.Some? {
          var count := IncrWithTtlOnFirst(now);
          if count > OTP_MAX_FAILS {
            code := None;
            fails := None;
            return AttemptsExceeded;
          }
        }
        return InvalidCode;
      }
      code := None;
      fails := None;
      return Verified;
    }

    /** A reset code goes only to an address with a local account; the answer does not tell. */
    method PasswordResetRequest(now: int, newCode: string, hasAccount: bool) returns (sent: bool)
      modifies this
      ensures Contents() == if hasAccount then AfterSend(old(Contents()), now, newCode) else old(Contents())
      ensures sent <==> !hasAccount || Live(old(cooldown), now).None?
    {
      if !hasAccount {
        return true;
      }
      sent := SendEmailCode(now, newCode);
    }

    /** The right code is used up even when the account is gone by then. */
    method PasswordResetConfirm(now: int, guess: string, hasAccount: bool) returns (r: Outcome)
      modifies this`code, this`fails
      ensures Contents() == AfterGuess(old(Contents()), now, guess)
      ensures r == Verified <==> hasAccount && Live(old(code), now).Some? && old(code).value.value == guess
      ensures r == UserNotFound <==> !hasAccount && Live(old(code), now).Some? && old(code).value.value == guess
      ensures r == AttemptsExceeded <==> WrongGuess(old(Contents()), now, guess)
                                         && Incremented(old(fails), now).value > OTP_MAX_FAILS
    {
      r := VerifyEmailCode(now, guess);
      if r == Verified && !hasAccount {
        return UserNotFound;
      }
    }
  }

  // ---- Runs ----

  datatype Event = Send(now: int, code: string) | Guess(now: int, guess: string)

  /** The keys, and how many wrong guesses were compared with the code issued last. */
  datatype History = History(keys: Keys, wrong: nat)

  const NO_CODES := History(Keys(None, None, None), 0)

  function Step(h: History, e: Event): History {
    match e
    case Send(now, code) =>
      History(AfterSend(h.keys, now, code), if Live(h.keys.cooldown, now).Some? then h.wrong else 0)
    case Guess(now, guess) =>
      History(AfterGuess(h.keys, now, guess), if WrongGuess(h.keys, now, guess) then h.wrong + 1 else h.wrong)
  }

  function Run(h: History, events: seq<Event>): History {
    if events == [] then h else Step(Run(h, events[..|events| - 1]), events[|events| - 1])
  }

  predicate Ordered(events: seq<Event>) {
    forall i, j | 0 <= i < j < |events| :: events[i].now <= events[j].now
  }

  /**
   A counter window opened before the code was issued leaves it at most four guesses; one opened
   later outlives the code, so there is no third.
   */
  predicate Inv(h: History, now: int) {
    && h.wrong <= 10
    && (h.keys.fails.Some? ==> 1 <= h.keys.fails.value.value <= OTP_MAX_FAILS)
    && (h.keys.code.Some? ==>
        && h.keys.code.value.expiry <= now + OTP_TTL
        && (h.keys.fails.None? ==> h.wrong <= 4)
        && (h.keys.fails.Some? ==>
            h.wrong <= if h.keys.fails.value.expiry < h.keys.code.value.expiry
                       then h.keys.fails.value.value - 1 else h.keys.fails.value.value + 4))
  }

  lemma StepKeepsInv(h: History, before: int, e: Event)
    requires before <= e.now && Inv(h, before)
    ensures Inv(Step(h, e), e.now)
  {
  }

  /** In any sequential run at most ten wrong guesses are ever compared with one issued code. */
  lemma {:induction false} AttemptBound(events: seq<Event>)
    requires Ordered(events)
    ensures Run(NO_CODES, events).wrong <= 10
    ensures Inv(Run(NO_CODES, events), if events == [] then 0 else events[|events| - 1].now)
  {
    if events != [] {
      var init, e := events[..|events| - 1], events[|events| - 1];
      AttemptBound(init);
      StepKeepsInv(Run(NO_CODES, init), if init == [] then e.now else init[|init| - 1].now, e);
    }
  }

  /** What a guess does to the keys: the right one uses the code up, the sixth wrong one of a window takes it away. */
  lemma GuessEffects(k: Keys, now: int, guess: string)
    requires k.code.Some?
    ensures var k', live := AfterGuess(k, now, guess), now <= k.code.value.expiry;
            var counted := if k.fails.Some? && now <= k.fails.value.expiry then k.fails.value.value else 0;
            && k'.cooldown == k.cooldown
            && (!live ==> k' == k)
            && (live && guess == k.code.value.value ==> k'.code == None && k'.fails == None)
            && (live && guess != k.code.value.value && counted >= 5 ==> k'.code == None && k'.fails == None)
            && (live && guess != k.code.value.value && counted < 5 ==>
                k'.code == k.code && k'.fails.Some? && k'.fails.value.value == counted + 1
                && k'.fails.value.expiry == if counted > 0 then k.fails.value.expiry else now + 300)
  {
  }

  /** Once a code has been accepted, no guess is, at any later time, until another is sent. */
  lemma AcceptedOnceOnly(k: Keys, now: int, guess: string, later: int, other: string)
    requires Live(k.code, now).Some? && k.code.value.value == guess
    ensures var k' := AfterGuess(k, now, guess);
            Live(k'.code, later).None? && AfterGuess(k', later, other) == k' && !WrongGuess(k', later, other)
  {
  }

  /** How often a code was accepted since one was last sent. */
  function Acceptances(events: seq<Event>): nat {
    if events == [] then 0
    else
      var init, e := events[..|events| - 1], events[|events| - 1];
      var k := Run(NO_CODES, init).keys;
      match e
      case Send(now, _) => if k.cooldown.Some? && now <= k.cooldown.value.expiry then Acceptances(init) else 0
      case Guess(now, guess) =>
        Acceptances(init) + if k.code.Some? && now <= k.code.value.expiry && k.code.value.value == guess then 1 else 0
  }

  /** In every sequential run a code is accepted at most once. */
  lemma {:induction false} CodeWorksOnce(events: seq<Event>)
    ensures Acceptances(events) <= 1
    ensures Run(NO_CODES, events).keys.code.Some? ==> Acceptances(events) == 0
  {
    if events != [] {
      CodeWorksOnce(events[..|events| - 1]);
    }
  }

  /** A send outside the cooldown stores its code for five minutes and a cooldown of one; the counter stays. */
  lemma SendEffects(k: Keys, now: int, code: string)
    ensures var k' := AfterSend(k, now, code);
            && k'.fails == k.fails
            && (if k.cooldown.Some? && now <= k.cooldown.value.expiry then k' == k
                else k'.code == Some(Entry(code, now + 300)) && k'.cooldown == Some(Entry("1", now + 60)))
  {
  }

  function Burst(now: int, guess: string, n: nat): seq<Event> {
    if n == 0 then [] else Burst(now, guess, n - 1) + [Guess(now, guess)]
  }

  /** n wrong guesses later, while the counter still has room for them. */
  function Counted(h: History, now: int, n: nat): History {
    var live := Live<nat>(h.keys.fails, now);
    if n == 0 then h
    else History(h.keys.(fails := Some(match live
                                       case None => Entry(n, now + OTP_TTL)
                                       case Some(e) => Entry(e.value + n, e.expiry))), h.wrong + n)
  }

  predicate HasRoom(h: History, now: int, n: nat) {
    match Live(h.keys.fails, now)
    case None => n <= OTP_MAX_FAILS
    case Some(e) => 0 < e.value && e.value + n <= OTP_MAX_FAILS
  }

  lemma OneMore(h: History, now: int, guess: string, n: nat)
    requires WrongGuess(h.keys, now, guess) && HasRoom(h, now, n + 1)
    ensures Step(Counted(h, now, n), Guess(now, guess)) == Counted(h, now, n + 1)
  {
  }

  lemma {:induction false} BurstCounts(h: History, now: int, guess: string, n: nat)
    requires WrongGuess(h.keys, now, guess) && HasRoom(h, now, n)
    ensures Run(h, Burst(now, guess, n)) == Counted(h, now, n)
  {
    hide Counted, HasRoom, Step, WrongGuess, Run;
    if n > 0 {
      LessRoom(h, now, n - 1, n);
      BurstCounts(h, now, guess, n - 1);
      OneMore(h, now, guess, n - 1);
      RunAppend(h, Burst(now, guess, n - 1), Guess(now, guess));
    } else {
      NoEvents(h, now);
    }
  }

  lemma LessRoom(h: History, now: int, m: nat, n: nat)
    requires HasRoom(h, now, n) && m <= n
    ensures HasRoom(h, now, m)
  {
  }

  lemma NoEvents(h: History, now: int)
    ensures Run(h, []) == Counted(h, now, 0)
  {
  }

  lemma RunAppend(h: History, events: seq<Event>, e: Event)
    ensures Run(h, events + [e]) == Step(Run(h, events), e)
  {
    assert (events + [e])[..|events|] == events;
  }

  /** A wrong guess at once, a new code at 100, four guesses as the old counter lapses, five more, and a last one. */
  function TenGuesses(): seq<Event> {
    [Send(0, "first")] + [Guess(0, "no")] + [Send(100, "code")] + Burst(300, "no", 4) + Burst(301, "no", 5) + [Guess(301, "no")]
  }

  lemma {:induction false} RunConcat(h: History, a: seq<Event>, b: seq<Event>)
    ensures Run(h, a + b) == Run(Run(h, a), b)
    decreases |b|
  {
    if b == [] {
      assert a + b == a;
    } else {
      var init := b[..|b| - 1];
      RunConcat(h, a, init);
      assert (a + b)[..|a + b| - 1] == a + init;
    }
  }

  /** A counter opened before a code was issued still counts against it. */
  lemma CodeReissued()
    ensures Run(NO_CODES, [Send(0, "first")] + [Guess(0, "no")] + [Send(100, "code")]) ==
            History(Keys(Some(Entry("code", 400)), Some(Entry("1", 160)), Some(Entry(1, 300))), 0)
  {
    var sent, guess, again := Send(0, "first"), Guess(0, "no"), Send(100, "code");
    assert Run(NO_CODES, []) == NO_CODES && "first" != "no";
    hide Run;
    RunAppend(NO_CODES, [], sent);
    assert [] + [sent] == [sent];
    RunAppend(NO_CODES, [sent], guess);
    RunAppend(NO_CODES, [sent] + [guess], again);
  }

  lemma TenGuessesCounted()
    ensures Run(NO_CODES, TenGuesses()) == History(Keys(None, Some(Entry("1", 160)), None), 10)
  {
    assert "code" != "no";
    hide Run;
    CodeReissued();
    var issued := [Send(0, "first")] + [Guess(0, "no")] + [Send(100, "code")];
    var h := Run(NO_CODES, issued);
    BurstCounts(h, 300, "no", 4);
    RunConcat(NO_CODES, issued, Burst(300, "no", 4));
    var h' := Run(h, Burst(300, "no", 4));
    BurstCounts(h', 301, "no", 5);
    RunConcat(NO_CODES, issued + Burst(300, "no", 4), Burst(301, "no", 5));
    RunAppend(NO_CODES, issued + Burst(300, "no", 4) + Burst(301, "no", 5), Guess(301, "no"));
  }

  predicate Timed(events: seq<Event>, from: int, to: int) {
    Ordered(events) && forall i | 0 <= i < |events| :: from <= events[i].now <= to
  }

  lemma TimedConcat(a: seq<Event>, b: seq<Event>, from: int, mid: int, next: int, to: int)
    requires from <= mid <= next <= to && Timed(a, from, mid) && Timed(b, next, to)
    ensures Timed(a + b, from, to)
  {
  }

  lemma {:induction false} BurstTimed(now: int, guess: string, n: nat)
    ensures Timed(Burst(now, guess, n), now, now)
  {
    if n > 0 {
      BurstTimed(now, guess, n - 1);
      TimedConcat(Burst(now, guess, n - 1), [Guess(now, guess)], now, now, now, now);
    }
  }

  lemma TenGuessesTimed()
    ensures Timed(TenGuesses(), 0, 301)
  {
    var sent, guess, again, last := [Send(0, "first")], [Guess(0, "no")], [Send(100, "code")], [Guess(301, "no")];
    assert Timed(sent, 0, 0) && Timed(guess, 0, 0) && Timed(again, 100, 100) && Timed(last, 301, 301);
    hide Timed, Burst;
    BurstTimed(300, "no", 4);
    BurstTimed(301, "no", 5);
    TimedConcat(sent, guess, 0, 0, 0, 0);
    TimedConcat(sent + guess, again, 0, 0, 100, 100);
    TimedConcat(sent + guess + again, Burst(300, "no", 4), 0, 100, 300, 300);
    TimedConcat(sent + guess + again + Burst(300, "no", 4), Burst(301, "no", 5), 0, 300, 301, 301);
    TimedConcat(sent + guess + again + Burst(300, "no", 4) + Burst(301, "no", 5), last, 0, 301, 301, 301);
  }

  /** The bound of ten is reached by a run from no keys at all. */
  lemma TenIsReached()
    ensures exists events :: Ordered(events) && Run(NO_CODES, events).wrong == 10
  {
    TenGuessesCounted();
    TenGuessesTimed();
    hide Run, TenGuesses, Ordered;
  }
}
