/**
 The rate limiter: a Lua script that Redis runs atomically on a hit counter and a block marker.
 A Redis key with an expiry is live up to and including that instant, so its remaining time may be
 read as 0. A request is admitted when the script reports that it is not blocked.
 */
module Throttler {
  import opened Common

  datatype Hits = Hits(count: nat, expiry: int)

  datatype Record = Record(totalHits: nat, timeToExpire: int, isBlocked: bool, timeToBlockExpire: int)

  datatype Limits = Limits(ttl: nat, limit: nat, blockDuration: nat)

  /** The two keys of one client. */
  datatype Keys = Keys(hits: Option<Hits>, block: Option<int>)

  function LiveHits(k: Keys, now: int): Option<Hits> {
    if k.hits.Some? && now <= k.hits.value.expiry then k.hits else None
  }

  function LiveBlock(k: Keys, now: int): Option<int> {
    if k.block.Some? && now <= k.block.value then k.block else None
  }

  /** A script call gives the hit counter a fresh life when it finds none, or when it finds a block with no time left. */
  predicate StartsLife(k: Keys, now: int) {
    LiveHits(k, now).None? || LiveBlock(k, now) == Some(now)
  }

  predicate Admits(k: Keys, now: int, c: Limits) {
    match LiveBlock(k, now)
    case Some(expiry) => expiry == now
    case None => 1 + (if LiveHits(k, now).Some? then k.hits.value.count else 0) <= c.limit
  }

  /** The counter and the marker after a script call. */
  function AfterCall(k: Keys, now: int, c: Limits): Keys {
    var live := LiveHits(k, now);
    var counted := match live
      case None => Hits(1, now + c.ttl)
      case Some(h) => Hits(h.count + 1, if h.expiry == now then now + c.ttl else h.expiry);
    match LiveBlock(k, now)
    case Some(expiry) => if expiry == now then Keys(Some(Hits(1, now + c.ttl)), None) else Keys(Some(counted), Some(expiry))
    case None => Keys(Some(counted), if counted.count > c.limit then Some(now + c.blockDuration) else None)
  }

  /** Math.ceil(ms / 1000). */
  function CeilSeconds(ms: int): int {
    (ms + 999) / 1000
  }

  /** The fewest whole seconds that cover so many milliseconds. */
  predicate RoundsUp(ms: int, seconds: int) {
    1000 * (seconds - 1) < ms <= 1000 * seconds
  }

  /** Rounding up gives the least number of whole seconds that is not less. */
  lemma SecondsExactly(ms: int, seconds: int)
    ensures CeilSeconds(ms) == seconds <==> 1000 * seconds >= ms && 1000 * seconds < ms + 1000
    ensures RoundsUp(ms, seconds) <==> 1000 * seconds >= ms && 1000 * seconds < ms + 1000
  {
  }

  /** One client's keys in Redis. */
  class RedisThrottlerStorage {
    var hits: Option<Hits>
    var block: Option<int>

    function Contents(): Keys
      reads this
    {
      Keys(hits, block)
    }

    constructor ()
      ensures Contents() == Keys(None, None)
    {
      hits, block := None, None;
    }

    method Increment(now: int, c: Limits) returns (r: Record)
      requires c.ttl > 0 && c.blockDuration > 0
      modifies this
      ensures Contents() == AfterCall(old(Contents()), now, c)
      ensures !r.isBlocked <==> Admits(old(Contents()), now, c)
      ensures r.isBlocked ==> block.Some? && block.value > now && RoundsUp(block.value - now, r.timeToBlockExpire)
      ensures !r.isBlocked ==> r.timeToBlockExpire == 0
      ensures hits.Some? && r.totalHits == hits.value.count
      ensures hits.value.expiry > now && RoundsUp(hits.value.expiry - now, r.timeToExpire)
    {
      if hits.Some? && hits.value.expiry < now { hits := None; }
      if block.Some? && block.value < now { block := None; }

      var totalHits := (if hits.Some? then hits.value.count else 0) + 1;
      var timeToExpire := if hits.Some? then hits.value.expiry - now else -1;
      hits := Some(Hits(totalHits, now + timeToExpire));
      if timeToExpire <= 0 {
        hits := Some(Hits(totalHits, now + c.ttl));
        timeToExpire := c.ttl;
      }
      var isBlocked := block.Some?;
      var timeToBlockExpire := 0;
      if isBlocked {
        timeToBlockExpire := block.value - now;
      } else if totalHits > c.limit {
        block := Some(now + c.blockDuration);
        isBlocked := true;
        timeToBlockExpire := c.blockDuration;
      }
      if isBlocked && timeToBlockExpire <= 0 {
        block := None;
        hits := Some(Hits(1, now + c.ttl));
        totalHits := 1;
        timeToExpire := c.ttl;
        isBlocked := false;
      }
      r := Record(totalHits, CeilSeconds(timeToExpire), isBlocked, Max(0, CeilSeconds(timeToBlockExpire)));
    }
  }

  // ---- Runs: one client calling at any sequence of instants ----

  /** An admitted call, tagged with the life of the hit counter it belongs to, and the start of that life. */
  datatype Admission = Admission(time: int, life: nat, start: int)

  /** The keys, with the admissions so far and the life of the counter, its number and its start. */
  datatype History = History(keys: Keys, log: seq<Admission>, life: nat, start: int)

  const FRESH := History(Keys(None, None), [], 0, 0)

  function Call(h: History, now: int, c: Limits): History {
    var starts := StartsLife(h.keys, now);
    var life := if starts then h.life + 1 else h.life;
    var start := if starts then now else h.start;
    History(AfterCall(h.keys, now, c),
            if Admits(h.keys, now, c) then h.log + [Admission(now, life, start)] else h.log,
            life, start)
  }

  function Calls(h: History, times: seq<int>, c: Limits): History {
    if times == [] then h else Call(Calls(h, times[..|times| - 1], c), times[|times| - 1], c)
  }

  predicate Ordered(times: seq<int>) {
    forall i, j | 0 <= i < j < |times| :: times[i] <= times[j]
  }

  function InLife(log: seq<Admission>, life: nat): nat {
    if log == [] then 0 else InLife(log[..|log| - 1], life) + (if log[|log| - 1].life == life then 1 else 0)
  }

  /** Of the admissions of a life, those that came after the instant it started. */
  function LateInLife(log: seq<Admission>, life: nat): nat {
    if log == [] then 0
    else LateInLife(log[..|log| - 1], life) + (if log[|log| - 1].life == life && Late(log[|log| - 1]) then 1 else 0)
  }

  predicate Late(a: Admission) {
    a.start < a.time
  }

  function InWindow(log: seq<Admission>, from: int, to: int): nat {
    if log == [] then 0
    else InWindow(log[..|log| - 1], from, to) + (if from <= log[|log| - 1].time < to then 1 else 0)
  }

  /** Everything a run keeps that the bounds need. */
  ghost predicate Inv(h: History, now: int, c: Limits) {
    && (h.keys.hits.None? ==> h.log == [] && h.life == 0)
    && (h.keys.hits.Some? ==> h.start <= now && h.start + c.ttl <= h.keys.hits.value.expiry
                              && InLife(h.log, h.life) <= h.keys.hits.value.count
                              && LateInLife(h.log, h.life) < h.keys.hits.value.count)
    && (forall a | a in h.log :: a.life <= h.life && a.time <= now)
    && (forall l: nat :: InLife(h.log, l) <= c.limit && LateInLife(h.log, l) < c.limit)
    && (h.keys.block.Some? ==> forall a | a in h.log :: a.time <= h.keys.block.value - c.blockDuration)
  }

  /** How far apart the admissions of different lives are. */
  ghost predicate Spaced(h: History, c: Limits) {
    && (forall a | a in h.log && a.life < h.life :: a.time <= h.start)
    && (forall a | a in h.log && a.life + 1 < h.life :: a.time <= h.start - c.ttl)
    && (forall a, b | a in h.log && b in h.log && a.life + 1 < b.life :: a.time + c.ttl <= b.time)
  }

  /** And how far apart those of one life and the next are. */
  ghost predicate NextSpaced(h: History, c: Limits) {
    && (forall a | a in h.log && a.life == h.life :: a.start == h.start <= a.time)
    && (forall a | a in h.log && a.life + 1 == h.life :: a.start + c.ttl < h.start || a.time + c.ttl <= h.start)
    && (forall a, b | a in h.log && b in h.log && a.life + 1 == b.life :: a.start + c.ttl < b.time || a.time + c.ttl <= b.time)
  }

  lemma {:induction false} NoneInLife(log: seq<Admission>, life: nat)
    requires forall a | a in log :: a.life != life
    ensures InLife(log, life) == LateInLife(log, life) == 0
  {
    if log != [] {
      NoneInLife(log[..|log| - 1], life);
    }
  }

  lemma InLifeAppend(log: seq<Admission>, a: Admission, life: nat)
    ensures InLife(log + [a], life) == InLife(log, life) + if a.life == life then 1 else 0
    ensures LateInLife(log + [a], life) == LateInLife(log, life) + if a.life == life && Late(a) then 1 else 0
  {
    assert (log + [a])[..|log|] == log;
  }

  lemma CallKeepsInv(h: History, before: int, now: int, c: Limits)
    requires c.ttl > 0 && c.blockDuration > 0 && c.limit > 0
    requires before <= now && Inv(h, before, c)
    ensures Inv(Call(h, now, c), now, c)
  {
    hide InLife, LateInLife;
    var h' := Call(h, now, c);
    if StartsLife(h.keys, now) {
      NoneInLife(h.log, h.life + 1);
    }
    var a := Admission(now, h'.life, h'.start);
    forall l: nat
      ensures InLife(h'.log, l) <= c.limit && LateInLife(h'.log, l) < c.limit
      ensures l == h'.life ==> InLife(h'.log, l) <= h'.keys.hits.value.count && LateInLife(h'.log, l) < h'.keys.hits.value.count
    {
      InLifeAppend(h.log, a, l);
    }
  }

  lemma CallKeepsSpacing(h: History, before: int, now: int, c: Limits)
    requires 0 < c.ttl <= c.blockDuration
    requires before <= now && Inv(h, before, c) && Spaced(h, c)
    ensures Spaced(Call(h, now, c), c)
  {
    var h' := Call(h, now, c);
    if StartsLife(h.keys, now) && h.keys.hits.Some? {
      if LiveBlock(h.keys, now) == Some(now) {
        assert forall a | a in h.log :: a.time <= now - c.ttl;
      } else {
        assert h.start + c.ttl < now;
      }
    }
  }

  lemma CallKeepsNextSpacing(h: History, before: int, now: int, c: Limits)
    requires 0 < c.ttl <= c.blockDuration
    requires before <= now && Inv(h, before, c) && NextSpaced(h, c)
    ensures NextSpaced(Call(h, now, c), c)
  {
    hide InLife, LateInLife;
    if StartsLife(h.keys, now) && h.keys.hits.Some? {
      if LiveBlock(h.keys, now) == Some(now) {
        assert forall a | a in h.log :: a.time <= now - c.ttl;
      } else {
        assert h.start + c.ttl < now;
      }
    }
  }

  lemma {:induction false} RunKeepsInv(times: seq<int>, c: Limits)
    requires c.ttl > 0 && c.blockDuration > 0 && c.limit > 0 && Ordered(times)
    ensures Inv(Calls(FRESH, times, c), if times == [] then 0 else times[|times| - 1], c)
    ensures c.ttl <= c.blockDuration ==> Spaced(Calls(FRESH, times, c), c) && NextSpaced(Calls(FRESH, times, c), c)
  {
    if times == [] {
      forall l: nat ensures InLife(FRESH.log, l) <= c.limit && LateInLife(FRESH.log, l) < c.limit { NoneInLife([], l); }
    } else {
      var init, now := times[..|times| - 1], times[|times| - 1];
      RunKeepsInv(init, c);
      var before := if init == [] then now else init[|init| - 1];
      CallKeepsInv(Calls(FRESH, init, c), before, now, c);
      if c.ttl <= c.blockDuration {
        CallKeepsSpacing(Calls(FRESH, init, c), before, now, c);
        CallKeepsNextSpacing(Calls(FRESH, init, c), before, now, c);
      }
    }
  }

  /** Within one life of the hit counter at most `limit` calls are admitted, whenever they come. */
  lemma LifeBound(times: seq<int>, c: Limits, life: nat)
    requires c.ttl > 0 && c.blockDuration > 0 && c.limit > 0 && Ordered(times)
    ensures InLife(Calls(FRESH, times, c).log, life) <= c.limit
  {
    RunKeepsInv(times, c);
  }

  /** A call that sets the block at an instant silences the client until blockDuration later. */
  lemma {:induction false} NothingAdmittedWhileBlocked(h: History, times: seq<int>, c: Limits, expiry: int)
    requires h.keys.block == Some(expiry) && forall i | 0 <= i < |times| :: times[i] < expiry
    ensures Calls(h, times, c).log == h.log && Calls(h, times, c).keys.block == Some(expiry)
  {
    if times != [] {
      NothingAdmittedWhileBlocked(h, times[..|times| - 1], c, expiry);
    }
  }

  /** So a refused call leaves a block, of the full duration when it is new, that nothing gets past. */
  lemma RefusalSilences(h: History, now: int, times: seq<int>, c: Limits)
    requires !Admits(h.keys, now, c)
    ensures var block := Call(h, now, c).keys.block;
            && block.Some?
            && (LiveBlock(h.keys, now).None? ==> block.value == now + c.blockDuration)
            && ((forall i | 0 <= i < |times| :: times[i] < block.value) ==>
                Calls(Call(h, now, c), times, c).log == h.log)
  {
    var h' := Call(h, now, c);
    if forall i | 0 <= i < |times| :: times[i] < h'.keys.block.value {
      NothingAdmittedWhileBlocked(h', times, c, h'.keys.block.value);
    }
  }

  /** What lies in a window comes from two consecutive lives, of the earlier only its late admissions, or from one. */
  lemma {:induction false} WindowWithinLives(log: seq<Admission>, from: int, to: int, life: nat)
    ensures (forall a | a in log && from <= a.time < to :: a.life == life)
            ==> InWindow(log, from, to) <= InLife(log, life)
    ensures (forall a | a in log && from <= a.time < to :: (a.life == life && Late(a)) || a.life == life + 1)
            ==> InWindow(log, from, to) <= LateInLife(log, life) + InLife(log, life + 1)
  {
    if log != [] {
      WindowWithinLives(log[..|log| - 1], from, to, life);
    }
  }

  /** Of the admissions in a window, one is of the earliest life, if the window has any. */
  lemma {:induction false} EarliestInWindow(log: seq<Admission>, from: int, to: int) returns (first: Option<Admission>)
    ensures first.None? ==> InWindow(log, from, to) == 0
    ensures first.Some? ==> first.value in log && from <= first.value.time < to
    ensures first.Some? ==> forall a | a in log && from <= a.time < to :: first.value.life <= a.life
    ensures first.None? ==> forall a | a in log :: !(from <= a.time < to)
  {
    if log == [] {
      return None;
    }
    var init, last := log[..|log| - 1], log[|log| - 1];
    assert forall a :: a in log <==> a in init || a == last;
    first := EarliestInWindow(init, from, to);
    if from <= last.time < to && (first.None? || last.life < first.value.life) {
      first := Some(last);
    }
  }

  /**
   When a block lasts at least as long as the counter, any half-open stretch of time of length
   ttl admits fewer calls than twice the limit: not both all of one life and all of the next.
   */
  lemma WindowBound(times: seq<int>, c: Limits, from: int)
    requires 0 < c.ttl <= c.blockDuration && c.limit > 0 && Ordered(times)
    ensures InWindow(Calls(FRESH, times, c).log, from, from + c.ttl) < 2 * c.limit
  {
    hide Calls, InLife, LateInLife, InWindow;
    RunKeepsInv(times, c);
    var h := Calls(FRESH, times, c);
    var first := EarliestInWindow(h.log, from, from + c.ttl);
    if first.Some? {
      var life := first.value.life;
      WindowWithinLives(h.log, from, from + c.ttl, life);
      assert InLife(h.log, life) <= c.limit && LateInLife(h.log, life) < c.limit && InLife(h.log, life + 1) <= c.limit;
      hide Inv;
      if b :| b in h.log && from <= b.time < from + c.ttl && b.life != life {
        assert b.life == life + 1;
        forall a | a in h.log && from <= a.time < from + c.ttl ensures (a.life == life && Late(a)) || a.life == life + 1 {
          assert !(life + 1 < a.life);
        }
      }
    }
  }

  function Repeat(now: int, n: nat): seq<int> {
    if n == 0 then [] else Repeat(now, n - 1) + [now]
  }

  lemma {:induction false} CallsConcat(h: History, a: seq<int>, b: seq<int>, c: Limits)
    ensures Calls(h, a + b, c) == Calls(Calls(h, a, c), b, c)
    decreases |b|
  {
    if b == [] {
      assert a + b == a;
    } else {
      var init := b[..|b| - 1];
      CallsConcat(h, a, init, c);
      assert (a + b)[..|a + b| - 1] == a + init;
    }
  }

  /** A call to a live counter with room, or to none, is admitted. */
  lemma CallAdmitted(h: History, now: int, c: Limits, from: int, to: int)
    requires h.keys.block.None? && c.ttl > 0 && c.limit > 0
    requires h.keys.hits.Some? && now <= h.keys.hits.value.expiry ==>
             now < h.keys.hits.value.expiry && h.keys.hits.value.count < c.limit
    ensures var h' := Call(h, now, c);
            && h'.keys.block.None? && h'.keys.hits.Some?
            && h'.keys.hits.value == (if LiveHits(h.keys, now).None? then Hits(1, now + c.ttl)
                                      else Hits(h.keys.hits.value.count + 1, h.keys.hits.value.expiry))
            && InWindow(h'.log, from, to) == InWindow(h.log, from, to) + if from <= now < to then 1 else 0
  {
    hide InWindow;
    var h' := Call(h, now, c);
    InWindowAppend(h.log, Admission(now, h'.life, h'.start), from, to);
  }

  /** So are calls one after another at one instant, while there is room. */
  lemma {:induction false} BurstAdmitted(h: History, now: int, n: nat, c: Limits, from: int, to: int)
    requires h.keys.hits.Some? && h.keys.block.None? && now < h.keys.hits.value.expiry && c.ttl > 0
    requires h.keys.hits.value.count + n <= c.limit && from <= now < to
    ensures var h', hits := Calls(h, Repeat(now, n), c), h.keys.hits.value;
            && h'.keys == Keys(Some(Hits(hits.count + n, hits.expiry)), None)
            && InWindow(h'.log, from, to) == InWindow(h.log, from, to) + n
    decreases n
  {
    if n > 0 {
      BurstAdmitted(h, now, n - 1, c, from, to);
      hide InWindow, Call;
      CallAdmitted(Calls(h, Repeat(now, n - 1), c), now, c, from, to);
    }
  }

  lemma {:induction false} LifeFilled(h: History, before: seq<int>, now: int, c: Limits, from: int, to: int)
    requires h == Calls(FRESH, before, c) && h.keys.block.None? && LiveHits(h.keys, now).None?
    requires c.ttl > 0 && c.limit > 0 && from <= now < to
    ensures var h' := Calls(FRESH, before + [now] + Repeat(now, c.limit - 1), c);
            && h'.keys == Keys(Some(Hits(c.limit, now + c.ttl)), None)
            && InWindow(h'.log, from, to) == InWindow(h.log, from, to) + c.limit
  {
    hide InWindow, Call, Calls;
    CallsAppend(before, now, c);
    CallAdmitted(h, now, c, from, to);
    BurstAdmitted(Call(h, now, c), now, c.limit - 1, c, from, to);
    CallsConcat(FRESH, before + [now], Repeat(now, c.limit - 1), c);
  }

  lemma FirstCall(c: Limits, from: int, to: int)
    requires c.limit > 0 && 0 < from && 0 < c.ttl
    ensures var h := Calls(FRESH, [0], c);
            h.keys == Keys(Some(Hits(1, c.ttl)), None) && InWindow(h.log, from, to) == 0
  {
    assert Calls(FRESH, [0], c) == Call(Calls(FRESH, [], c), 0, c);
    hide InWindow;
    assert [] + [Admission(0, 1, 0)] == [Admission(0, 1, 0)];
    InWindowAppend([], Admission(0, 1, 0), from, to);
    EmptyWindow(from, to);
  }

  lemma EmptyWindow(from: int, to: int)
    ensures InWindow([], from, to) == 0
  {
  }

  lemma LifeHeldBack(c: Limits, from: int, to: int)
    requires c.limit > 0 && 0 < from < c.ttl && from < to
    ensures var h := Calls(FRESH, [0] + Repeat(from, c.limit - 1), c);
            && h.keys == Keys(Some(Hits(c.limit, c.ttl)), None)
            && InWindow(h.log, from, to) == c.limit - 1
  {
    hide InWindow, Call, Calls, Repeat;
    FirstCall(c, from, to);
    BurstAdmitted(Calls(FRESH, [0], c), from, c.limit - 1, c, from, to);
    CallsConcat(FRESH, [0], Repeat(from, c.limit - 1), c);
  }

  /** One less than twice the limit is reached: a call, all its life leaves just before it lapses, and all of the next. */
  lemma WindowBoundIsReached(c: Limits)
    requires c.ttl > 2 && c.limit > 0
    ensures exists times :: Ordered(times) && InWindow(Calls(FRESH, times, c).log, c.ttl - 1, 2 * c.ttl - 1) == 2 * c.limit - 1
  {
    hide InWindow, Calls, Call, Repeat, Ordered;
    var from, to := c.ttl - 1, 2 * c.ttl - 1;
    var before := [0] + Repeat(from, c.limit - 1);
    var times := before + [c.ttl + 1] + Repeat(c.ttl + 1, c.limit - 1);
    LifeHeldBack(c, from, to);
    LifeFilled(Calls(FRESH, before, c), before, c.ttl + 1, c, from, to);
    BurstsOrdered(from, c.ttl + 1, c.limit - 1);
  }

  lemma BurstsOrdered(from: int, next: int, n: nat)
    requires 0 <= from <= next
    ensures Ordered([0] + Repeat(from, n) + [next] + Repeat(next, n))
  {
    RepeatIsConstant(from, n);
    RepeatIsConstant(next, n);
    hide Repeat;
  }

  lemma {:induction false} RepeatIsConstant(now: int, n: nat)
    ensures forall i | 0 <= i < |Repeat(now, n)| :: Repeat(now, n)[i] == now
  {
    if n > 0 {
      RepeatIsConstant(now, n - 1);
    }
  }

  lemma CallsAppend(times: seq<int>, now: int, c: Limits)
    ensures Calls(FRESH, times + [now], c) == Call(Calls(FRESH, times, c), now, c)
  {
    assert (times + [now])[..|times|] == times;
  }

  lemma InWindowAppend(log: seq<Admission>, a: Admission, from: int, to: int)
    ensures InWindow(log + [a], from, to) == InWindow(log, from, to) + if from <= a.time < to then 1 else 0
  {
    assert (log + [a])[..|log|] == log;
  }

  /** A call to a full counter is refused and sets the block. */
  lemma CallRefused(h: History, now: int, c: Limits)
    requires h.keys.block.None? && c.limit > 0
    requires h.keys.hits.Some? && now < h.keys.hits.value.expiry && h.keys.hits.value.count == c.limit
    ensures var h' := Call(h, now, c);
            h'.log == h.log
            && h'.keys == Keys(Some(Hits(c.limit + 1, h.keys.hits.value.expiry)), Some(now + c.blockDuration))
  {
  }

  /** While a block is live every call is still counted, and the block stays as it is. */
  lemma CallWhileBlocked(h: History, now: int, c: Limits)
    requires h.keys.block.Some? && now < h.keys.block.value
    ensures var h' := Call(h, now, c);
            && h'.log == h.log && h'.keys.block == h.keys.block && h'.keys.hits.Some?
            && (if h.keys.hits.Some? && now <= h.keys.hits.value.expiry
                then h'.keys.hits.value.count == h.keys.hits.value.count + 1
                     && h'.keys.hits.value.expiry == (if h.keys.hits.value.expiry == now then now + c.ttl else h.keys.hits.value.expiry)
                else h'.keys.hits.value == Hits(1, now + c.ttl))
  {
  }

  /** A call at the very instant a block expires is admitted and starts a life. */
  lemma CallReleased(h: History, now: int, c: Limits, from: int, to: int)
    requires h.keys.block == Some(now) && from <= now < to
    ensures var h' := Call(h, now, c);
            && h'.keys == Keys(Some(Hits(1, now + c.ttl)), None)
            && InWindow(h'.log, from, to) == InWindow(h.log, from, to) + 1
  {
    hide InWindow;
    var h' := Call(h, now, c);
    InWindowAppend(h.log, Admission(now, h'.life, h'.start), from, to);
  }

  lemma LifeFilledAndRefused(c: Limits, times: seq<int>)
    requires 0 < c.ttl && c.limit > 0 && times == [0] + Repeat(0, c.limit - 1) + [0]
    ensures var h := Calls(FRESH, times, c);
            && h.keys == Keys(Some(Hits(c.limit + 1, c.ttl)), Some(c.blockDuration))
            && InWindow(h.log, 0, c.ttl) == c.limit
  {
    hide InWindow, Call, Calls, Repeat;
    NothingCalled(c, 0, c.ttl);
    LifeFilled(FRESH, [], 0, c, 0, c.ttl);
    assert [] + [0] == [0];
    var filled := [0] + Repeat(0, c.limit - 1);
    CallRefused(Calls(FRESH, filled, c), 0, c);
    CallsAppend(filled, 0, c);
  }

  lemma NothingCalled(c: Limits, from: int, to: int)
    ensures Calls(FRESH, [], c) == FRESH && InWindow(FRESH.log, from, to) == 0
  {
  }

  /** All of one life at once, a refusal, and all of the next life the instant the block it set expires. */
  function BlockedBurst(c: Limits): seq<int>
    requires c.limit > 0
  {
    [0] + Repeat(0, c.limit - 1) + [0] + [c.blockDuration] + Repeat(c.blockDuration, c.limit - 1)
  }

  lemma BlockedBurstOrdered(c: Limits)
    requires 0 < c.blockDuration && c.limit > 0
    ensures Ordered(BlockedBurst(c))
  {
    RepeatIsConstant(0, c.limit - 1);
    RepeatIsConstant(c.blockDuration, c.limit - 1);
    hide Repeat;
  }

  lemma BlockedBurstAdmits(c: Limits)
    requires 0 < c.blockDuration < c.ttl && c.limit > 0
    ensures InWindow(Calls(FRESH, BlockedBurst(c), c).log, 0, c.ttl) == 2 * c.limit
  {
    hide InWindow, Call, Calls, Repeat;
    var b := c.blockDuration;
    var times := [0] + Repeat(0, c.limit - 1) + [0];
    LifeFilledAndRefused(c, times);
    CallReleased(Calls(FRESH, times, c), b, c, 0, c.ttl);
    CallsAppend(times, b, c);
    BurstAdmitted(Calls(FRESH, times + [b], c), b, c.limit - 1, c, 0, c.ttl);
    CallsConcat(FRESH, times + [b], Repeat(b, c.limit - 1), c);
  }

  /** How many calls of a run are admitted in the window of length ttl from an instant. */
  function AdmittedFrom(times: seq<int>, c: Limits, from: int): nat {
    InWindow(Calls(FRESH, times, c).log, from, from + c.ttl)
  }

  /** Every window of length ttl, in every run, admits fewer calls than twice the limit. */
  ghost predicate WindowsBounded(c: Limits) {
    forall times, from | Ordered(times) :: AdmittedFrom(times, c, from) < 2 * c.limit
  }

  /** That holds exactly of the settings whose blocks last at least as long as the counter. */
  lemma WindowBoundIsExact(c: Limits)
    requires c.ttl > 0 && c.blockDuration > 0 && c.limit > 0
    ensures WindowsBounded(c) <==> c.ttl <= c.blockDuration
  {
    hide InWindow, Calls, Ordered;
    if c.ttl <= c.blockDuration {
      forall times, from | Ordered(times) ensures AdmittedFrom(times, c, from) < 2 * c.limit {
        WindowBound(times, c, from);
      }
    } else {
      BlockedBurstOrdered(c);
      BlockedBurstAdmits(c);
      assert AdmittedFrom(BlockedBurst(c), c, 0) == 2 * c.limit;
    }
  }

  lemma ShortBlockCalls(c: Limits, a: Admission, b: Admission, l: seq<Admission>)
    requires c == Limits(10, 1, 1) && a == Admission(0, 1, 0) && b == Admission(1, 2, 1) && l == [a] + [b]
    ensures Call(FRESH, 0, c) == History(Keys(Some(Hits(1, 10)), None), [a], 1, 0)
    ensures Call(History(Keys(Some(Hits(1, 10)), None), [a], 1, 0), 0, c)
         == History(Keys(Some(Hits(2, 10)), Some(1)), [a], 1, 0)
    ensures Call(History(Keys(Some(Hits(2, 10)), Some(1)), [a], 1, 0), 1, c)
         == History(Keys(Some(Hits(1, 11)), None), l, 2, 1)
    ensures Call(History(Keys(Some(Hits(1, 11)), None), l, 2, 1), 1, c)
         == History(Keys(Some(Hits(2, 11)), Some(2)), l, 2, 1)
    ensures Call(History(Keys(Some(Hits(2, 11)), Some(2)), l, 2, 1), 2, c)
         == History(Keys(Some(Hits(1, 12)), None), l + [Admission(2, 3, 2)], 3, 2)
  {
  }

  /** Much shorter blocks exceed even twice the limit: with limit 1, ttl 10 and a block of 1, three calls get in within ttl. */
  lemma ShortBlocksAdmitMore(c: Limits)
    requires c == Limits(10, 1, 1)
    ensures InWindow(Calls(FRESH, [0] + [0] + [1] + [1] + [2], c).log, 0, c.ttl) == 3
  {
    assert Calls(FRESH, [], c) == FRESH && InWindow([], 0, 10) == 0;
    var a, b := Admission(0, 1, 0), Admission(1, 2, 1);
    ShortBlockCalls(c, a, b, [a] + [b]);
    hide Calls, InWindow, Call;
    CallsAppend([], 0, c);
    CallsAppend([0], 0, c);
    CallsAppend([0] + [0], 1, c);
    CallsAppend([0] + [0] + [1], 1, c);
    CallsAppend([0] + [0] + [1] + [1], 2, c);
    assert [] + [0] == [0];
    InWindowAppend([], a, 0, 10);
    InWindowAppend([a], b, 0, 10);
    InWindowAppend([a] + [b], Admission(2, 3, 2), 0, 10);
    assert [] + [a] == [a];
  }
}
