/**
 Refresh tokens are linear: a stored token is consumed once, unless a failed rotation puts it back,
 and then once more for each time it was put back.
 */
module SessionLinearity {
  import opened Common
  import opened Sessions

  // ---- Consumption ----

  function StoredTwice(r: Redis, t: int): nat {
    (if Hashed(t) in r.stored then 1 else 0) + (if Raw(t) in r.stored then 1 else 0)
  }

  /** What remains of a token's right to be consumed; never negative. */
  function Balance(w: World, t: int): int {
    1 + Count(w.history.restores, t) - Count(w.history.claims, t) - Count(w.history.logouts, t) - StoredTwice(w.redis, t)
  }

  ghost predicate OnlyIssued(h: History) {
    && (forall t | t in h.claims :: t in h.issued)
    && (forall t | t in h.logouts :: t in h.issued)
    && (forall t | t in h.restores :: t in h.issued)
    && (forall t | t in h.minted :: t in h.issued)
  }

  ghost predicate Linear(w: World) {
    OnlyIssued(w.history) && forall t :: Balance(w, t) >= 0
  }

  /** A step consumes a token only by taking it out of Redis, puts one back only when it is counted, and issues only new ones. */
  ghost predicate Fair(w: World, w': World) {
    OnlyIssued(w'.history) && forall t :: Balance(w', t) >= Balance(w, t) || (t !in w.history.issued && Balance(w', t) >= 0)
  }

  lemma ClaimFair(w: World, key: Key, otherwise: Process)
    requires WorldInv(w) && OnlyIssued(w.history)
    ensures Fair(w, AfterClaim(w, key, otherwise).0)
  {
    hide Descends;
  }

  lemma LookupFair(w: World, p: Process)
    requires WorldInv(w) && OnlyIssued(w.history) && IsLookup(p)
    ensures Fair(w, AfterLookup(w, p).0)
  {
    hide WorldInv;
    if p.ClaimHashed? {
      ClaimFair(w, Hashed(p.token), ClaimRaw(p.token));
    } else if p.ClaimRaw? {
      ClaimFair(w, Raw(p.token), GetPending(p.token));
    } else {
      hide AfterClaim;
    }
  }

  lemma LogoutFair(w: World, key: Key, otherwise: Option<Process>)
    requires WorldInv(w) && OnlyIssued(w.history)
    ensures Fair(w, AfterLogout(w, key, otherwise).0)
  {
    hide Descends;
  }

  lemma UndoFair(w: World, p: Process)
    requires ProcessInv(w, p) && OnlyIssued(w.history) && IsUndo(p)
    ensures Fair(w, AfterUndo(w, p).0)
  {
    hide Descends;
  }

  lemma EndingFair(w: World, p: Process, pick: Key)
    requires WorldInv(w) && OnlyIssued(w.history) && !IsLookup(p) && !IsRotation(p) && !IsUndo(p)
    ensures Fair(w, AfterEnding(w, p, pick).0)
  {
    hide WorldInv;
    if p.LogoutHashed? {
      LogoutFair(w, Hashed(p.token), Some(LogoutRaw(p.token)));
    } else if p.LogoutRaw? {
      LogoutFair(w, Raw(p.token), None);
    } else {
      hide AfterLogout;
    }
  }

  lemma IssueFair(w: World, source: Option<Claim>, grant: Grant, newToken: int)
    requires WorldInv(w) && OnlyIssued(w.history) && newToken !in w.history.issued
    requires source.Some? ==> Genuine(w.history, source.value)
    ensures Fair(w, AfterIssue(w, source, grant, newToken))
  {
    hide Descends, GrantOf;
    var w' := AfterIssue(w, source, grant, newToken);
    assert OnlyIssued(w'.history);
    hide MintedFrom, OnlyIssued;
    assert StoredTwice(w.redis, newToken) == 0;
    assert forall t :: t != newToken ==> StoredTwice(w'.redis, t) == StoredTwice(w.redis, t);
  }

  lemma RotationFair(w: World, p: Process, newToken: int)
    requires OnlyIssued(w.history) && IsRotation(p) && !p.Issue?
    ensures Fair(w, AfterRotation(w, p, newToken).0)
  {
    hide AfterIssue;
  }

  lemma IssueMeansIssue(w: World, p: Process, newToken: int)
    requires WorldInv(w) && ProcessInv(w, p) && OnlyIssued(w.history) && newToken !in w.history.issued && p.Issue?
    ensures Fair(w, AfterRotation(w, p, newToken).0)
  {
    hide WorldInv, OnlyIssued, Fair, AfterIssue, Descends;
    IssueFair(w, p.source, p.grant, newToken);
  }

  lemma StepFair(w: World, p: Process, newToken: int, pick: Key)
    requires WorldInv(w) && ProcessInv(w, p) && OnlyIssued(w.history) && (p.Issue? ==> newToken !in w.history.issued)
    ensures Fair(w, AfterStep(w, p, newToken, pick).0)
  {
    hide WorldInv, ProcessInv, OnlyIssued, Fair, AfterLookup, AfterRotation, AfterUndo, AfterEnding;
    if IsLookup(p) {
      LookupFair(w, p);
    } else if IsRotation(p) {
      if p.Issue? {
        IssueMeansIssue(w, p, newToken);
      } else {
        RotationFair(w, p, newToken);
      }
    } else if IsUndo(p) {
      UndoFair(w, p);
    } else {
      EndingFair(w, p, pick);
    }
  }

  lemma NextKeepsLinear(s: State, e: Event)
    requires Inv(s) && Enabled(s, e) && Linear(s.w)
    ensures Linear(Next(s, e).w)
  {
    var w, w' := s.w, Next(s, e).w;
    if e.Step? {
      assert ProcessInv(w, s.processes[e.pid]);
      hide WorldInv, ProcessInv, AfterStep;
      StepFair(w, s.processes[e.pid], e.newToken, e.pick);
    } else {
      hide WorldInv, ProcessInv;
      assert Fair(w, w');
    }
    hide Next, Inv, Enabled, OnlyIssued, WorldInv, ProcessInv;
    forall t ensures Balance(w', t) >= 0 {
      assert Balance(w, t) >= 0;
    }
  }

  lemma {:induction false} RunKeepsLinear(s: State, events: seq<Event>)
    requires Inv(s) && ValidRun(s, events) && Linear(s.w)
    ensures Linear(Run(s, events).w)
    decreases |events|
  {
    hide Inv, Next, Enabled, Linear;
    if events != [] {
      NextKeepsInv(s, events[0]);
      NextKeepsLinear(s, events[0]);
      RunKeepsLinear(Next(s, events[0]), events[1..]);
    }
  }

  /** Refreshes and logouts together consume a token at most once more than failed rotations restored it. */
  lemma ConsumedLinearly(start: State, events: seq<Event>, t: int)
    requires Start(start) && ValidRun(start, events)
    ensures var h := Run(start, events).w.history;
            Count(h.claims, t) + Count(h.logouts, t) <= 1 + Count(h.restores, t)
  {
    StartInv(start);
    RunKeepsLinear(start, events);
    assert Balance(Run(start, events).w, t) >= 0;
  }

  // ---- Minting ----

  /** A claim not yet turned into tokens. */
  predicate Unspent(p: Process, t: int) {
    (p.ReadUser? && p.claim.key.token == t) || (p.Issue? && p.source.Some? && p.source.value.key.token == t)
  }

  function UnspentFor(t: int): Process -> bool {
    p => Unspent(p, t)
  }

  /** Mints made or in hand never exceed claims. */
  predicate MintsCovered(s: State, t: int) {
    |Matching(s.processes, UnspentFor(t))| + |MintedFrom(s.w.history, t)| <= Count(s.w.history.claims, t)
  }

  /** What a step adds to the mints of a token, made or in hand, it adds to the claims. */
  predicate MintsPaid(w: World, p: Option<Process>, after: (World, Option<Process>), t: int) {
    Weight(after.1, UnspentFor(t)) + |MintedFrom(after.0.history, t)| + Count(w.history.claims, t)
      <= Weight(p, UnspentFor(t)) + |MintedFrom(w.history, t)| + Count(after.0.history.claims, t)
  }

  lemma LookupPaid(w: World, p: Process, t: int)
    requires IsLookup(p)
    ensures MintsPaid(w, Some(p), AfterLookup(w, p), t)
  {
  }

  lemma RotationPaid(w: World, p: Process, newToken: int, t: int)
    requires IsRotation(p)
    ensures MintsPaid(w, Some(p), AfterRotation(w, p, newToken), t)
  {
  }

  lemma EndingPaid(w: World, p: Process, pick: Key, t: int)
    requires !IsLookup(p) && !IsRotation(p) && !IsUndo(p)
    ensures MintsPaid(w, Some(p), AfterEnding(w, p, pick), t)
  {
  }

  lemma StepPaid(w: World, p: Process, newToken: int, pick: Key, t: int)
    ensures MintsPaid(w, Some(p), AfterStep(w, p, newToken, pick), t)
  {
    hide AfterLookup, AfterRotation, AfterEnding;
    if IsLookup(p) {
      LookupPaid(w, p, t);
    } else if IsRotation(p) {
      RotationPaid(w, p, newToken, t);
    } else if !IsUndo(p) {
      EndingPaid(w, p, pick, t);
    }
  }

  lemma NextKeepsMintsCovered(s: State, e: Event, t: int)
    requires Enabled(s, e) && MintsCovered(s, t)
    ensures MintsCovered(Next(s, e), t)
  {
    var s' := Next(s, e);
    if e.SignUp? || e.Request? || e.Step? || e.Fail? || e.Die? {
      if e.Step? {
        StepPaid(s.w, s.processes[e.pid], e.newToken, e.pick, t);
      }
      hide AfterStep;
      MatchingMoves(s.processes, e.pid, Get(s'.processes, e.pid), UnspentFor(t));
      assert s'.processes == Put(s.processes, e.pid, Get(s'.processes, e.pid));
    }
  }

  lemma {:induction false} RunKeepsMintsCovered(s: State, events: seq<Event>, t: int)
    requires ValidRun(s, events) && MintsCovered(s, t)
    ensures MintsCovered(Run(s, events), t)
    decreases |events|
  {
    hide Next, Enabled, MintsCovered;
    if events != [] {
      NextKeepsMintsCovered(s, events[0], t);
      RunKeepsMintsCovered(Next(s, events[0]), events[1..], t);
    }
  }

  /** A token mints at most one answer more than it was restored. */
  lemma MintedLinearly(start: State, events: seq<Event>, t: int)
    requires Start(start) && ValidRun(start, events)
    ensures var h := Run(start, events).w.history;
            |MintedFrom(h, t)| + Count(h.logouts, t) <= 1 + Count(h.restores, t)
  {
    assert Matching(start.processes, UnspentFor(t)) == {};
    RunKeepsMintsCovered(start, events, t);
    ConsumedLinearly(start, events, t);
  }

  // ---- Runs in which no rotation fails ----

  predicate FaultFree(events: seq<Event>) {
    forall i :: 0 <= i < |events| ==> !events[i].Fail?
  }

  ghost predicate NothingRestored(s: State) {
    s.w.history.restores == map[] && forall pid | pid in s.processes :: !s.processes[pid].Restore?
  }

  ghost predicate StillNothing(w: World, after: (World, Option<Process>)) {
    after.0.history.restores == w.history.restores && (after.1.Some? ==> !after.1.value.Restore?)
  }

  lemma LookupRestoresNothing(w: World, p: Process)
    requires IsLookup(p)
    ensures StillNothing(w, AfterLookup(w, p))
  {
  }

  lemma EndingRestoresNothing(w: World, p: Process, pick: Key)
    requires !IsLookup(p) && !IsRotation(p) && !IsUndo(p)
    ensures StillNothing(w, AfterEnding(w, p, pick))
  {
  }

  lemma RotationRestoresNothing(w: World, p: Process, newToken: int)
    requires IsRotation(p)
    ensures StillNothing(w, AfterRotation(w, p, newToken))
  {
  }

  lemma StepRestoresNothing(w: World, p: Process, newToken: int, pick: Key)
    requires !p.Restore?
    ensures StillNothing(w, AfterStep(w, p, newToken, pick))
  {
    hide AfterLookup, AfterRotation, AfterEnding;
    if IsLookup(p) {
      LookupRestoresNothing(w, p);
    } else if IsRotation(p) {
      RotationRestoresNothing(w, p, newToken);
    } else if !IsUndo(p) {
      EndingRestoresNothing(w, p, pick);
    }
  }

  lemma {:induction false} FaultFreeRestoresNothing(s: State, events: seq<Event>)
    requires ValidRun(s, events) && FaultFree(events) && NothingRestored(s)
    ensures NothingRestored(Run(s, events))
    decreases |events|
  {
    if events != [] {
      var e := events[0];
      if e.Step? {
        StepRestoresNothing(s.w, s.processes[e.pid], e.newToken, e.pick);
      }
      hide AfterStep;
      assert NothingRestored(Next(s, e));
      hide NothingRestored, Next, Enabled;
      FaultFreeRestoresNothing(Next(s, e), events[1..]);
    }
  }

  /**
   If no rotation fails, any number of refreshes of one token mint at most once, none at all if a
   logout took the token, and all their answers are the same, whichever requests die on the way.
   */
  lemma FaultFreeAnswersAgree(start: State, events: seq<Event>, t: int, a: Tokens, b: Tokens)
    requires Start(start) && ValidRun(start, events) && FaultFree(events)
    ensures var h := Run(start, events).w.history;
            && |MintedFrom(h, t)| + Count(h.logouts, t) <= 1
            && ((t, a) in h.answers && (t, b) in h.answers ==> a == b && Count(h.logouts, t) == 0)
  {
    var h := Run(start, events).w.history;
    FaultFreeRestoresNothing(start, events);
    MintedLinearly(start, events, t);
    StartInv(start);
    RunKeepsInv(start, events);
    assert (t, a) in h.answers ==> Descends(h, t, a);
    assert (t, b) in h.answers ==> Descends(h, t, b);
  }
}
