/**
 No token is ahead of its user: what was issued carries a version the user has reached. So a token
 that is not revoked is valid, and the version check decides between the two.
 */
module SessionVersions {
  import opened Common
  import opened Sessions

  predicate NotAhead(w: World, g: Grant) {
    g.user in w.users ==> g.version <= w.users[g.user]
  }

  ghost predicate NoneAhead(w: World) {
    forall t | t in w.history.issued :: NotAhead(w, w.history.issued[t])
  }

  ghost predicate Behind(s: State) {
    && NoneAhead(s.w)
    && (forall pid | pid in s.processes && s.processes[pid].Issue? :: NotAhead(s.w, s.processes[pid].grant))
  }

  /** Users appear only by signing up, and their versions only rise. */
  ghost predicate UsersAdvance(w: World, w': World) {
    forall u | u in w'.users :: u in w.users && w.users[u] <= w'.users[u]
  }

  lemma StepAdvances(w: World, p: Process, newToken: int, pick: Key)
    ensures UsersAdvance(w, AfterStep(w, p, newToken, pick).0)
  {
    if IsLookup(p) {
      hide AfterRotation, AfterUndo, AfterEnding;
    } else if IsRotation(p) {
      hide AfterLookup, AfterUndo, AfterEnding;
    } else {
      hide AfterLookup, AfterRotation;
    }
  }

  /** A step issues only what an Issue step carries, and prepares to issue only the version just read. */
  lemma StepIssues(w: World, p: Process, newToken: int, pick: Key)
    ensures var (w', next) := AfterStep(w, p, newToken, pick);
            && (forall t | t in w'.history.issued ::
                  (t in w.history.issued && w'.history.issued[t] == w.history.issued[t])
                  || (p.Issue? && w'.history.issued[t] == p.grant))
            && (next.Some? && next.value.Issue? ==> AccessValid(w, next.value.grant) && w'.users == w.users)
  {
    if IsLookup(p) {
      hide AfterRotation, AfterUndo, AfterEnding;
    } else if IsRotation(p) {
      hide AfterLookup, AfterUndo, AfterEnding;
    } else {
      hide AfterLookup, AfterRotation;
    }
  }

  lemma NextKeepsBehind(s: State, e: Event)
    requires Inv(s) && Enabled(s, e) && Behind(s)
    ensures Behind(Next(s, e))
  {
    if e.Step? {
      var p := s.processes[e.pid];
      StepAdvances(s.w, p, e.newToken, e.pick);
      StepIssues(s.w, p, e.newToken, e.pick);
      hide AfterStep, Inv;
    } else if e.SignUp? {
      assert forall pid | pid in s.processes && s.processes[pid].Issue? :: ProcessInv(s.w, s.processes[pid]);
      hide Descends, Genuine, MintOf, ClaimOf;
    } else {
      hide Inv;
    }
  }

  lemma {:induction false} RunKeepsBehind(s: State, events: seq<Event>)
    requires Inv(s) && ValidRun(s, events) && Behind(s)
    ensures Behind(Run(s, events))
    decreases |events|
  {
    hide Inv, Next, Enabled, Behind;
    if events != [] {
      NextKeepsInv(s, events[0]);
      NextKeepsBehind(s, events[0]);
      RunKeepsBehind(Next(s, events[0]), events[1..]);
    }
  }

  /** In every run an issued token passes validation exactly until its user's version moves past it, or the user is deleted. */
  lemma ValidUntilRevoked(start: State, events: seq<Event>, t: int)
    requires Start(start) && Behind(start) && ValidRun(start, events) && t in Run(start, events).w.history.issued
    ensures var w := Run(start, events).w;
            AccessValid(w, w.history.issued[t]) <==> !Revoked(w, w.history.issued[t])
  {
    StartInv(start);
    RunKeepsInv(start, events);
    RunKeepsBehind(start, events);
    assert NotAhead(Run(start, events).w, Run(start, events).w.history.issued[t]);
  }
}
