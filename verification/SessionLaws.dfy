/**
 What the steps of Sessions do to a user's sessions, said of the tokens and versions themselves: a
 password change and a deletion revoke, a failed rotation can be asked again, a login is listed.
 */
module SessionLaws {
  import opened Common
  import opened Sessions
  import opened SessionVersions
  import opened SessionService

  // ---- What brings revocation about ----

  /** The step that changes a password revokes every grant its user has been given so far. */
  lemma PasswordChangeRevokes(s: State, pid: int, newToken: int, pick: Key, g: Grant)
    requires Inv(s) && Enabled(s, Step(pid, newToken, pick)) && s.processes[pid] == RaiseVersion(g.user)
    requires g.user in s.w.users && g.version <= s.w.users[g.user]
    ensures var w' := Next(s, Step(pid, newToken, pick)).w;
            && g.user in w'.users && w'.users[g.user] > g.version
            && (forall u | u != g.user :: u in w'.users <==> u in s.w.users)
            && (forall u | u in s.w.users && u != g.user :: w'.users[u] == s.w.users[u])
            && Revoked(w', g)
  {
    hide Descends;
  }

  /** The step that deletes a user revokes every grant of the user. */
  lemma DeletionRevokes(s: State, pid: int, newToken: int, pick: Key, g: Grant)
    requires Inv(s) && Enabled(s, Step(pid, newToken, pick)) && s.processes[pid] == DeleteUser(g.user)
    requires g.user < s.w.nextUser
    ensures var w' := Next(s, Step(pid, newToken, pick)).w; g.user !in w'.users && Revoked(w', g)
  {
    hide Descends;
  }

  /**
   From a password change on, no token its user had been issued by then is honoured again, in any
   continuation: neither as an access token nor as a refresh token.
   */
  lemma PasswordChangeIsFinal(start: State, before: seq<Event>, pid: int, newToken: int, pick: Key, after: seq<Event>, t: int)
    requires Start(start) && Behind(start) && ValidRun(start, before)
    requires var s := Run(start, before);
             && t in s.w.history.issued && s.w.history.issued[t].user in s.w.users
             && Enabled(s, Step(pid, newToken, pick)) && s.processes[pid] == RaiseVersion(s.w.history.issued[t].user)
             && ValidRun(Next(s, Step(pid, newToken, pick)), after)
    ensures var s := Run(start, before);
            NeverHonoured(Next(s, Step(pid, newToken, pick)), after, s.w.history.issued[t])
  {
    hide Run, ValidRun;
    var s, e := Run(start, before), Step(pid, newToken, pick);
    var g := s.w.history.issued[t];
    StartInv(start);
    RunKeepsInv(start, before);
    RunKeepsBehind(start, before);
    assert NotAhead(s.w, g);
    PasswordChangeRevokes(s, pid, newToken, pick, g);
    NextKeepsInv(s, e);
    hide Next, Inv, Enabled, Revoked;
    RevokedNeverHonoured(Next(s, e), after, g);
  }

  /** The same from the deletion of the user on. */
  lemma DeletionIsFinal(start: State, before: seq<Event>, pid: int, newToken: int, pick: Key, after: seq<Event>, t: int)
    requires Start(start) && ValidRun(start, before)
    requires var s := Run(start, before);
             && t in s.w.history.issued
             && Enabled(s, Step(pid, newToken, pick)) && s.processes[pid] == DeleteUser(s.w.history.issued[t].user)
             && ValidRun(Next(s, Step(pid, newToken, pick)), after)
    ensures var s := Run(start, before);
            NeverHonoured(Next(s, Step(pid, newToken, pick)), after, s.w.history.issued[t])
  {
    hide Run, ValidRun;
    var s, e := Run(start, before), Step(pid, newToken, pick);
    var g := s.w.history.issued[t];
    StartInv(start);
    RunKeepsInv(start, before);
    assert WorldInv(s.w);
    DeletionRevokes(s, pid, newToken, pick, g);
    NextKeepsInv(s, e);
    hide Next, Inv, Enabled, Revoked, WorldInv;
    RevokedNeverHonoured(Next(s, e), after, g);
  }

  /** What the end of a user's sessions takes from Redis: the listed tokens and the list, and nothing else. */
  lemma EndedExactly(r: Redis, user: int)
    ensures var r' := Ended(r, user);
            && (forall k :: k in r'.stored <==> k in r.stored && !(user in r.index && k in r.index[user]))
            && (forall k | k in r'.stored :: r'.stored[k] == r.stored[k])
            && user !in r'.index
            && (forall u | u != user :: Indexed(r', u) == Indexed(r, u))
            && r'.pending == r.pending && r'.results == r.results
  {
  }

  /** A password change run alone is one of the interleavings: the version goes up by one, and the sessions end. */
  lemma PasswordChangeIsARun(s: State, pid: int) returns (events: seq<Event>)
    requires pid in s.processes && s.processes[pid].RaiseVersion? && s.processes[pid].user in s.w.users
    ensures ValidRun(s, events)
    ensures var u := s.processes[pid].user;
            Run(s, events) ==
            State(s.w.(users := s.w.users[u := s.w.users[u] + 1], redis := Ended(s.w.redis, u)), s.processes - {pid})
  {
    var e, u := Step(pid, 0, Raw(0)), s.processes[pid].user;
    VersionRaised(s, pid);
    hide Enabled, Next, Run, ValidRun;
    var s' := Next(s, e);
    var rest := RevocationIsARun(s', pid);
    Prepend(s, e, rest);
    events := [e] + rest;
    assert s'.processes - {pid} == s.processes - {pid};
  }

  lemma VersionRaised(s: State, pid: int)
    requires pid in s.processes && s.processes[pid].RaiseVersion? && s.processes[pid].user in s.w.users
    ensures var u, e := s.processes[pid].user, Step(pid, 0, Raw(0));
            && Enabled(s, e)
            && Next(s, e) == State(s.w.(users := s.w.users[u := s.w.users[u] + 1]), s.processes[pid := ListTokens(u, false)])
  {
    hide AfterLookup, AfterRotation, AfterUndo;
  }

  // ---- A failed rotation ----

  /** Whatever step of a rotation fails behind the version check, what follows is putting its claim back. */
  lemma FailureRestores(s: State, pid: int, claim: Claim)
    requires pid in s.processes
    requires match s.processes[pid]
             case Issue(source, _) => source == Some(claim)
             case AddToIndex(source, _) => source == Some(claim)
             case PutResult(c, _) => c == claim
             case RemoveFromIndex(c, _) => c == claim
             case DeletePending(c, _) => c == claim
             case _ => false
    ensures Enabled(s, Fail(pid)) && pid in Next(s, Fail(pid)).processes
    ensures Next(s, Fail(pid)).processes[pid] == Restore(claim) && Next(s, Fail(pid)).w == s.w
  {
  }

  /** The restore stores the token again, under the key and for the session it was claimed from. */
  lemma RestorePutsBack(s: State, pid: int, newToken: int, pick: Key)
    requires Enabled(s, Step(pid, newToken, pick)) && s.processes[pid].Restore?
    ensures var claim, s' := s.processes[pid].claim, Next(s, Step(pid, newToken, pick));
            && claim.key in s'.w.redis.stored && s'.w.redis.stored[claim.key] == claim.session
            && (forall k | k != claim.key :: k in s'.w.redis.stored <==> k in s.w.redis.stored)
            && (forall k | k in s.w.redis.stored && k != claim.key :: s'.w.redis.stored[k] == s.w.redis.stored[k])
            && s'.w.users == s.w.users
  {
    hide AfterLookup, AfterRotation, AfterEnding;
  }

  /** A refresh asked again after its rotation failed is answered with new tokens for the same grant, while that is valid. */
  lemma FailedRotationCanBeRetried(w: World, claim: Claim, newToken: int)
    requires claim.key.token !in w.redis.results && (claim.key.Raw? ==> Hashed(claim.key.token) !in w.redis.stored)
    ensures var w' := Finish(w, Restore(claim), 0);
            && claim.key.token !in w'.redis.pending
            && Answer(w', claim.key.token, newToken) ==
               if GrantOf(claim.session).user in w.users && w.users[GrantOf(claim.session).user] == GrantOf(claim.session).version
               then Some(Tokens(GrantOf(claim.session), newToken)) else None
  {
    hide AfterLookup, AfterRotation, AfterEnding;
    Unfold(w, Restore(claim), 0);
    var w1 := AfterUndo(w, Restore(claim)).0;
    Unfold(w1, RestorePending(claim), 0);
    hide Finish;
  }

  // ---- Login, logout and rejection ----

  /** A login stores its refresh token for the user's present version and lists it; an unknown user gets nothing. */
  lemma LoginStores(w: World, user: int, newToken: int)
    ensures var r, r' := w.redis, Finish(w, Login(user), newToken).redis;
            if user in w.users then
              && r'.stored == r.stored[Hashed(newToken) := Session(user, Some(w.users[user]))]
              && r'.index == r.index[user := Indexed(r, user) + {Hashed(newToken)}]
              && r'.pending == r.pending && r'.results == r.results
            else r' == r
  {
    hide AfterLookup, AfterUndo, AfterEnding;
    Unfold(w, Login(user), newToken);
    if user in w.users {
      var g := Grant(user, w.users[user]);
      Unfold(w, Issue(None, g), newToken);
      Unfold(AfterIssue(w, None, g, newToken), AddToIndex(None, Tokens(g, newToken)), newToken);
    }
    hide Finish;
  }

  /** A session opened by a login ends with the user's next password change: its refresh token is refused. */
  lemma LoginEndsWithPassword(w: World, user: int, token: int, newToken: int)
    requires user in w.users && token !in w.redis.results && Raw(token) !in w.redis.stored
    ensures var w1 := Finish(w, Login(user), token);
            && Answer(w1, token, newToken) == Some(Tokens(Grant(user, w.users[user]), newToken))
            && Answer(w1.(users := w1.users[user := w.users[user] + 1], redis := Ended(w1.redis, user)), token, newToken).None?
  {
    LoginStores(w, user, token);
    UsersUntouched(w, Login(user), token);
    hide Finish;
    EndedExactly(Finish(w, Login(user), token).redis, user);
  }

  /** A logout takes the token from Redis and from its user's list, and touches nothing else. */
  lemma LogoutLeaves(w: World, token: int)
    requires KeyOf(w.redis, token).Some?
    ensures var r, key := w.redis, KeyOf(w.redis, token).value;
            var user := r.stored[key].user;
            Finish(w, LogoutHashed(token), 0).redis ==
            Redis(r.stored - {key}, r.pending, r.results, r.index[user := Indexed(r, user) - {key}])
  {
    hide Finish, AfterLookup, AfterRotation, AfterUndo, AfterLogout;
    Unfold(w, LogoutHashed(token), 0);
    LogoutTakesKey(w, Hashed(token), Some(LogoutRaw(token)));
    if Hashed(token) !in w.redis.stored {
      Unfold(w, LogoutRaw(token), 0);
      LogoutTakesKey(w, Raw(token), None);
    }
  }

  /** A refresh whose version does not match consumes its token, leaves no marker, and unlists the token of a known user. */
  lemma RejectionLeaves(w: World, claim: Claim, newToken: int)
    requires !AccessValid(w, GrantOf(claim.session))
    ensures var r, user := w.redis, claim.session.user;
            Finish(w, ReadUser(claim), newToken).redis ==
            Redis(r.stored, r.pending - {claim.key.token}, r.results,
                  if user in w.users then r.index[user := Indexed(r, user) - {claim.key}] else r.index)
  {
    hide Finish, AfterLookup, AfterEnding, AfterIssue;
    var known := claim.session.user in w.users;
    Unfold(w, ReadUser(claim), newToken);
    Unfold(w, RejectPending(claim, known), newToken);
    if known {
      Unfold(AfterUndo(w, RejectPending(claim, known)).0, RejectIndex(claim), newToken);
    }
  }

  /** A claim takes the token and leaves its pending marker. */
  lemma ClaimLeaves(w: World, key: Key, otherwise: Process)
    ensures var r, r' := w.redis, AfterClaim(w, key, otherwise).0.redis;
            r' == if key in r.stored then r.(stored := r.stored - {key}, pending := r.pending + {key.token}) else r
  {
  }

  /** A user who signs up starts at version 0 with a grant that is valid. */
  lemma SignUpIsValid(s: State, pid: int)
    requires Inv(s) && Enabled(s, SignUp(pid))
    ensures var s', u := Next(s, SignUp(pid)), s.w.nextUser;
            && u !in s.w.users && s'.w.users == s.w.users[u := 0] && s'.w.nextUser == u + 1
            && pid in s'.processes && s'.processes[pid] == Issue(None, Grant(u, 0)) && AccessValid(s'.w, Grant(u, 0))
  {
    hide Descends;
  }

  /** A stored value stands for its version; one from before versions stands for version 0. */
  lemma SessionsGrant(user: int, version: nat)
    ensures GrantOf(Session(user, Some(version))) == Grant(user, version) && GrantOf(Session(user, None)) == Grant(user, 0)
  {
  }

  // ---- What is counted, and what may happen at any moment ----

  /** Every consumption and every restore is counted once, for its token. */
  lemma ConsumptionsCounted(w: World, key: Key, next: Option<Process>, otherwise: Process, claim: Claim)
    ensures var h, t := w.history, key.token;
            && (key in w.redis.stored ==>
                && Count(AfterClaim(w, key, otherwise).0.history.claims, t) == Count(h.claims, t) + 1
                && Count(AfterLogout(w, key, next).0.history.logouts, t) == Count(h.logouts, t) + 1)
            && (key !in w.redis.stored ==>
                AfterClaim(w, key, otherwise).0.history == h && AfterLogout(w, key, next).0.history == h)
            && Count(AfterUndo(w, Restore(claim)).0.history.restores, claim.key.token) == Count(h.restores, claim.key.token) + 1
  {
  }

  /** Every answer a refresh alone gives is recorded, and no other; each one that is minted is recorded as minted. */
  lemma AnswersRecorded(w: World, token: int, newToken: int)
    ensures var a, h, h' := Answer(w, token, newToken), w.history, Finish(w, GetResult(token), newToken).history;
            && h'.answers == h.answers + (if a.Some? then {(token, a.value)} else {})
            && MintedFrom(h', token) == MintedFrom(h, token) + (if token !in w.redis.results && a.Some? then [a.value] else [])
  {
    hide Finish, AfterLookup, AfterRotation, AfterUndo, AfterEnding;
    if token in w.redis.results {
      CachedAnswered(w, token, newToken);
    } else if KeyOf(w.redis, token).Some? {
      var claim := Claim(KeyOf(w.redis, token).value, w.redis.stored[KeyOf(w.redis, token).value]);
      ClaimComesFirst(w, token, newToken);
      RotationRecorded(AfterClaim(w, claim.key, GetPending(token)).0, claim, newToken);
    } else {
      NothingAnswered(w, token, newToken);
    }
  }

  lemma CachedAnswered(w: World, token: int, newToken: int)
    requires token in w.redis.results
    ensures Finish(w, GetResult(token), newToken) == Answered(w, token, w.redis.results[token])
  {
  }

  lemma RotationRecorded(w: World, claim: Claim, newToken: int)
    ensures var g, h, t := GrantOf(claim.session), w.history, claim.key.token;
            var h' := Finish(w, ReadUser(claim), newToken).history;
            if AccessValid(w, g)
            then h'.answers == h.answers + {(t, Tokens(g, newToken))} && MintedFrom(h', t) == MintedFrom(h, t) + [Tokens(g, newToken)]
            else h' == h
  {
    var g := GrantOf(claim.session);
    if AccessValid(w, g) {
      MintingEnds(w, claim, newToken);
      PublishingRecorded(AfterRotation(AfterIssue(w, Some(claim), g, newToken), AddToIndex(Some(claim), Tokens(g, newToken)), newToken).0,
                         claim, Tokens(g, newToken), newToken);
      hide Finish;
    } else {
      RejectionRecords(w, claim, newToken);
    }
  }

  lemma PublishingRecorded(w: World, claim: Claim, tokens: Tokens, newToken: int)
    ensures Finish(w, PutResult(claim, tokens), newToken).history ==
            w.history.(answers := w.history.answers + {(claim.key.token, tokens)})
  {
    hide Finish, AfterLookup, AfterEnding, AfterUndo;
    Unfold(w, PutResult(claim, tokens), newToken);
    var w1 := AfterRotation(w, PutResult(claim, tokens), newToken).0;
    Unfold(w1, RemoveFromIndex(claim, tokens), newToken);
    var w2 := AfterRotation(w1, RemoveFromIndex(claim, tokens), newToken).0;
    Unfold(w2, DeletePending(claim, tokens), newToken);
  }

  lemma RejectionRecords(w: World, claim: Claim, newToken: int)
    requires !AccessValid(w, GrantOf(claim.session))
    ensures Finish(w, ReadUser(claim), newToken).history == w.history
  {
    hide Finish, AfterLookup, AfterEnding, AfterIssue;
    var known := claim.session.user in w.users;
    Unfold(w, ReadUser(claim), newToken);
    Unfold(w, RejectPending(claim, known), newToken);
    if known {
      Unfold(AfterUndo(w, RejectPending(claim, known)).0, RejectIndex(claim), newToken);
    }
  }

  lemma NothingAnswered(w: World, token: int, newToken: int)
    requires token !in w.redis.results && KeyOf(w.redis, token).None?
    ensures Finish(w, GetResult(token), newToken) == w
  {
    hide Finish, AfterRotation, AfterUndo, AfterEnding;
    Unfold(w, GetResult(token), newToken);
    Unfold(w, ClaimHashed(token), newToken);
    Unfold(w, ClaimRaw(token), newToken);
    Unfold(w, GetPending(token), newToken);
    if token in w.redis.pending {
      PollsInVain(w, token, REFRESH_RESULT_POLL_ATTEMPTS, newToken);
    }
  }

  lemma {:induction false} PollsInVain(w: World, token: int, n: nat, newToken: int)
    requires token !in w.redis.results
    ensures Finish(w, Poll(token, n), newToken) == w
    decreases n
  {
    hide Finish, AfterRotation, AfterUndo, AfterEnding;
    Unfold(w, Poll(token, n), newToken);
    if n > 0 {
      PollsInVain(w, token, n - 1, newToken);
    }
  }

  /** At any moment any key may lapse, any request die, any token be presented, and nothing else is touched. */
  lemma AnyMoment(s: State, key: Key, t: int, u: int, g: Grant, pid: int)
    requires pid in s.processes
    ensures Enabled(s, ExpireToken(key)) && Next(s, ExpireToken(key)) == s.(w := s.w.(redis := s.w.redis.(stored := s.w.redis.stored - {key})))
    ensures Enabled(s, ExpirePending(t)) && Next(s, ExpirePending(t)) == s.(w := s.w.(redis := s.w.redis.(pending := s.w.redis.pending - {t})))
    ensures Enabled(s, ExpireResult(t)) && Next(s, ExpireResult(t)) == s.(w := s.w.(redis := s.w.redis.(results := s.w.redis.results - {t})))
    ensures Enabled(s, ExpireIndex(u)) && Next(s, ExpireIndex(u)) == s.(w := s.w.(redis := s.w.redis.(index := s.w.redis.index - {u})))
    ensures Enabled(s, PresentAccess(g)) && Next(s, PresentAccess(g)) == s
    ensures Enabled(s, Die(pid)) && Next(s, Die(pid)) == s.(processes := s.processes - {pid})
  {
  }

  /** The runs start from no tokens, or from any that are stored under one key each and recorded as issued. */
  lemma StartsExist(users: map<int, nat>, nextUser: int, stored: map<Key, Session>, issued: map<int, Grant>)
    requires (forall u | u in users :: u < nextUser) && forall t | t in issued :: issued[t].user < nextUser
    requires forall k | k in stored :: k.token in issued && issued[k.token] == GrantOf(stored[k])
    requires forall t | Hashed(t) in stored :: Raw(t) !in stored
    ensures Start(State(World(users, nextUser, Redis(stored, {}, map[], map[]),
                              History(issued, issued, map[], map[], map[], map[], {})), map[]))
  {
  }

  /** An access token is honoured exactly when it is presented with its user at its version. */
  lemma PresentationExactly(s: State, a: Grant, g: Grant)
    ensures Honours(s, PresentAccess(a), g) <==> a == g && g.user in s.w.users && s.w.users[g.user] == g.version
  {
  }

  /** That a grant is never honoured says so of every event of the run. */
  lemma {:induction false} NeverMeansNever(s: State, events: seq<Event>, g: Grant, n: nat)
    requires ValidRun(s, events) && NeverHonoured(s, events, g) && n < |events|
    ensures ValidRun(s, events[..n]) && Enabled(Run(s, events[..n]), events[n])
    ensures !Honours(Run(s, events[..n]), events[n], g)
    decreases n
  {
    hide Next, Enabled, Honours;
    if n > 0 {
      NeverMeansNever(Next(s, events[0]), events[1..], g, n - 1);
      assert events[1..][..n - 1] == events[..n][1..];
      Prepend(s, events[0], events[1..][..n - 1]);
      assert [events[0]] + events[1..][..n - 1] == events[..n];
    } else {
      NoMore(s);
    }
  }

  // ---- Waiting for another rotation ----

  function Steps(pid: int, n: nat): seq<Event> {
    if n == 0 then [] else [Step(pid, 0, Raw(0))] + Steps(pid, n - 1)
  }

  lemma {:induction false} PollsOn(s: State, pid: int, t: int, n: nat)
    requires pid in s.processes && s.processes[pid] == Poll(t, n) && t !in s.w.redis.results
    ensures ValidRun(s, Steps(pid, n)) && Run(s, Steps(pid, n)) == State(s.w, s.processes[pid := Poll(t, 0)])
    decreases n
  {
    if n == 0 {
      assert s.processes[pid := Poll(t, 0)] == s.processes;
    } else {
      var e := Step(pid, 0, Raw(0));
      var s' := Next(s, e);
      assert s' == State(s.w, s.processes[pid := Poll(t, n - 1)]);
      hide AfterStep;
      PollsOn(s', pid, t, n - 1);
      Prepend(s, e, Steps(pid, n - 1));
    }
  }

  /** A refresh that finds a rotation pending looks for its answer twenty times, and then gives up. */
  lemma GivesUpAfterTwenty(s: State, pid: int, t: int)
    requires pid in s.processes && s.processes[pid] == GetPending(t) && t in s.w.redis.pending && t !in s.w.redis.results
    ensures ValidRun(s, Steps(pid, 21)) && pid in Run(s, Steps(pid, 21)).processes
    ensures var s' := Run(s, Steps(pid, 21));
            Enabled(s', Step(pid, 0, Raw(0))) && Next(s', Step(pid, 0, Raw(0))) == State(s.w, s.processes - {pid})
  {
    var e := Step(pid, 0, Raw(0));
    var s1 := Next(s, e);
    assert s1 == State(s.w, s.processes[pid := Poll(t, 20)]);
    PollsOn(s1, pid, t, 20);
    assert Steps(pid, 21) == [e] + Steps(pid, 20);
    Prepend(s, e, Steps(pid, 20));
    var s' := State(s.w, s.processes[pid := Poll(t, 0)]);
    assert s'.processes - {pid} == s.processes - {pid};
    hide Steps;
  }
}
