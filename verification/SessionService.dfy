/**
 The session operations as the services run them, each uninterrupted. Every method is proved to do
 what the steps of Sessions do when nothing else runs, so all that holds of the runs there holds here.
 */
module SessionService {
  import opened Common
  import opened Sessions
  import opened SessionVersions
  import Otp

  /** Requests that delete no account and revoke nothing. */
  predicate IsExchange(p: Process) {
    IsLookup(p) || IsRotation(p) || IsUndo(p) || p.LogoutHashed? || p.LogoutRaw? || p.LogoutIndex?
  }

  function StepsLeft(p: Process): nat {
    match p
    case GetResult(_) => 12
    case ClaimHashed(_) => 11
    case ClaimRaw(_) => 10
    case GetPending(_) => 9
    case Poll(_, _) => 8
    case Login(_) => 8
    case ReadUser(_) => 7
    case Issue(_, _) => 6
    case AddToIndex(_, _) => 5
    case PutResult(_, _) => 4
    case RemoveFromIndex(_, _) => 3
    case LogoutHashed(_) => 3
    case DeletePending(_, _) => 2
    case RejectPending(_, _) => 2
    case Restore(_) => 2
    case LogoutRaw(_) => 2
    case _ => 1
  }

  /** The world when a request has run to its end alone. */
  function Finish(w: World, p: Process, newToken: int): World
    requires IsExchange(p)
    decreases StepsLeft(p), if p.Poll? then p.attempts else 0
  {
    var after := AfterStep(w, p, newToken, Raw(0));
    if after.1.None? then after.0 else Finish(after.0, after.1.value, newToken)
  }

  lemma Unfold(w: World, p: Process, newToken: int)
    requires IsExchange(p)
    ensures var after := AfterStep(w, p, newToken, Raw(0));
            && (after.1.None? ==> Finish(w, p, newToken) == after.0)
            && (after.1.Some? ==> IsExchange(after.1.value)
                                  && Finish(w, p, newToken) == Finish(after.0, after.1.value, newToken))
  {
  }

  /** The next step of a request comes later than p, and issues nothing once the tokens are issued. */
  predicate GetsOn(w: World, p: Process, after: (World, Option<Process>)) {
    after.1.Some? ==>
      && (StepsLeft(after.1.value) < StepsLeft(p)
          || (p.Poll? && after.1.value.Poll? && after.1.value.attempts < p.attempts))
      && (StepsLeft(after.1.value) < 6 || after.0.history.issued == w.history.issued)
  }

  lemma LookupGetsOn(w: World, p: Process)
    requires IsLookup(p)
    ensures GetsOn(w, p, AfterLookup(w, p))
  {
  }

  lemma RotationGetsOn(w: World, p: Process, newToken: int)
    requires IsRotation(p)
    ensures GetsOn(w, p, AfterRotation(w, p, newToken))
  {
  }

  lemma StepsLessLeft(w: World, p: Process, newToken: int)
    requires IsExchange(p)
    ensures GetsOn(w, p, AfterStep(w, p, newToken, Raw(0)))
  {
    if IsLookup(p) {
      LookupGetsOn(w, p);
    } else if IsRotation(p) {
      RotationGetsOn(w, p, newToken);
    }
    hide AfterLookup, AfterRotation;
  }

  /** Running alone is one of the interleavings of Sessions. */
  lemma {:induction false} FinishIsARun(s: State, pid: int, newToken: int) returns (events: seq<Event>)
    requires pid in s.processes && IsExchange(s.processes[pid])
    requires newToken !in s.w.history.issued || StepsLeft(s.processes[pid]) < 6
    ensures ValidRun(s, events)
    ensures Run(s, events) == State(Finish(s.w, s.processes[pid], newToken), s.processes - {pid})
    decreases StepsLeft(s.processes[pid]), if s.processes[pid].Poll? then s.processes[pid].attempts else 0
  {
    var e := Step(pid, newToken, Raw(0));
    var s' := Next(s, e);
    Unfold(s.w, s.processes[pid], newToken);
    StepsLessLeft(s.w, s.processes[pid], newToken);
    assert s.processes[pid].Issue? ==> StepsLeft(s.processes[pid]) == 6;
    hide Finish, AfterStep, StepsLeft;
    if pid !in s'.processes {
      events := [e];
      assert ValidRun(s', []);
    } else {
      var rest := FinishIsARun(s', pid, newToken);
      events := [e] + rest;
      assert s'.processes - {pid} == s.processes - {pid};
    }
  }

  class SessionService {
    var users: map<int, nat>
    var nextUser: int
    var redis: Redis
    ghost var history: History

    ghost function Now(): World
      reads this
    {
      World(users, nextUser, redis, history)
    }

    /** What is left to do of a request is to run p. */
    twostate predicate LeftToRun(start: Process, p: Process, newToken: int)
      reads this
    {
      && IsExchange(start) && IsExchange(p)
      && Finish(old(Now()), start, newToken) == Finish(Now(), p, newToken)
    }

    method ClaimRefreshToken(key: Key, ghost otherwise: Process) returns (session: Option<Session>)
      modifies this`redis, this`history
      ensures var (after, next) := AfterClaim(old(Now()), key, otherwise);
              && Now() == after
              && next == Some(if session.Some? then ReadUser(Claim(key, session.value)) else otherwise)
              && (session.Some? <==> key in old(redis.stored))
    {
      history := AfterClaim(Now(), key, otherwise).0.history;
      if key in redis.stored {
        session := Some(redis.stored[key]);
        redis := redis.(stored := redis.stored - {key}, pending := redis.pending + {key.token});
      } else {
        session := None;
      }
    }

    method GetAndDel(key: Key, ghost otherwise: Option<Process>) returns (session: Option<Session>)
      modifies this`redis, this`history
      ensures var (after, next) := AfterLogout(old(Now()), key, otherwise);
              && Now() == after
              && next == (if session.Some? then Some(LogoutIndex(session.value.user, key)) else otherwise)
              && (session.Some? <==> key in old(redis.stored))
    {
      history := AfterLogout(Now(), key, otherwise).0.history;
      if key in redis.stored {
        session := Some(redis.stored[key]);
        redis := redis.(stored := redis.stored - {key});
      } else {
        session := None;
      }
    }

    method SRem(user: int, key: Key)
      modifies this`redis
      ensures Now() == Unindexed(old(Now()), user, key)
    {
      redis := redis.(index := redis.index[user := Indexed(redis, user) - {key}]);
    }

    method IssueTokens(ghost source: Option<Claim>, grant: Grant, newToken: int) returns (tokens: Tokens)
      modifies this`redis, this`history
      ensures tokens == Tokens(grant, newToken)
      ensures source.None? ==> Now() == Finish(old(Now()), Issue(source, grant), newToken)
      ensures source.Some? ==> LeftToRun(Issue(source, grant), PutResult(source.value, tokens), newToken)
      ensures users == old(users)
    {
      history := AfterIssue(Now(), source, grant, newToken).history;
      tokens := Tokens(grant, newToken);
      redis := redis.(stored := redis.stored[Hashed(newToken) := Session(grant.user, Some(grant.version))]);
      assert LeftToRun(Issue(source, grant), AddToIndex(source, tokens), newToken);
      redis := redis.(index := redis.index[grant.user := Indexed(redis, grant.user) + {Hashed(newToken)}]);
    }

    method Login(user: int, newToken: int) returns (tokens: Option<Tokens>)
      modifies this`redis, this`history
      ensures Now() == Finish(old(Now()), Process.Login(user), newToken)
      ensures tokens == if user in users then Some(Tokens(Grant(user, users[user]), newToken)) else None
    {
      if user !in users {
        return None;
      }
      assert LeftToRun(Process.Login(user), Issue(None, Grant(user, users[user])), newToken);
      var issued := IssueTokens(None, Grant(user, users[user]), newToken);
      tokens := Some(issued);
    }

    /** The part of a refresh behind the claim. */
    method Rotate(claim: Claim, newToken: int) returns (answer: Option<Tokens>)
      modifies this`redis, this`history
      ensures Now() == Finish(old(Now()), ReadUser(claim), newToken)
      ensures answer == if AccessValid(old(Now()), GrantOf(claim.session))
                        then Some(Tokens(GrantOf(claim.session), newToken)) else None
    {
      var grant := GrantOf(claim.session);
      if grant.user !in users || users[grant.user] != grant.version {
        Reject(claim, newToken);
        return None;
      }
      assert LeftToRun(ReadUser(claim), Issue(Some(claim), grant), newToken);
      var tokens := IssueTokens(Some(claim), grant, newToken);
      assert LeftToRun(ReadUser(claim), PutResult(claim, tokens), newToken);
      Publish(claim, tokens, newToken);
      answer := Some(tokens);
    }

    method Publish(claim: Claim, tokens: Tokens, ghost newToken: int)
      modifies this`redis, this`history
      ensures Now() == Finish(old(Now()), PutResult(claim, tokens), newToken)
    {
      var t := claim.key.token;
      redis := redis.(results := redis.results[t := tokens]);
      assert LeftToRun(PutResult(claim, tokens), RemoveFromIndex(claim, tokens), newToken);
      SRem(claim.session.user, claim.key);
      assert LeftToRun(PutResult(claim, tokens), DeletePending(claim, tokens), newToken);
      redis := redis.(pending := redis.pending - {t});
      history := Answered(Now(), t, tokens).history;
    }

    method Reject(claim: Claim, ghost newToken: int)
      requires !AccessValid(Now(), GrantOf(claim.session))
      modifies this`redis
      ensures Now() == Finish(old(Now()), ReadUser(claim), newToken)
    {
      var user := claim.session.user;
      assert LeftToRun(ReadUser(claim), RejectPending(claim, user in users), newToken);
      redis := redis.(pending := redis.pending - {claim.key.token});
      if user in users {
        assert LeftToRun(ReadUser(claim), RejectIndex(claim), newToken);
        SRem(user, claim.key);
      }
    }

    method PollForResult(token: int, ghost newToken: int) returns (answer: Option<Tokens>)
      modifies this`history
      ensures Now() == Finish(old(Now()), GetPending(token), newToken)
      ensures answer == if token in redis.pending && token in redis.results then Some(redis.results[token]) else None
    {
      if token in redis.pending {
        for attempt := 0 to REFRESH_RESULT_POLL_ATTEMPTS
          invariant Now() == old(Now())
          invariant LeftToRun(GetPending(token), Poll(token, REFRESH_RESULT_POLL_ATTEMPTS - attempt), newToken)
          invariant attempt > 0 ==> token !in redis.results
        {
          if token in redis.results {
            answer := Some(redis.results[token]);
            history := Answered(Now(), token, answer.value).history;
            return;
          }
        }
      }
      answer := None;
    }

    method Refresh(token: int, newToken: int) returns (answer: Option<Tokens>)
      modifies this`redis, this`history
      ensures Now() == Finish(old(Now()), GetResult(token), newToken)
      ensures answer == Answer(old(Now()), token, newToken)
    {
      if token in redis.results {
        answer := Some(redis.results[token]);
        history := Answered(Now(), token, answer.value).history;
        return;
      }
      var key := Hashed(token);
      var session := ClaimRefreshToken(key, ClaimRaw(token));
      assert session.None? ==> LeftToRun(GetResult(token), ClaimRaw(token), newToken);
      if session.None? {
        key := Raw(token);
        session := ClaimRefreshToken(key, GetPending(token));
      }
      if session.None? {
        assert LeftToRun(GetResult(token), GetPending(token), newToken);
        answer := PollForResult(token, newToken);
        return;
      }
      assert LeftToRun(GetResult(token), ReadUser(Claim(key, session.value)), newToken);
      answer := Rotate(Claim(key, session.value), newToken);
    }

    method Logout(token: int)
      modifies this`redis, this`history
      ensures Now() == Finish(old(Now()), LogoutHashed(token), 0)
    {
      hide AfterLookup, AfterRotation, AfterUndo, GrantOf;
      var key := Hashed(token);
      var session := GetAndDel(key, Some(LogoutRaw(token)));
      if session.None? {
        assert LeftToRun(LogoutHashed(token), LogoutRaw(token), 0);
        key := Raw(token);
        session := GetAndDel(key, None);
      }
      assert session.Some? ==> LeftToRun(LogoutHashed(token), LogoutIndex(session.value.user, key), 0);
      hide AfterLogout;
      if session.Some? {
        SRem(session.value.user, key);
      }
    }

    method DelMany(keys: set<Key>)
      modifies this`redis
      ensures redis == old(redis).(stored := old(redis.stored) - keys)
    {
      var left := keys;
      while left != {}
        invariant left <= keys
        invariant redis == old(redis).(stored := old(redis.stored) - (keys - left))
        decreases |left|
      {
        var key :| key in left;
        redis := redis.(stored := redis.stored - {key});
        left := left - {key};
      }
    }

    method RevokeSessions(user: int)
      modifies this`redis
      ensures redis == Ended(old(redis), user)
    {
      var tokens := Indexed(redis, user);
      DelMany(tokens);
      redis := redis.(index := redis.index - {user});
    }

    method ChangePassword(user: int)
      modifies this`users, this`redis
      ensures user in old(users) ==> users == old(users)[user := old(users)[user] + 1] && redis == Ended(old(redis), user)
      ensures user !in old(users) ==> users == old(users) && redis == old(redis)
    {
      if user in users {
        users := users[user := users[user] + 1];
        RevokeSessions(user);
      }
    }

    /** With the right code and a local account, a reset ends sessions as a password change does. */
    method PasswordResetConfirm(codes: Otp.EmailCodes, now: int, guess: string, account: Option<int>) returns (r: Otp.Outcome)
      requires account.Some? ==> account.value in users
      modifies this`users, this`redis, codes
      ensures codes.Contents() == Otp.AfterGuess(old(codes.Contents()), now, guess)
      ensures r == Otp.Verified <==>
              account.Some? && Otp.Live(old(codes.code), now).Some? && old(codes.code).value.value == guess
      ensures r == Otp.Verified ==>
              users == old(users)[account.value := old(users)[account.value] + 1] && redis == Ended(old(redis), account.value)
      ensures r != Otp.Verified ==> users == old(users) && redis == old(redis)
    {
      r := codes.PasswordResetConfirm(now, guess, account.Some?);
      if r == Otp.Verified {
        ChangePassword(account.value);
      }
    }

    method DeleteAccount(user: int)
      modifies this`users, this`redis
      ensures users == old(users) - {user} && redis == Ended(old(redis), user)
    {
      RevokeSessions(user);
      users := users - {user};
    }

    /** JwtStrategy.validate: a payload without a version counts as version 0. */
    method Validate(user: int, sv: Option<nat>) returns (valid: bool)
      ensures valid <==> AccessValid(Now(), GrantOf(Session(user, sv)))
      ensures valid ==> !Revoked(Now(), GrantOf(Session(user, sv)))
      ensures WorldInv(Now()) && NoneAhead(Now()) ==> forall t | t in history.issued && history.issued[t] == GrantOf(Session(user, sv)) ::
                valid <==> !Revoked(Now(), history.issued[t])
    {
      hide Descends;
      assert NoneAhead(Now()) ==> forall t | t in history.issued :: NotAhead(Now(), history.issued[t]);
      valid := user in users && (if sv.Some? then sv.value else 0) == users[user];
    }
  }

  /** The key a token is stored under, its hash first. */
  function KeyOf(r: Redis, token: int): Option<Key> {
    if Hashed(token) in r.stored then Some(Hashed(token))
    else if Raw(token) in r.stored then Some(Raw(token)) else None
  }

  /** The answer of a refresh running alone. */
  function Answer(w: World, token: int, newToken: int): Option<Tokens> {
    if token in w.redis.results then Some(w.redis.results[token])
    else
      var key := KeyOf(w.redis, token);
      if key.Some? && AccessValid(w, GrantOf(w.redis.stored[key.value]))
      then Some(Tokens(GrantOf(w.redis.stored[key.value]), newToken)) else None
  }

  /** Every listed refresh token of a user deleted, and the list with them. */
  function Ended(r: Redis, user: int): Redis {
    r.(stored := r.stored - Indexed(r, user), index := r.index - {user})
  }

  lemma Prepend(s: State, e: Event, events: seq<Event>)
    requires Enabled(s, e) && ValidRun(Next(s, e), events)
    ensures ValidRun(s, [e] + events) && Run(s, [e] + events) == Run(Next(s, e), events)
  {
    hide Enabled, Next;
    assert ([e] + events)[1..] == events;
  }

  lemma NoMore(s: State)
    ensures ValidRun(s, []) && Run(s, []) == s
  {
  }

  lemma DeletesOne(s: State, pid: int, pick: Key)
    requires pid in s.processes && s.processes[pid].DeleteTokens? && pick in s.processes[pid].keys
    ensures var p, e := s.processes[pid], Step(pid, 0, pick);
            && Enabled(s, e)
            && Next(s, e) == State(s.w.(redis := s.w.redis.(stored := s.w.redis.stored - {pick})),
                                   s.processes[pid := DeleteTokens(p.user, p.keys - {pick}, p.deletes)])
  {
    hide AfterLookup, AfterRotation, AfterUndo;
  }

  lemma DeletesList(s: State, pid: int)
    requires pid in s.processes && s.processes[pid].DeleteTokens? && s.processes[pid].keys == {}
    ensures var p, e := s.processes[pid], Step(pid, 0, Raw(0));
            && Enabled(s, e)
            && Next(s, e) == Goes(s, pid, (s.w.(redis := s.w.redis.(index := s.w.redis.index - {p.user})),
                                           if p.deletes then Some(DeleteUser(p.user)) else None))
  {
    hide AfterLookup, AfterRotation, AfterUndo;
  }

  lemma DeletesUser(s: State, pid: int)
    requires pid in s.processes && s.processes[pid].DeleteUser?
    ensures Enabled(s, Step(pid, 0, Raw(0)))
    ensures Next(s, Step(pid, 0, Raw(0))) == State(s.w.(users := s.w.users - {s.processes[pid].user}), s.processes - {pid})
  {
    hide AfterLookup, AfterRotation, AfterUndo;
  }

  lemma ListsTokens(s: State, pid: int)
    requires pid in s.processes && s.processes[pid].ListTokens?
    ensures var p, e := s.processes[pid], Step(pid, 0, Raw(0));
            && Enabled(s, e)
            && Next(s, e) == State(s.w, s.processes[pid := DeleteTokens(p.user, Indexed(s.w.redis, p.user), p.deletes)])
  {
    hide AfterLookup, AfterRotation, AfterUndo;
  }

  /** The world when the tokens of a revocation, the list of them and perhaps the user are deleted. */
  function Deleted(w: World, p: Process): World
    requires p.DeleteTokens?
  {
    w.(redis := w.redis.(stored := w.redis.stored - p.keys, index := w.redis.index - {p.user}),
       users := if p.deletes then w.users - {p.user} else w.users)
  }

  lemma ListDeletionIsARun(s: State, pid: int) returns (events: seq<Event>)
    requires pid in s.processes && s.processes[pid].DeleteTokens? && s.processes[pid].keys == {}
    ensures ValidRun(s, events) && Run(s, events) == State(Deleted(s.w, s.processes[pid]), s.processes - {pid})
  {
    var e := Step(pid, 0, Raw(0));
    DeletesList(s, pid);
    hide Enabled, Next;
    var s' := Next(s, e);
    assert s.w.redis.stored - {} == s.w.redis.stored;
    if s.processes[pid].deletes {
      DeletesUser(s', pid);
      NoMore(Next(s', e));
      Prepend(s', e, []);
      Prepend(s, e, [e] + []);
      events := [e] + ([e] + []);
      assert s'.processes - {pid} == s.processes - {pid};
    } else {
      NoMore(s');
      Prepend(s, e, []);
      events := [e] + [];
    }
  }

  /** Revocation alone, too, is one of the interleavings, in whatever order the keys are deleted. */
  lemma {:induction false} DeletionIsARun(s: State, pid: int) returns (events: seq<Event>)
    requires pid in s.processes && s.processes[pid].DeleteTokens?
    ensures ValidRun(s, events) && Run(s, events) == State(Deleted(s.w, s.processes[pid]), s.processes - {pid})
    decreases |s.processes[pid].keys|
  {
    var p := s.processes[pid];
    if p.keys == {} {
      events := ListDeletionIsARun(s, pid);
    } else {
      var pick :| pick in p.keys;
      DeletesOne(s, pid, pick);
      hide Enabled, Next, Run, ValidRun;
      var s' := Next(s, Step(pid, 0, pick));
      var rest := DeletionIsARun(s', pid);
      Prepend(s, Step(pid, 0, pick), rest);
      events := [Step(pid, 0, pick)] + rest;
      assert s.w.redis.stored - {pick} - (p.keys - {pick}) == s.w.redis.stored - p.keys;
      assert s'.processes - {pid} == s.processes - {pid};
    }
  }

  lemma RevocationIsARun(s: State, pid: int) returns (events: seq<Event>)
    requires pid in s.processes && s.processes[pid].ListTokens?
    ensures ValidRun(s, events)
    ensures var p := s.processes[pid];
            Run(s, events) == State(
              s.w.(redis := Ended(s.w.redis, p.user), users := if p.deletes then s.w.users - {p.user} else s.w.users),
              s.processes - {pid})
  {
    var e := Step(pid, 0, Raw(0));
    ListsTokens(s, pid);
    hide Enabled, Next, Run, ValidRun;
    var s' := Next(s, e);
    var rest := DeletionIsARun(s', pid);
    Prepend(s, e, rest);
    events := [e] + rest;
    assert s'.processes - {pid} == s.processes - {pid};
  }

  // ---- What a client sees ----

  /** A rotation moves the session from the old token to the new one, and remembers the answer. */
  lemma RotationMoves(w: World, token: int, newToken: int)
    requires token !in w.redis.results && KeyOf(w.redis, token).Some?
    requires AccessValid(w, GrantOf(w.redis.stored[KeyOf(w.redis, token).value]))
    ensures var r, key := w.redis, KeyOf(w.redis, token).value;
            var g := GrantOf(r.stored[key]);
            Finish(w, GetResult(token), newToken).redis == Redis(
              (r.stored - {key})[Hashed(newToken) := Session(g.user, Some(g.version))],
              r.pending - {token},
              r.results[token := Tokens(g, newToken)],
              r.index[g.user := Indexed(r, g.user) + {Hashed(newToken)} - {key}])
  {
    hide Finish, AfterStep;
    var claim := Claim(KeyOf(w.redis, token).value, w.redis.stored[KeyOf(w.redis, token).value]);
    var w1 := AfterClaim(w, claim.key, GetPending(token)).0;
    ClaimComesFirst(w, token, newToken);
    RotationEnds(w1, claim, newToken);
    var g := GrantOf(claim.session);
    assert Indexed(w1.redis, g.user) == Indexed(w.redis, g.user);
  }

  lemma ClaimComesFirst(w: World, token: int, newToken: int)
    requires token !in w.redis.results && KeyOf(w.redis, token).Some?
    ensures var key := KeyOf(w.redis, token).value;
            Finish(w, GetResult(token), newToken) ==
            Finish(AfterClaim(w, key, GetPending(token)).0, ReadUser(Claim(key, w.redis.stored[key])), newToken)
  {
    hide Finish, AfterRotation, AfterEnding, AfterUndo;
    Unfold(w, GetResult(token), newToken);
    Unfold(w, ClaimHashed(token), newToken);
    if Hashed(token) !in w.redis.stored {
      Unfold(w, ClaimRaw(token), newToken);
    }
  }

  lemma RotationEnds(w: World, claim: Claim, newToken: int)
    requires AccessValid(w, GrantOf(claim.session))
    ensures var r, g := w.redis, GrantOf(claim.session);
            Finish(w, ReadUser(claim), newToken).redis == Redis(
              (r.stored)[Hashed(newToken) := Session(g.user, Some(g.version))],
              r.pending - {claim.key.token},
              r.results[claim.key.token := Tokens(g, newToken)],
              r.index[g.user := Indexed(r, g.user) + {Hashed(newToken)} - {claim.key}])
  {
    hide Finish, AfterLookup, AfterEnding, AfterUndo;
    var g := GrantOf(claim.session);
    var tokens := Tokens(g, newToken);
    MintingEnds(w, claim, newToken);
    var w2 := AfterRotation(AfterIssue(w, Some(claim), g, newToken), AddToIndex(Some(claim), tokens), newToken).0;
    hide AfterStep;
    PublishingEnds(w2, claim, tokens, newToken);
  }

  lemma MintingEnds(w: World, claim: Claim, newToken: int)
    requires AccessValid(w, GrantOf(claim.session))
    ensures var g := GrantOf(claim.session);
            var tokens := Tokens(g, newToken);
            Finish(w, ReadUser(claim), newToken) ==
            Finish(AfterRotation(AfterIssue(w, Some(claim), g, newToken), AddToIndex(Some(claim), tokens), newToken).0,
                   PutResult(claim, tokens), newToken)
  {
    hide Finish, AfterLookup, AfterEnding, AfterUndo, AfterIssue;
    var g := GrantOf(claim.session);
    Unfold(w, ReadUser(claim), newToken);
    Unfold(w, Issue(Some(claim), g), newToken);
    Unfold(AfterIssue(w, Some(claim), g, newToken), AddToIndex(Some(claim), Tokens(g, newToken)), newToken);
  }

  lemma PublishingEnds(w: World, claim: Claim, tokens: Tokens, newToken: int)
    ensures var r, t := w.redis, claim.key.token;
            Finish(w, PutResult(claim, tokens), newToken).redis == Redis(
              r.stored, r.pending - {t}, r.results[t := tokens],
              r.index[claim.session.user := Indexed(r, claim.session.user) - {claim.key}])
  {
    hide Finish, AfterLookup, AfterEnding, AfterUndo;
    Unfold(w, PutResult(claim, tokens), newToken);
    var w1 := AfterRotation(w, PutResult(claim, tokens), newToken).0;
    Unfold(w1, RemoveFromIndex(claim, tokens), newToken);
    var w2 := AfterRotation(w1, RemoveFromIndex(claim, tokens), newToken).0;
    Unfold(w2, DeletePending(claim, tokens), newToken);
  }

  /** Asking again while the answer is remembered gives the same answer and mints nothing. */
  lemma RefreshTwice(w: World, token: int, newToken: int, otherToken: int)
    requires Answer(w, token, newToken).Some?
    ensures var w' := Finish(w, GetResult(token), newToken);
            && Answer(w', token, otherToken) == Answer(w, token, newToken)
            && Finish(w', GetResult(token), otherToken).redis == w'.redis
  {
    if token !in w.redis.results {
      RotationMoves(w, token, newToken);
    } else {
      Unfold(w, GetResult(token), newToken);
    }
    Unfold(Finish(w, GetResult(token), newToken), GetResult(token), otherToken);
    hide Finish;
  }

  /** A session goes on through its new token, for the same user and version, and not through the old one. */
  lemma SessionGoesOn(w: World, token: int, newToken: int, nextToken: int)
    requires token !in w.redis.results && newToken !in w.redis.results && token != newToken
    requires Answer(w, token, newToken).Some?
    ensures var w' := Finish(w, GetResult(token), newToken);
            && Answer(w', newToken, nextToken) == Some(Tokens(Answer(w, token, newToken).value.access, nextToken))
            && KeyOf(w.redis, token).value !in w'.redis.stored
  {
    RotationMoves(w, token, newToken);
    assert Finish(w, GetResult(token), newToken).users == w.users by {
      UsersUntouched(w, GetResult(token), newToken);
    }
  }

  lemma {:induction false} UsersUntouched(w: World, p: Process, newToken: int)
    requires IsExchange(p)
    ensures Finish(w, p, newToken).users == w.users
    decreases StepsLeft(p), if p.Poll? then p.attempts else 0
  {
    Unfold(w, p, newToken);
    StepLeavesUsers(w, p, newToken);
    hide Finish, AfterStep;
    var after := AfterStep(w, p, newToken, Raw(0));
    if after.1.Some? {
      UsersUntouched(after.0, after.1.value, newToken);
    }
  }

  lemma StepLeavesUsers(w: World, p: Process, newToken: int)
    requires IsExchange(p)
    ensures AfterStep(w, p, newToken, Raw(0)).0.users == w.users
  {
  }

  /**
   A refresh after a logout is answered exactly when an answer for the token is still remembered, or
   the token was stored in both formats and only one of them was taken.
   */
  lemma RefreshAfterLogout(w: World, token: int, newToken: int)
    ensures Answer(Finish(w, LogoutHashed(token), 0), token, newToken).Some?
       <==> || token in w.redis.results
            || (&& Hashed(token) in w.redis.stored && Raw(token) in w.redis.stored
                && AccessValid(w, GrantOf(w.redis.stored[Raw(token)])))
  {
    UsersUntouched(w, LogoutHashed(token), 0);
    LogoutTakes(w, token);
    hide Finish;
  }

  /**
   After a password change a refresh with a token of that user is answered exactly when its answer is
   still remembered, and then with an access token that no longer passes validation.
   */
  lemma RefreshAfterPasswordChange(start: State, events: seq<Event>, token: int, newToken: int)
    requires Start(start) && Behind(start) && ValidRun(start, events)
    requires var w := Run(start, events).w; token in w.history.issued && w.history.issued[token].user in w.users
    ensures var w := Run(start, events).w;
            var user := w.history.issued[token].user;
            var w' := w.(users := w.users[user := w.users[user] + 1], redis := Ended(w.redis, user));
            && (Answer(w', token, newToken).Some? <==> token in w.redis.results)
            && (Answer(w', token, newToken).Some? ==> !AccessValid(w', Answer(w', token, newToken).value.access))
  {
    StartInv(start);
    RunKeepsInv(start, events);
    RunKeepsBehind(start, events);
    hide Run, ValidRun;
    var w := Run(start, events).w;
    assert NotAhead(w, w.history.issued[token]);
  }

  lemma LogoutTakes(w: World, token: int)
    ensures var r, r' := w.redis, Finish(w, LogoutHashed(token), 0).redis;
            && r'.results == r.results
            && r'.stored == if KeyOf(r, token).Some? then r.stored - {KeyOf(r, token).value} else r.stored
  {
    hide Finish, AfterLookup, AfterRotation, AfterUndo, AfterLogout;
    Unfold(w, LogoutHashed(token), 0);
    LogoutTakesKey(w, Hashed(token), Some(LogoutRaw(token)));
    if Hashed(token) !in w.redis.stored {
      Unfold(w, LogoutRaw(token), 0);
      LogoutTakesKey(w, Raw(token), None);
    }
  }

  lemma LogoutTakesKey(w: World, key: Key, otherwise: Option<Process>)
    ensures key !in w.redis.stored ==> AfterLogout(w, key, otherwise) == (w, otherwise)
    ensures key in w.redis.stored ==>
              var after := AfterLogout(w, key, otherwise);
              && after.1.Some? && after.1.value.LogoutIndex?
              && var user := w.redis.stored[key].user;
                 Finish(after.0, after.1.value, 0).redis ==
                 Redis(w.redis.stored - {key}, w.redis.pending, w.redis.results, w.redis.index[user := Indexed(w.redis, user) - {key}])
  {
  }
}
