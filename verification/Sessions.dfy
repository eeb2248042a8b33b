/**
 Sessions: refresh-token rotation over Redis, and revocation by the session version in the user
 table. Every Redis command, script and database query is one step, and the steps of any number of
 requests interleave freely. Keys may expire at any moment, which covers every time to live. A
 request may fail inside a rotation, or die anywhere.

 Tokens are drawn fresh and hashed injectively, so a token is known by a number: it is stored under
 its hash, or, if issued before hashing, under the token itself.
 */
module Sessions {
  import opened Common

  const REFRESH_RESULT_POLL_ATTEMPTS: nat := 20

  datatype Key = Hashed(token: int) | Raw(token: int)

  /** The stored value `user:version`; older values have no version, which reads as 0. */
  datatype Session = Session(user: int, version: Option<nat>)

  /** What a token stands for. */
  datatype Grant = Grant(user: int, version: nat)

  /** The answer to a login or a refresh: an access token, which is its grant signed, and a refresh token. */
  datatype Tokens = Tokens(access: Grant, refresh: int)

  /** A stored refresh token taken out of Redis by one request. */
  datatype Claim = Claim(key: Key, session: Session)

  /** A request, by the step it takes next. */
  datatype Process =
    | Login(user: int)
    | GetResult(token: int)
    | ClaimHashed(token: int)
    | ClaimRaw(token: int)
    | GetPending(token: int)
    | Poll(token: int, attempts: nat)
    | ReadUser(claim: Claim)
    | Issue(source: Option<Claim>, grant: Grant)
    | AddToIndex(source: Option<Claim>, tokens: Tokens)
    | PutResult(claim: Claim, tokens: Tokens)
    | RemoveFromIndex(claim: Claim, tokens: Tokens)
    | DeletePending(claim: Claim, tokens: Tokens)
    | RejectPending(claim: Claim, known: bool)
    | RejectIndex(claim: Claim)
    | Restore(claim: Claim)
    | RestorePending(claim: Claim)
    | LogoutHashed(token: int)
    | LogoutRaw(token: int)
    | LogoutIndex(user: int, key: Key)
    | RaiseVersion(user: int)
    | ListTokens(user: int, deletes: bool)
    | DeleteTokens(user: int, keys: set<Key>, deletes: bool)
    | DeleteUser(user: int)

  /** The keys of Redis, one map for each kind: `refresh:`, `refresh:pending:`, `refresh:result:`, `user:tokens:`. */
  datatype Redis = Redis(
    stored: map<Key, Session>,
    pending: set<int>,
    results: map<int, Tokens>,
    index: map<int, set<Key>>)

  /**
   What happened, kept for the statements below only: what each refresh token was issued for, the
   grant its lineage started with, how often it was claimed by a refresh, consumed by a logout and
   restored, the answers minted from it, and all answers given for it.
   */
  datatype History = History(
    issued: map<int, Grant>,
    root: map<int, Grant>,
    claims: map<int, nat>,
    logouts: map<int, nat>,
    restores: map<int, nat>,
    minted: map<int, seq<Tokens>>,
    answers: set<(int, Tokens)>)

  /** The session versions of the users, with the next unused id, and the rest. */
  datatype World = World(users: map<int, nat>, nextUser: int, redis: Redis, history: History)

  datatype State = State(w: World, processes: map<int, Process>)

  datatype Event =
    | SignUp(pid: int)
    | Request(pid: int, process: Process)
    | Step(pid: int, newToken: int, pick: Key)
    | Fail(pid: int)
    | Die(pid: int)
    | ExpireToken(key: Key)
    | ExpirePending(token: int)
    | ExpireResult(token: int)
    | ExpireIndex(user: int)
    | PresentAccess(grant: Grant)

  function GrantOf(s: Session): Grant {
    Grant(s.user, if s.version.Some? then s.version.value else 0)
  }

  function Count(m: map<int, nat>, t: int): nat {
    if t in m then m[t] else 0
  }

  function MintedFrom(h: History, t: int): seq<Tokens> {
    if t in h.minted then h.minted[t] else []
  }

  function Indexed(r: Redis, user: int): set<Key> {
    if user in r.index then r.index[user] else {}
  }

  // ---- One step of one request: the world after it, and what the request does next ----

  function Answered(w: World, token: int, tokens: Tokens): World {
    w.(history := w.history.(answers := w.history.answers + {(token, tokens)}))
  }

  /** claimRefreshToken: one script reads and deletes the token and leaves a pending marker. */
  function AfterClaim(w: World, key: Key, otherwise: Process): (World, Option<Process>) {
    if key in w.redis.stored then
      var t := key.token;
      (w.(redis := w.redis.(stored := w.redis.stored - {key}, pending := w.redis.pending + {t}),
          history := w.history.(claims := w.history.claims[t := Count(w.history.claims, t) + 1])),
       Some(ReadUser(Claim(key, w.redis.stored[key]))))
    else (w, Some(otherwise))
  }

  predicate IsLookup(p: Process) {
    p.GetResult? || p.ClaimHashed? || p.ClaimRaw? || p.GetPending? || p.Poll?
  }

  /** The first half of a refresh: a cached answer, a claim, or waiting for the request that has it. */
  function AfterLookup(w: World, p: Process): (World, Option<Process>)
    requires IsLookup(p)
  {
    var r := w.redis;
    match p
    case GetResult(t) => if t in r.results then (Answered(w, t, r.results[t]), None) else (w, Some(ClaimHashed(t)))
    case ClaimHashed(t) => AfterClaim(w, Hashed(t), ClaimRaw(t))
    case ClaimRaw(t) => AfterClaim(w, Raw(t), GetPending(t))
    case GetPending(t) => (w, if t in r.pending then Some(Poll(t, REFRESH_RESULT_POLL_ATTEMPTS)) else None)
    case Poll(t, n) =>
      if n == 0 then (w, None)
      else if t in r.results then (Answered(w, t, r.results[t]), None) else (w, Some(Poll(t, n - 1)))
  }

  /** issueTokens up to its first effect: the new refresh token is stored for the grant that was read. */
  function AfterIssue(w: World, source: Option<Claim>, grant: Grant, newToken: int): World {
    var h := w.history;
    var h1 := h.(issued := h.issued[newToken := grant]);
    w.(redis := w.redis.(stored := w.redis.stored[Hashed(newToken) := Session(grant.user, Some(grant.version))]),
       history := match source
                  case None => h1.(root := h.root[newToken := grant])
                  case Some(claim) =>
                    var t := claim.key.token;
                    h1.(root := if t in h.root then h.root[newToken := h.root[t]] else h.root,
                        minted := h.minted[t := MintedFrom(h, t) + [Tokens(grant, newToken)]]))
  }

  predicate IsRotation(p: Process) {
    p.Login? || p.ReadUser? || p.Issue? || p.AddToIndex? || p.PutResult? || p.RemoveFromIndex? || p.DeletePending?
  }

  /** A login, or the second half of a refresh: the version check, the new tokens, and the cached answer. */
  function AfterRotation(w: World, p: Process, newToken: int): (World, Option<Process>)
    requires IsRotation(p)
  {
    var r := w.redis;
    match p
    case Login(u) => (w, if u in w.users then Some(Issue(None, Grant(u, w.users[u]))) else None)
    case ReadUser(claim) =>
      var g := GrantOf(claim.session);
      (w, Some(if g.user in w.users && w.users[g.user] == g.version then Issue(Some(claim), g)
               else RejectPending(claim, g.user in w.users)))
    case Issue(source, grant) => (AfterIssue(w, source, grant, newToken), Some(AddToIndex(source, Tokens(grant, newToken))))
    case AddToIndex(source, tokens) =>
      var u := tokens.access.user;
      (w.(redis := r.(index := r.index[u := Indexed(r, u) + {Hashed(tokens.refresh)}])),
       if source.Some? then Some(PutResult(source.value, tokens)) else None)
    case PutResult(claim, tokens) =>
      (w.(redis := r.(results := r.results[claim.key.token := tokens])), Some(RemoveFromIndex(claim, tokens)))
    case RemoveFromIndex(claim, tokens) =>
      (Unindexed(w, claim.session.user, claim.key), Some(DeletePending(claim, tokens)))
    case DeletePending(claim, tokens) =>
      (Answered(w.(redis := r.(pending := r.pending - {claim.key.token})), claim.key.token, tokens), None)
  }

  function Unindexed(w: World, user: int, key: Key): World {
    w.(redis := w.redis.(index := w.redis.index[user := Indexed(w.redis, user) - {key}]))
  }

  predicate IsUndo(p: Process) {
    p.RejectPending? || p.RejectIndex? || p.Restore? || p.RestorePending?
  }

  /** A refresh turned down by the version check, or a failed rotation putting its token back. */
  function AfterUndo(w: World, p: Process): (World, Option<Process>)
    requires IsUndo(p)
  {
    var r, t := w.redis, p.claim.key.token;
    match p
    case RejectPending(claim, known) =>
      (w.(redis := r.(pending := r.pending - {t})), if known then Some(RejectIndex(claim)) else None)
    case RejectIndex(claim) => (Unindexed(w, claim.session.user, claim.key), None)
    case Restore(claim) =>
      (w.(redis := r.(stored := r.stored[claim.key := claim.session]),
          history := w.history.(restores := w.history.restores[t := Count(w.history.restores, t) + 1])),
       Some(RestorePending(claim)))
    case RestorePending(claim) => (w.(redis := r.(pending := r.pending - {t})), None)
  }

  function AfterLogout(w: World, key: Key, otherwise: Option<Process>): (World, Option<Process>) {
    if key in w.redis.stored then
      (w.(redis := w.redis.(stored := w.redis.stored - {key}),
          history := w.history.(logouts := w.history.logouts[key.token := Count(w.history.logouts, key.token) + 1])),
       Some(LogoutIndex(w.redis.stored[key].user, key)))
    else (w, otherwise)
  }

  /** Logout, and revocation: a password change raises the version before it deletes the listed tokens. */
  function AfterEnding(w: World, p: Process, pick: Key): (World, Option<Process>)
    requires !IsLookup(p) && !IsRotation(p) && !IsUndo(p)
  {
    var r := w.redis;
    match p
    case LogoutHashed(t) => AfterLogout(w, Hashed(t), Some(LogoutRaw(t)))
    case LogoutRaw(t) => AfterLogout(w, Raw(t), None)
    case LogoutIndex(u, key) => (Unindexed(w, u, key), None)
    case RaiseVersion(u) =>
      if u in w.users then (w.(users := w.users[u := w.users[u] + 1]), Some(ListTokens(u, false))) else (w, None)
    case ListTokens(u, deletes) => (w, Some(DeleteTokens(u, Indexed(r, u), deletes)))
    case DeleteTokens(u, keys, deletes) =>
      if pick in keys
      then (w.(redis := r.(stored := r.stored - {pick})), Some(DeleteTokens(u, keys - {pick}, deletes)))
      else (w.(redis := r.(index := r.index - {u})), if deletes then Some(DeleteUser(u)) else None)
    case DeleteUser(u) => (w.(users := w.users - {u}), None)
  }

  function AfterStep(w: World, p: Process, newToken: int, pick: Key): (World, Option<Process>) {
    if IsLookup(p) then AfterLookup(w, p)
    else if IsRotation(p) then AfterRotation(w, p, newToken)
    else if IsUndo(p) then AfterUndo(w, p)
    else AfterEnding(w, p, pick)
  }

  // ---- Runs ----

  /** The requests the service offers; sign-up and Google sign-in of a new user are SignUp. */
  predicate IsRequest(p: Process) {
    p.Login? || p.GetResult? || p.LogoutHashed? || p.RaiseVersion? || (p.ListTokens? && p.deletes)
  }

  /** The claim of a rotation that fails here is restored: everything inside the try block. */
  function Recoverable(p: Process): Option<Claim> {
    match p
    case Issue(source, _) => source
    case AddToIndex(source, _) => source
    case PutResult(claim, _) => Some(claim)
    case RemoveFromIndex(claim, _) => Some(claim)
    case DeletePending(claim, _) => Some(claim)
    case _ => None
  }

  predicate Enabled(s: State, e: Event) {
    match e
    case SignUp(pid) => pid !in s.processes
    case Request(pid, p) => pid !in s.processes && IsRequest(p)
    case Step(pid, newToken, pick) =>
      && pid in s.processes && (s.processes[pid].Issue? ==> newToken !in s.w.history.issued)
      && (s.processes[pid].DeleteTokens? && s.processes[pid].keys != {} ==> pick in s.processes[pid].keys)
    case Fail(pid) => pid in s.processes && Recoverable(s.processes[pid]).Some?
    case Die(pid) => pid in s.processes
    case _ => true
  }

  function Goes(s: State, pid: int, after: (World, Option<Process>)): State {
    State(after.0, if after.1.Some? then s.processes[pid := after.1.value] else s.processes - {pid})
  }

  function Next(s: State, e: Event): State
    requires Enabled(s, e)
  {
    var w := s.w;
    match e
    case SignUp(pid) =>
      Goes(s, pid, (w.(users := w.users[w.nextUser := 0], nextUser := w.nextUser + 1),
                    Some(Issue(None, Grant(w.nextUser, 0)))))
    case Request(pid, p) => Goes(s, pid, (w, Some(p)))
    case Step(pid, newToken, pick) => Goes(s, pid, AfterStep(w, s.processes[pid], newToken, pick))
    case Fail(pid) => Goes(s, pid, (w, Some(Restore(Recoverable(s.processes[pid]).value))))
    case Die(pid) => Goes(s, pid, (w, None))
    case ExpireToken(key) => s.(w := w.(redis := w.redis.(stored := w.redis.stored - {key})))
    case ExpirePending(t) => s.(w := w.(redis := w.redis.(pending := w.redis.pending - {t})))
    case ExpireResult(t) => s.(w := w.(redis := w.redis.(results := w.redis.results - {t})))
    case ExpireIndex(u) => s.(w := w.(redis := w.redis.(index := w.redis.index - {u})))
    case PresentAccess(_) => s
  }

  predicate ValidRun(s: State, events: seq<Event>)
    decreases |events|
  {
    events == [] || (Enabled(s, events[0]) && ValidRun(Next(s, events[0]), events[1..]))
  }

  function Run(s: State, events: seq<Event>): State
    requires ValidRun(s, events)
    decreases |events|
  {
    if events == [] then s else Run(Next(s, events[0]), events[1..])
  }

  /** Before any request: some users, and some stored tokens, each under one key, of older formats or not. */
  ghost predicate Start(s: State) {
    var w := s.w; var r, h := w.redis, w.history;
    && s.processes == map[] && r.pending == {} && r.results == map[]
    && h.claims == map[] && h.logouts == map[] && h.restores == map[] && h.minted == map[] && h.answers == {}
    && h.root == h.issued
    && (forall u | u in w.users :: u < w.nextUser)
    && (forall k | k in r.stored :: k.token in h.issued && h.issued[k.token] == GrantOf(r.stored[k]))
    && (forall t | Hashed(t) in r.stored :: Raw(t) !in r.stored)
    && (forall t | t in h.issued :: h.issued[t].user < w.nextUser)
  }

  // ---- What every run keeps ----

  function ClaimOf(p: Process): Option<Claim> {
    if p.ReadUser? || IsUndo(p) then Some(p.claim) else Recoverable(p)
  }

  /** A claim still says what the token was issued for. */
  predicate Genuine(h: History, claim: Claim) {
    claim.key.token in h.issued && h.issued[claim.key.token] == GrantOf(claim.session)
  }

  /** Tokens answered for a token were minted from it, and stand for the same grant. */
  predicate Descends(h: History, t: int, tokens: Tokens) {
    && t in h.issued && tokens.access == h.issued[t]
    && tokens.refresh in h.issued && h.issued[tokens.refresh] == h.issued[t]
    && tokens in MintedFrom(h, t)
  }

  /** The tokens a rotation is about to answer with. */
  function MintOf(p: Process): Option<Tokens> {
    match p
    case AddToIndex(source, tokens) => if source.Some? then Some(tokens) else None
    case PutResult(_, tokens) => Some(tokens)
    case RemoveFromIndex(_, tokens) => Some(tokens)
    case DeletePending(_, tokens) => Some(tokens)
    case _ => None
  }

  ghost predicate ProcessInv(w: World, p: Process) {
    && (ClaimOf(p).Some? ==> Genuine(w.history, ClaimOf(p).value))
    && (MintOf(p).Some? ==> Descends(w.history, ClaimOf(p).value.key.token, MintOf(p).value))
    && (p.Issue? ==> p.grant.user < w.nextUser && (p.source.Some? ==> p.grant == GrantOf(p.source.value.session)))
  }

  ghost predicate WorldInv(w: World) {
    var r, h := w.redis, w.history;
    && h.root == h.issued
    && (forall u | u in w.users :: u < w.nextUser)
    && (forall t | t in h.issued :: h.issued[t].user < w.nextUser)
    && (forall k | k in r.stored :: k.token in h.issued && h.issued[k.token] == GrantOf(r.stored[k]))
    && (forall t | t in r.results :: Descends(h, t, r.results[t]))
    && (forall a | a in h.answers :: Descends(h, a.0, a.1))
  }

  ghost predicate Inv(s: State) {
    WorldInv(s.w) && forall pid | pid in s.processes :: ProcessInv(s.w, s.processes[pid])
  }

  /** What was issued stays issued, what was minted stays minted. */
  ghost predicate Grows(w: World, w': World) {
    && w.nextUser <= w'.nextUser
    && (forall t | t in w.history.issued :: t in w'.history.issued && w'.history.issued[t] == w.history.issued[t])
    && (forall t, tokens | tokens in MintedFrom(w.history, t) :: tokens in MintedFrom(w'.history, t))
  }

  lemma KnowledgeSurvives(w: World, w': World)
    requires Grows(w, w')
    ensures forall t, tokens | Descends(w.history, t, tokens) :: Descends(w'.history, t, tokens)
    ensures forall p | ProcessInv(w, p) :: ProcessInv(w', p)
  {
    hide MintedFrom, ClaimOf, MintOf;
  }

  ghost predicate GoodStep(w: World, after: (World, Option<Process>)) {
    Grows(w, after.0) && WorldInv(after.0) && (after.1.Some? ==> ProcessInv(after.0, after.1.value))
  }

  /** A step that issues nothing: whatever it stores, caches or answers was already justified. */
  ghost predicate Justified(w: World, w': World) {
    var r, r', h, h' := w.redis, w'.redis, w.history, w'.history;
    && h'.issued == h.issued && h'.root == h.root && h'.minted == h.minted && w'.nextUser == w.nextUser
    && (forall u | u in w'.users :: u in w.users)
    && (forall k | k in r'.stored :: (k in r.stored && r'.stored[k] == r.stored[k]) || Genuine(h, Claim(k, r'.stored[k])))
    && (forall t | t in r'.results :: (t in r.results && r'.results[t] == r.results[t]) || Descends(h, t, r'.results[t]))
    && (forall a | a in h'.answers :: a in h.answers || Descends(h, a.0, a.1))
  }

  lemma JustifiedKeepsInv(w: World, w': World)
    requires WorldInv(w) && Justified(w, w')
    ensures Grows(w, w') && WorldInv(w')
    ensures forall p | ProcessInv(w, p) :: ProcessInv(w', p)
  {
    KnowledgeSurvives(w, w');
    hide Descends;
  }

  ghost predicate JustifiedStep(w: World, after: (World, Option<Process>)) {
    Justified(w, after.0) && (after.1.Some? ==> ProcessInv(w, after.1.value))
  }

  lemma ClaimJustified(w: World, key: Key, otherwise: Process)
    requires WorldInv(w) && ProcessInv(w, otherwise)
    ensures JustifiedStep(w, AfterClaim(w, key, otherwise))
  {
    hide Descends;
  }

  lemma ReplayJustified(w: World, t: int)
    requires WorldInv(w) && t in w.redis.results
    ensures Justified(w, Answered(w, t, w.redis.results[t]))
  {
    hide Descends, Genuine;
  }

  lemma LookupJustified(w: World, p: Process)
    requires WorldInv(w) && ProcessInv(w, p) && IsLookup(p)
    ensures JustifiedStep(w, AfterLookup(w, p))
  {
    hide Descends, Genuine;
    if p.ClaimHashed? {
      ClaimJustified(w, Hashed(p.token), ClaimRaw(p.token));
    } else if p.ClaimRaw? {
      ClaimJustified(w, Raw(p.token), GetPending(p.token));
    } else {
      hide AfterClaim, WorldInv, Answered;
      if p.token in w.redis.results {
        ReplayJustified(w, p.token);
      }
    }
  }

  lemma LogoutJustified(w: World, key: Key, otherwise: Option<Process>)
    requires otherwise.Some? ==> otherwise.value.LogoutRaw?
    ensures JustifiedStep(w, AfterLogout(w, key, otherwise))
  {
    hide Descends, Genuine;
  }

  lemma UndoJustified(w: World, p: Process)
    requires WorldInv(w) && ProcessInv(w, p) && IsUndo(p)
    ensures JustifiedStep(w, AfterUndo(w, p))
  {
    hide Descends, Genuine;
  }

  lemma EndingJustified(w: World, p: Process, pick: Key)
    requires WorldInv(w) && !IsLookup(p) && !IsRotation(p) && !IsUndo(p)
    ensures JustifiedStep(w, AfterEnding(w, p, pick))
  {
    hide Descends, Genuine, WorldInv;
    if p.LogoutHashed? {
      LogoutJustified(w, Hashed(p.token), Some(LogoutRaw(p.token)));
    } else if p.LogoutRaw? {
      LogoutJustified(w, Raw(p.token), None);
    } else {
      hide AfterLogout;
    }
  }

  /** The steps of a rotation behind its mint: the answer they cache and give is the one minted. */
  lemma MintJustified(w: World, p: Process, newToken: int)
    requires ProcessInv(w, p) && (p.AddToIndex? || p.PutResult? || p.RemoveFromIndex? || p.DeletePending?)
    ensures JustifiedStep(w, AfterRotation(w, p, newToken))
  {
    hide Descends, Genuine, AfterIssue, GrantOf, MintedFrom;
  }

  lemma RotationJustified(w: World, p: Process, newToken: int)
    requires WorldInv(w) && ProcessInv(w, p) && IsRotation(p) && !p.Issue?
    ensures JustifiedStep(w, AfterRotation(w, p, newToken))
  {
    hide Descends, AfterIssue;
    if !p.Login? && !p.ReadUser? {
      MintJustified(w, p, newToken);
      hide AfterRotation, WorldInv;
    }
  }

  lemma IssueKeepsInv(w: World, source: Option<Claim>, grant: Grant, newToken: int)
    requires WorldInv(w) && ProcessInv(w, Issue(source, grant)) && newToken !in w.history.issued
    ensures GoodStep(w, (AfterIssue(w, source, grant, newToken), Some(AddToIndex(source, Tokens(grant, newToken)))))
  {
    var w' := AfterIssue(w, source, grant, newToken);
    assert Grows(w, w');
    KnowledgeSurvives(w, w');
    hide Descends;
  }

  lemma StepKeepsInv(w: World, p: Process, newToken: int, pick: Key)
    requires WorldInv(w) && ProcessInv(w, p) && (p.Issue? ==> newToken !in w.history.issued)
    ensures GoodStep(w, AfterStep(w, p, newToken, pick))
  {
    hide WorldInv, ProcessInv, Grows, AfterLookup, AfterUndo, AfterEnding, Justified;
    if IsLookup(p) {
      LookupJustified(w, p);
    } else if IsRotation(p) {
      if p.Issue? {
        IssueKeepsInv(w, p.source, p.grant, newToken);
      } else {
        RotationJustified(w, p, newToken);
      }
    } else if IsUndo(p) {
      UndoJustified(w, p);
    } else {
      EndingJustified(w, p, pick);
    }
    if !p.Issue? {
      hide AfterRotation;
      JustifiedKeepsInv(w, AfterStep(w, p, newToken, pick).0);
    }
  }

  lemma NextKeepsInv(s: State, e: Event)
    requires Inv(s) && Enabled(s, e)
    ensures Inv(Next(s, e)) && Grows(s.w, Next(s, e).w)
  {
    if e.Step? {
      hide WorldInv, ProcessInv, AfterStep, Grows;
      StepKeepsInv(s.w, s.processes[e.pid], e.newToken, e.pick);
      KnowledgeSurvives(s.w, Next(s, e).w);
    } else if e.SignUp? {
      SignUpKeepsInv(s, e.pid);
    } else {
      QuietEventJustified(s, e);
      JustifiedKeepsInv(s.w, Next(s, e).w);
      assert e.Fail? ==> ProcessInv(s.w, s.processes[e.pid]);
      hide Descends, Genuine, Justified, WorldInv, Grows;
    }
  }

  lemma SignUpKeepsInv(s: State, pid: int)
    requires Inv(s) && Enabled(s, SignUp(pid))
    ensures Inv(Next(s, SignUp(pid))) && Grows(s.w, Next(s, SignUp(pid)).w)
  {
    hide Descends, Genuine;
    KnowledgeSurvives(s.w, Next(s, SignUp(pid)).w);
  }

  lemma QuietEventJustified(s: State, e: Event)
    requires Enabled(s, e) && !e.Step? && !e.SignUp?
    ensures Justified(s.w, Next(s, e).w)
  {
    hide Descends, Genuine;
  }

  lemma {:induction false} RunKeepsInv(s: State, events: seq<Event>)
    requires Inv(s) && ValidRun(s, events)
    ensures Inv(Run(s, events))
    decreases |events|
  {
    hide Inv, Next, Enabled;
    if events != [] {
      NextKeepsInv(s, events[0]);
      RunKeepsInv(Next(s, events[0]), events[1..]);
    }
  }

  lemma StartInv(s: State)
    requires Start(s)
    ensures Inv(s)
  {
  }

  // ---- Revocation ----

  /** The user's version has moved past the grant, or the user is gone. */
  predicate Revoked(w: World, g: Grant) {
    g.user < w.nextUser && (g.user in w.users ==> w.users[g.user] > g.version)
  }

  /** JwtStrategy.validate; a token without a version carries version 0. */
  predicate AccessValid(w: World, g: Grant) {
    g.user in w.users && w.users[g.user] == g.version
  }

  /** An event that honours a grant: an access token passing validation, or a refresh token passing its version check. */
  predicate Honours(s: State, e: Event, g: Grant)
    requires Enabled(s, e)
  {
    match e
    case PresentAccess(a) => a == g && AccessValid(s.w, g)
    case Step(pid, newToken, pick) =>
      && s.processes[pid].ReadUser?
      && s.processes[pid].claim.key.token in s.w.history.issued
      && s.w.history.issued[s.processes[pid].claim.key.token] == g
      && Goes(s, pid, AfterStep(s.w, s.processes[pid], newToken, pick)).processes[pid].Issue?
    case _ => false
  }

  /** A refresh passes its check exactly when the version its token was issued for is the user's version now. */
  lemma VersionCheckIsExact(s: State, pid: int, newToken: int, pick: Key)
    requires Inv(s) && Enabled(s, Step(pid, newToken, pick)) && s.processes[pid].ReadUser?
    ensures var t := s.processes[pid].claim.key.token;
            && t in s.w.history.issued
            && (Honours(s, Step(pid, newToken, pick), s.w.history.issued[t]) <==> AccessValid(s.w, s.w.history.issued[t]))
  {
    assert ProcessInv(s.w, s.processes[pid]);
    hide Descends, WorldInv, AfterLookup, AfterUndo, AfterEnding, AfterIssue;
  }

  lemma RevokedStaysRevoked(s: State, e: Event, g: Grant)
    requires Enabled(s, e) && Revoked(s.w, g)
    ensures Revoked(Next(s, e).w, g)
  {
    if e.Step? {
      StepKeepsRevoked(s.w, s.processes[e.pid], e.newToken, e.pick, g);
      hide AfterStep;
    }
  }

  lemma StepKeepsRevoked(w: World, p: Process, newToken: int, pick: Key, g: Grant)
    requires Revoked(w, g)
    ensures Revoked(AfterStep(w, p, newToken, pick).0, g)
  {
    if IsLookup(p) {
    } else if IsRotation(p) {
    } else if IsUndo(p) {
    } else {
    }
  }

  ghost predicate NeverHonoured(s: State, events: seq<Event>, g: Grant)
    requires ValidRun(s, events)
    decreases |events|
  {
    events == [] || (!Honours(s, events[0], g) && NeverHonoured(Next(s, events[0]), events[1..], g))
  }

  lemma {:induction false} RevokedNeverHonoured(s: State, events: seq<Event>, g: Grant)
    requires Inv(s) && ValidRun(s, events) && Revoked(s.w, g)
    ensures NeverHonoured(s, events, g)
    decreases |events|
  {
    if events != [] {
      var e := events[0];
      if e.Step? && s.processes[e.pid].ReadUser? {
        VersionCheckIsExact(s, e.pid, e.newToken, e.pick);
      }
      assert !Honours(s, e, g);
      NextKeepsInv(s, e);
      RevokedStaysRevoked(s, e, g);
      hide Next, Inv, Revoked, Honours, Enabled;
      RevokedNeverHonoured(Next(s, e), events[1..], g);
    }
  }

  /**
   Once a user's version exceeds a grant's, or the user is deleted, no access token and no refresh
   token of that grant is honoured again, whatever is interleaved, restored, replayed or expires.
   */
  lemma RevocationIsFinal(start: State, before: seq<Event>, after: seq<Event>, g: Grant)
    requires Start(start) && ValidRun(start, before) && ValidRun(Run(start, before), after)
    requires Revoked(Run(start, before).w, g)
    ensures NeverHonoured(Run(start, before), after, g)
  {
    StartInv(start);
    RunKeepsInv(start, before);
    RevokedNeverHonoured(Run(start, before), after, g);
  }

  /** Every answer for a token, minted or replayed, stands for the grant its whole lineage started with. */
  lemma AnswersKeepTheGrant(start: State, events: seq<Event>, t: int, tokens: Tokens)
    requires Start(start) && ValidRun(start, events) && (t, tokens) in Run(start, events).w.history.answers
    ensures var h := Run(start, events).w.history;
            && t in h.root && tokens.refresh in h.root && t in h.issued && tokens.refresh in h.issued
            && tokens.access == h.issued[t] == h.issued[tokens.refresh] == h.root[t] == h.root[tokens.refresh]
  {
    StartInv(start);
    RunKeepsInv(start, events);
  }
}
