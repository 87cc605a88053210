/** The join handshake and the disconnect as functions: internal/game/join.go. The handlers of JoinHandler
    compute these; here is what they guarantee. */
module Join {
  import opened Wrappers
  import opened Redis
  import opened Validate
  import opened Domain
  import opened GameState
  import Keys
  import CharacterLocks
  import JoinTokens
  import Handoff

  /** A decoded request packet. */
  datatype Request = Request(token: string, characterID: string)

  /** The eight exits. */
  datatype Outcome =
    | BadRequest
    | TokenRejected
    | CharacterMismatch
    | ServerMismatch
    | LockError
    | AlreadyLocked
    | LoadFailed
    | Joined

  /** Which of the four calls reach Redis or PostgreSQL. */
  datatype Reach = Reach(consume: bool, acquire: bool, load: bool, release: bool)

  datatype Config = Config(serverID: string, lockTTL: nat, defaultTTL: nat)

  datatype Reply = Reply(redis: State, game: Game, outcome: Outcome)

  // ---- The handlers ----

  datatype Verdict = Pass(token: JoinTokens.JoinToken) | Refuse(outcome: Outcome)

  function Judge(c: Config, r: Request, token: Result<JoinTokens.JoinToken>): Verdict {
    if token.Err? then Refuse(TokenRejected)
    else if token.value.characterID != r.characterID then Refuse(CharacterMismatch)
    else if token.value.serverID != c.serverID then Refuse(ServerMismatch)
    else Pass(token.value)
  }

  /** Consumes the token and compares it with the request and this server. */
  function CheckToken(st: State, c: Config, r: Request, up: bool): (State, Verdict) {
    var consumed := JoinTokens.ConsumeEffect(st, r.token, up);
    (consumed.0, Judge(c, r, consumed.1))
  }

  function HandleJoin(st: State, g: Game, chars: Characters, c: Config, peer: Peer, req: Option<Request>, up: Reach): Reply {
    match req
    case None => Reply(st, g, BadRequest)
    case Some(r) =>
      var checked := CheckToken(st, c, r, up.consume);
      if checked.1.Refuse? then Reply(checked.0, g, checked.1.outcome)
      else Admit(checked.0, g, chars, c, peer, checked.1.token, up)
  }

  /** The part after the token's checks: lock, load, enter. */
  function Admit(st: State, g: Game, chars: Characters, c: Config, peer: Peer, t: JoinTokens.JoinToken, up: Reach): Reply {
    var (st', locked) := CharacterLocks.AcquireEffect(st, t.characterID, c.serverID, c.lockTTL, c.defaultTTL, up.acquire);
    match locked
    case Err(_) => Reply(st', g, LockError)
    case Ok(false) => Reply(st', g, AlreadyLocked)
    case Ok(true) => LoadAndEnter(st', g, chars, c, peer, t, up)
  }

  /** The part after the lock was taken. */
  function LoadAndEnter(st: State, g: Game, chars: Characters, c: Config, peer: Peer, t: JoinTokens.JoinToken, up: Reach): Reply {
    if up.load && t.characterID in chars then Reply(st, Enter(g, peer, t.userID, chars[t.characterID]), Outcome.Joined)
    else Reply(CharacterLocks.ReleaseEffect(st, t.characterID, c.serverID, up.release).0, g, LoadFailed)
  }

  function HandleDisconnect(st: State, g: Game, c: Config, peer: Peer, up: bool): (State, Game) {
    if peer in g.sessions
    then (CharacterLocks.ReleaseEffect(st, g.sessions[peer].characterID, c.serverID, up).0, Leave(g, peer))
    else (st, g)
  }

  lemma PassedIsAdmitted(st: State, st': State, g: Game, chars: Characters, c: Config, peer: Peer, r: Request, up: Reach, t: JoinTokens.JoinToken)
    requires (st', Pass(t)) == CheckToken(st, c, r, up.consume)
    ensures HandleJoin(st, g, chars, c, peer, Some(r), up) == Admit(st', g, chars, c, peer, t, up)
  {
  }

  // ---- What a join reads before it acts ----

  /** A raw identifier as the stores read it. */
  function Name(raw: string): string {
    match RequiredID(raw)
    case Ok(id) => id
    case Err(_) => raw
  }

  /** What the request refers to: the token found, its key, the character's lock and this server's name in it. */
  datatype View = View(found: Option<TokenPayload>, token: set<Keys.Key>, lock: Keys.Key, owner: string)

  function Found(st: State, raw: string): Option<TokenPayload> {
    match RequiredID(raw)
    case Err(_) => None
    case Ok(token) =>
      match Get(st, Keys.JoinToken(token))
      case Some(TokenDoc(p)) => if JoinTokens.ValidPayload(p) then Some(p) else None
      case _ => None
  }

  function TokenKeys(raw: string): set<Keys.Key> {
    match RequiredID(raw)
    case Err(_) => {}
    case Ok(token) => {Keys.JoinToken(token)}
  }

  function See(st: State, c: Config, r: Request): View {
    View(Found(st, r.token), TokenKeys(r.token), Keys.CharacterLock(Name(r.characterID)), Name(c.serverID))
  }

  /** The live entry under a key; a dead one is as good as none. */
  function Seen(st: State, k: Keys.Key): Option<Entry> {
    if Live(st, k) then Some(st.db[k]) else None
  }

  /** Outside the given keys the two key spaces hold the same live entries. */
  ghost predicate SameExcept(a: State, b: State, keys: set<Keys.Key>) {
    a.now == b.now && forall k | k !in keys :: Seen(a, k) == Seen(b, k)
  }

  /** Consuming a token: what it returns, and that nothing but the token goes. */
  lemma ConsumeFinds(st: State, raw: string, up: bool)
    ensures var (st', token) := JoinTokens.ConsumeEffect(st, raw, up);
            && SameExcept(st, st', TokenKeys(raw))
            && (up ==> forall k | k in TokenKeys(raw) :: Seen(st', k) == None)
            && (forall k: Keys.Key | k.CharacterLock? :: Live(st', k) == Live(st, k) && k !in TokenKeys(raw))
            && (token.Ok? <==> up && Found(st, raw).Some?)
            && (token.Ok? ==> token.value == JoinTokens.FromPayload(Name(raw), Found(st, raw).value))
            && (token.Ok? ==> JoinTokens.ValidPayload(Found(st, raw).value))
  {
  }

  lemma LockNames(character: string, owner: string)
    requires RequiredID(character).Ok? && RequiredID(owner).Ok?
    ensures CharacterLocks.LockIDs(character, owner) == Ok((Name(character), Name(owner)))
  {
  }

  // ---- Lock, load, enter, on validated names ----

  /** Admit with the two names already validated. */
  function AdmitNamed(st: State, g: Game, chars: Characters, peer: Peer, t: JoinTokens.JoinToken, up: Reach, name: string, owner: string, ttl: nat): Reply {
    if !up.acquire then Reply(st, g, LockError)
    else
      var (st', locked) := CharacterLocks.AcquireLock(st, name, owner, ttl);
      if !locked then Reply(st', g, AlreadyLocked)
      else if up.load && t.characterID in chars then Reply(st', Enter(g, peer, t.userID, chars[t.characterID]), Outcome.Joined)
      else Reply(if up.release then CharacterLocks.ReleaseLock(st', name, owner).0 else st', g, LoadFailed)
  }

  lemma AdmitByName(st: State, g: Game, chars: Characters, c: Config, peer: Peer, t: JoinTokens.JoinToken, up: Reach)
    requires RequiredID(t.characterID).Ok? && RequiredID(c.serverID).Ok? && c.lockTTL > 0
    ensures Admit(st, g, chars, c, peer, t, up)
         == AdmitNamed(st, g, chars, peer, t, up, Name(t.characterID), Name(c.serverID), c.lockTTL)
  {
  }

  /** The lock as a join at time `now` writes it. */
  function LockEntry(owner: string, now: nat, ttl: nat): Entry {
    Entry(Text(owner), Some(now + ttl))
  }

  /** Either the lock alone is written or nothing reads differently; only a release that fails too leaves
      the lock behind. */
  lemma AdmitAtomic(st: State, g: Game, chars: Characters, peer: Peer, t: JoinTokens.JoinToken, up: Reach, name: string, owner: string, ttl: nat)
    requires ttl > 0
    ensures var r, lock := AdmitNamed(st, g, chars, peer, t, up, name, owner, ttl), Keys.CharacterLock(name);
            var stuck := r.outcome.LoadFailed? && !up.release;
            && (r.outcome.Joined? <==> up.acquire && up.load && !Live(st, lock) && t.characterID in chars)
            && (r.outcome.Joined? || stuck ==> r.redis == st.(db := st.db[lock := LockEntry(owner, st.now, ttl)]))
            && (!r.outcome.Joined? && !stuck ==> SameExcept(st, r.redis, {}))
            && r.game == if r.outcome.Joined? then Enter(g, peer, t.userID, chars[t.characterID]) else g
  {
  }

  // ---- Atomicity ----

  /** What a join needs, read off the state before it. */
  predicate CanJoin(st: State, chars: Characters, c: Config, req: Option<Request>, up: Reach, v: View) {
    && req.Some? && up.consume && up.acquire && up.load
    && v.found.Some?
    && v.found.value.characterID == req.value.characterID && v.found.value.serverID == c.serverID
    && v.found.value.characterID in chars
    && !Live(st, v.lock)
  }

  /** The player is in: the lock is owned until a lock's time to live from now, the entity stands at its
      stored position with no velocity, the peer has its session, and nothing else changed. */
  ghost predicate InPlace(st: State, g: Game, r: Reply, ttl: nat, peer: Peer, userID: string, character: Character, v: View) {
    var id := EntityID(character.id);
    && v.lock in r.redis.db && r.redis.db[v.lock] == LockEntry(v.owner, st.now, ttl)
    && SameExcept(st, r.redis, v.token + {v.lock})
    && id in r.game.entities && r.game.entities[id] == EntityVal(id, Player, character.position, Vec2(0.0, 0.0))
    && r.game.entities - {id} == g.entities - {id}
    && peer in r.game.sessions && r.game.sessions[peer] == SessionVal(userID, character.id, id, None)
    && r.game.sessions - {peer} == g.sessions - {peer}
    && r.game.tick == g.tick
  }

  lemma EnteredAlone(g: Game, peer: Peer, userID: string, character: Character)
    ensures var g', id := Enter(g, peer, userID, character), EntityID(character.id);
            && g'.entities - {id} == g.entities - {id}
            && g'.sessions - {peer} == g.sessions - {peer}
  {
  }

  lemma LockedAlone(st: State, st': State, token: set<Keys.Key>, lock: Keys.Key, e: Entry)
    requires SameExcept(st, st', token)
    ensures SameExcept(st, st'.(db := st'.db[lock := e]), token + {lock})
  {
  }

  ghost predicate Atomic(st: State, g: Game, chars: Characters, c: Config, peer: Peer, req: Option<Request>, up: Reach, r: Reply, v: View) {
    var stuck := r.outcome.LoadFailed? && !up.release;
    // It joins exactly when it can, and then everything is in place.
    && (r.outcome.Joined? <==> CanJoin(st, chars, c, req, up, v))
    && (r.outcome.Joined? ==> InPlace(st, g, r, c.lockTTL, peer, v.found.value.userID, chars[v.found.value.characterID], v))
    // Otherwise the game is as it was, and so is Redis outside the token ...
    && (!r.outcome.Joined? ==> r.game == g)
    && (!r.outcome.Joined? && !stuck ==> SameExcept(st, r.redis, v.token))
    // ... except that a lock whose release fails stays until it expires.
    && (stuck ==>
          && v.lock in r.redis.db && r.redis.db[v.lock] == LockEntry(v.owner, st.now, c.lockTTL)
          && SameExcept(st, r.redis, v.token + {v.lock}))
    // Whatever the exit, a token that was looked up is gone.
    && (up.consume ==> forall k | k in v.token :: Seen(r.redis, k) == None)
  }

  /** The join after its token was found, with every name validated. */
  lemma AdmittedAtomic(st: State, st': State, g: Game, chars: Characters, c: Config, peer: Peer, r: Request, up: Reach, t: JoinTokens.JoinToken, v: View, name: string)
    requires c.lockTTL > 0 && up.consume
    requires v.found.Some? && t.userID == v.found.value.userID && t.characterID == v.found.value.characterID
    requires v.found.value.characterID == r.characterID && v.found.value.serverID == c.serverID
    requires v.lock == Keys.CharacterLock(name) && v.lock !in v.token && Live(st', v.lock) == Live(st, v.lock)
    requires SameExcept(st, st', v.token) && forall k | k in v.token :: Seen(st', k) == None
    ensures Atomic(st, g, chars, c, peer, Some(r), up, AdmitNamed(st', g, chars, peer, t, up, name, v.owner, c.lockTTL), v)
  {
    AdmitAtomic(st', g, chars, peer, t, up, name, v.owner, c.lockTTL);
    LockedAlone(st, st', v.token, v.lock, LockEntry(v.owner, st.now, c.lockTTL));
    if t.characterID in chars {
      EnteredAlone(g, peer, t.userID, chars[t.characterID]);
    }
  }

  /** A join refused on account of its token. */
  lemma RefusedAtomic(st: State, st': State, g: Game, chars: Characters, c: Config, peer: Peer, r: Request, up: Reach, refusal: Outcome, v: View)
    requires SameExcept(st, st', v.token) && (up.consume ==> forall k | k in v.token :: Seen(st', k) == None)
    requires !CanJoin(st, chars, c, Some(r), up, v) && !refusal.Joined? && !refusal.LoadFailed?
    ensures Atomic(st, g, chars, c, peer, Some(r), up, Reply(st', g, refusal), v)
  {
  }

  /** What CheckToken's verdict says about the state before it. */
  lemma VerdictSees(st: State, c: Config, r: Request, up: bool)
    ensures var (st', verdict) := CheckToken(st, c, r, up);
            var found := Found(st, r.token);
            && SameExcept(st, st', TokenKeys(r.token))
            && (up ==> forall k | k in TokenKeys(r.token) :: Seen(st', k) == None)
            && (forall k: Keys.Key | k.CharacterLock? :: Live(st', k) == Live(st, k) && k !in TokenKeys(r.token))
            && (verdict.Refuse? ==> !verdict.outcome.Joined? && !verdict.outcome.LoadFailed?)
            && (verdict.Pass? <==> up && found.Some? && found.value.characterID == r.characterID && found.value.serverID == c.serverID)
            && (verdict.Pass? ==> verdict.token == JoinTokens.FromPayload(Name(r.token), found.value) && JoinTokens.ValidPayload(found.value))
  {
    ConsumeFinds(st, r.token, up);
  }

  /** Atomicity of the join, on all eight exits. */
  lemma JoinAtomicity(st: State, g: Game, chars: Characters, c: Config, peer: Peer, r: Request, up: Reach)
    requires c.lockTTL > 0
    ensures Atomic(st, g, chars, c, peer, Some(r), up, HandleJoin(st, g, chars, c, peer, Some(r), up), See(st, c, r))
    ensures HandleJoin(st, g, chars, c, peer, None, up) == Reply(st, g, BadRequest)
  {
    var (st', verdict) := CheckToken(st, c, r, up.consume);
    var v := See(st, c, r);
    VerdictSees(st, c, r, up.consume);
    match verdict
    case Refuse(refusal) => RefusedAtomic(st, st', g, chars, c, peer, r, up, refusal, v);
    case Pass(t) =>
      AdmitByName(st', g, chars, c, peer, t, up);
      AdmittedAtomic(st, st', g, chars, c, peer, r, up, t, v, Name(r.characterID));
  }

  // ---- Which exit is taken when ----

  /** The token found is for the requested character and this server. */
  predicate Matches(v: View, c: Config, r: Request) {
    v.found.Some? && v.found.value.characterID == r.characterID && v.found.value.serverID == c.serverID
  }

  /** For each of the eight exits, exactly when it is taken, read off the state before the call. */
  ghost predicate ExitsExactly(st: State, chars: Characters, c: Config, req: Option<Request>, up: Reach, outcome: Outcome) {
    match req
    case None => outcome == BadRequest
    case Some(r) =>
      var v := See(st, c, r);
      var ours := up.consume && Matches(v, c, r);
      var free := !Live(st, v.lock);
      && outcome != BadRequest
      && (outcome == TokenRejected <==> !up.consume || v.found.None?)
      && (outcome == CharacterMismatch <==> up.consume && v.found.Some? && v.found.value.characterID != r.characterID)
      && (outcome == ServerMismatch <==>
            up.consume && v.found.Some? && v.found.value.characterID == r.characterID && v.found.value.serverID != c.serverID)
      && (outcome == LockError <==> ours && !up.acquire)
      && (outcome == AlreadyLocked <==> ours && up.acquire && !free)
      && (outcome == LoadFailed <==> ours && up.acquire && free && (!up.load || r.characterID !in chars))
      && (outcome == Outcome.Joined <==> ours && up.acquire && free && up.load && r.characterID in chars)
  }

  lemma VerdictExits(st: State, c: Config, r: Request, up: bool)
    ensures var verdict, found := CheckToken(st, c, r, up).1, Found(st, r.token);
            match verdict
            case Pass(t) => up && Matches(See(st, c, r), c, r) && t.characterID == r.characterID
            case Refuse(o) =>
              && (o == TokenRejected <==> !up || found.None?)
              && (o == CharacterMismatch <==> up && found.Some? && found.value.characterID != r.characterID)
              && (o == ServerMismatch <==>
                    up && found.Some? && found.value.characterID == r.characterID && found.value.serverID != c.serverID)
              && (o == TokenRejected || o == CharacterMismatch || o == ServerMismatch)
  {
    ConsumeFinds(st, r.token, up);
  }

  lemma AdmitExits(st: State, g: Game, chars: Characters, peer: Peer, t: JoinTokens.JoinToken, up: Reach, name: string, owner: string, ttl: nat)
    ensures AdmitNamed(st, g, chars, peer, t, up, name, owner, ttl).outcome ==
            if !up.acquire then LockError
            else if Live(st, Keys.CharacterLock(name)) then AlreadyLocked
            else if !up.load || t.characterID !in chars then LoadFailed
            else Outcome.Joined
  {
  }

  lemma ExitIff(st: State, g: Game, chars: Characters, c: Config, peer: Peer, req: Option<Request>, up: Reach)
    requires c.lockTTL > 0
    ensures ExitsExactly(st, chars, c, req, up, HandleJoin(st, g, chars, c, peer, req, up).outcome)
  {
    if req.Some? {
      var r := req.value;
      var (st', verdict) := CheckToken(st, c, r, up.consume);
      VerdictSees(st, c, r, up.consume);
      VerdictExits(st, c, r, up.consume);
      if verdict.Pass? {
        AdmitByName(st', g, chars, c, peer, verdict.token, up);
        AdmitExits(st', g, chars, peer, verdict.token, up, Name(r.characterID), Name(c.serverID), c.lockTTL);
      }
    }
  }

  lemma FoundAsStored(st: State, token: string, p: TokenPayload)
    requires Normalized(token) && JoinTokens.ValidPayload(p)
    requires Get(st, Keys.JoinToken(token)) == Some(TokenDoc(p))
    ensures Found(st, token) == Some(p)
  {
  }

  lemma NotFound(st: State, token: string)
    requires Normalized(token) && !Live(st, Keys.JoinToken(token))
    ensures Found(st, token) == None
  {
  }

  // ---- Join and disconnect together ----

  lemma DeadStaysDead(st: State, k: Keys.Key, d: nat)
    ensures Seen(Advance(st, d), k) == match Seen(st, k) case Some(e) => if Alive(e, st.now + d) then Some(e) else None case None => None
  {
  }

  /** Releasing, within the lease, a lock that was free before it was taken leaves what there would be without it. */
  lemma ReleaseUndoes(st: State, st': State, token: set<Keys.Key>, name: string, owner: string, ttl: nat, d: nat)
    requires var lock := Keys.CharacterLock(name);
             && SameExcept(st, st', token + {lock}) && !Live(st, lock) && d < ttl
             && lock in st'.db && st'.db[lock] == LockEntry(owner, st.now, ttl)
    ensures SameExcept(Advance(st, d), CharacterLocks.ReleaseLock(Advance(st', d), name, owner).0, token)
  {
    var lock := Keys.CharacterLock(name);
    var later := Advance(st', d);
    var after := CharacterLocks.ReleaseLock(later, name, owner).0;
    assert after == Del(later, lock);
    forall k | k !in token ensures Seen(Advance(st, d), k) == Seen(after, k) {
      DeadStaysDead(st, k, d);
      DeadStaysDead(st', k, d);
      assert k != lock ==> Seen(after, k) == Seen(later, k);
    }
  }

  /** A player who joins and disconnects within the lease leaves the server's game exactly as it was, and
      Redis as it would be without the visit, apart from the spent token. */
  lemma JoinThenDisconnect(st: State, g: Game, chars: Characters, c: Config, peer: Peer, r: Request, up: Reach, d: nat)
    requires KeyedByID(chars) && d < c.lockTTL && peer !in g.sessions
    requires CanJoin(st, chars, c, Some(r), up, See(st, c, r)) && EntityID(r.characterID) !in g.entities
    ensures var joined := HandleJoin(st, g, chars, c, peer, Some(r), up);
            var (st', g') := HandleDisconnect(Advance(joined.redis, d), joined.game, c, peer, true);
            g' == g && SameExcept(Advance(st, d), st', TokenKeys(r.token))
  {
    var joined, v := HandleJoin(st, g, chars, c, peer, Some(r), up), See(st, c, r);
    JoinAtomicity(st, g, chars, c, peer, r, up);
    ConsumeFinds(st, r.token, up.consume);
    LockNames(r.characterID, c.serverID);
    ReleaseUndoes(st, joined.redis, v.token, Name(r.characterID), v.owner, c.lockTTL, d);
    EnterThenLeave(g, joined.game, peer, r.characterID, chars[r.characterID].position);
  }

  lemma EnterThenLeave(g: Game, g': Game, peer: Peer, character: string, position: Vec2)
    requires peer !in g.sessions && EntityID(character) !in g.entities && g'.tick == g.tick
    requires g'.entities - {EntityID(character)} == g.entities - {EntityID(character)}
    requires g'.sessions - {peer} == g.sessions - {peer}
    requires peer in g'.sessions && g'.sessions[peer].entityID == EntityID(character)
    ensures Leave(g', peer) == g
  {
  }

  lemma OtherLocksKept(st: State, st': State, token: set<Keys.Key>, own: string)
    requires SameExcept(st, st', token + {Keys.CharacterLock(own)}) && forall k | k in token :: !k.CharacterLock?
    ensures forall name | name != own :: CharacterLocks.Holder(st', name) == CharacterLocks.Holder(st, name)
  {
    forall name | name != own ensures CharacterLocks.Holder(st', name) == CharacterLocks.Holder(st, name) {
      assert Seen(st, Keys.CharacterLock(name)) == Seen(st', Keys.CharacterLock(name));
    }
  }

  /** The entity is in the world, no session leads to it, and the peer's leaving does not remove it. */
  ghost predicate Orphaned(g: Game, peer: Peer, id: string) {
    && id in g.entities
    && (forall p | p in g.sessions :: g.sessions[p].entityID != id)
    && id in Leave(g, peer).entities
  }

  /** A session of another peer plays the entity. */
  ghost predicate PlayedByOther(g: Game, peer: Peer, id: string) {
    exists q :: q in g.sessions && q != peer && g.sessions[q].entityID == id
  }

  /** The game after a join of `peer` with entity id. */
  predicate Overwritten(g: Game, g': Game, peer: Peer, id: string) {
    && g'.entities - {id} == g.entities - {id} && id in g'.entities
    && g'.sessions - {peer} == g.sessions - {peer}
    && peer in g'.sessions && g'.sessions[peer].entityID == id
  }

  lemma OthersKept(g: Game, g': Game, peer: Peer, id: string)
    requires Overwritten(g, g', peer, id)
    ensures forall p | p != peer :: (p in g'.sessions <==> p in g.sessions) && (p in g.sessions ==> g'.sessions[p] == g.sessions[p])
    ensures forall e | e != id :: e in g'.entities <==> e in g.entities
  {
    forall p | p != peer
      ensures (p in g'.sessions <==> p in g.sessions) && (p in g.sessions ==> g'.sessions[p] == g.sessions[p])
    {
      assert p in g'.sessions - {peer} <==> p in g.sessions - {peer};
      assert p in g.sessions ==> (g'.sessions - {peer})[p] == (g.sessions - {peer})[p];
    }
    forall e | e != id ensures e in g'.entities <==> e in g.entities {
      assert e in g'.entities - {id} <==> e in g.entities - {id};
    }
  }

  lemma OverwriteOrphansIff(g: Game, g': Game, peer: Peer, id: string)
    requires Overwritten(g, g', peer, id) && peer in g.sessions
    requires g.sessions[peer].entityID in g.entities && g.sessions[peer].entityID != id
    ensures Orphaned(g', peer, g.sessions[peer].entityID) <==> !PlayedByOther(g, peer, g.sessions[peer].entityID)
  {
    OthersKept(g, g', peer, id);
  }

  lemma JoinOverwrites(st: State, g: Game, chars: Characters, c: Config, peer: Peer, r: Request, up: Reach)
    requires c.lockTTL > 0 && KeyedByID(chars) && CanJoin(st, chars, c, Some(r), up, See(st, c, r))
    ensures Overwritten(g, HandleJoin(st, g, chars, c, peer, Some(r), up).game, peer, EntityID(r.characterID))
  {
    JoinAtomicity(st, g, chars, c, peer, r, up);
  }

  /** A peer that joins again as another character overwrites its session: the first lock stays taken, and
      the first entity is orphaned, exactly when no other peer's session plays it. */
  lemma RejoinOrphans(st: State, g: Game, chars: Characters, c: Config, peer: Peer, r: Request, up: Reach)
    requires c.lockTTL > 0 && KeyedByID(chars)
    requires CanJoin(st, chars, c, Some(r), up, See(st, c, r))
    requires peer in g.sessions && g.sessions[peer].entityID in g.entities && g.sessions[peer].entityID != EntityID(r.characterID)
    ensures var joined, first := HandleJoin(st, g, chars, c, peer, Some(r), up), g.sessions[peer].entityID;
            && (Orphaned(joined.game, peer, first) <==> !PlayedByOther(g, peer, first))
            && (forall name | name != Name(r.characterID) ::
                  CharacterLocks.Holder(joined.redis, name) == CharacterLocks.Holder(st, name))
  {
    var joined := HandleJoin(st, g, chars, c, peer, Some(r), up);
    var v := See(st, c, r);
    JoinOverwrites(st, g, chars, c, peer, r, up);
    OverwriteOrphansIff(g, joined.game, peer, EntityID(r.characterID));
    JoinAtomicity(st, g, chars, c, peer, r, up);
    ConsumeFinds(st, r.token, up.consume);
    OtherLocksKept(st, joined.redis, v.token, Name(r.characterID));
  }

  ghost predicate AllPlayed(g: Game) {
    forall id | id in g.entities :: exists p :: p in g.sessions && g.sessions[p].entityID == id
  }

  /** The peer's session is the only one that plays its entity, and the entity is in the world. */
  ghost predicate SolePlayer(g: Game, peer: Peer) {
    && peer in g.sessions && g.sessions[peer].entityID in g.entities
    && !PlayedByOther(g, peer, g.sessions[peer].entityID)
  }

  lemma OverwritePlayedIff(g: Game, g': Game, peer: Peer, id: string)
    requires AllPlayed(g) && Overwritten(g, g', peer, id)
    ensures AllPlayed(g') <==> !(SolePlayer(g, peer) && g.sessions[peer].entityID != id)
  {
    OthersKept(g, g', peer, id);
    if SolePlayer(g, peer) && g.sessions[peer].entityID != id {
      OverwriteOrphansIff(g, g', peer, id);
    } else {
      forall e | e in g'.entities ensures exists p :: p in g'.sessions && g'.sessions[p].entityID == e {
        if e == id {
          assert peer in g'.sessions;
        } else {
          var p :| p in g.sessions && g.sessions[p].entityID == e;
          if p == peer {
            var q :| q in g.sessions && q != peer && g.sessions[q].entityID == e;
            assert q in g'.sessions;
          } else {
            assert p in g'.sessions;
          }
        }
      }
    }
  }

  /** That every entity has a session is not an invariant: a successful join loses it exactly when its peer was
      the only one to play an entity of the world, and now plays another. */
  lemma JoinKeepsAllPlayedIff(st: State, g: Game, chars: Characters, c: Config, peer: Peer, r: Request, up: Reach)
    requires c.lockTTL > 0 && KeyedByID(chars) && AllPlayed(g)
    requires CanJoin(st, chars, c, Some(r), up, See(st, c, r))
    ensures AllPlayed(HandleJoin(st, g, chars, c, peer, Some(r), up).game)
       <==> !(SolePlayer(g, peer) && g.sessions[peer].entityID != EntityID(r.characterID))
  {
    JoinOverwrites(st, g, chars, c, peer, r, up);
    OverwritePlayedIff(g, HandleJoin(st, g, chars, c, peer, Some(r), up).game, peer, EntityID(r.characterID));
  }
}
