/** The handoff protocol over any number of game servers. Every Redis command is its own step, so other
    servers, the API, the clock and the database act between a server's commands. */
module Handoff {
  import opened Wrappers
  import opened Redis
  import opened Keys
  import opened Domain
  import opened GameState
  import CharacterLocks
  import JoinTokens

  /** Where a session came from: its token, when that was consumed, and when its lease ends. */
  datatype Ticket = Ticket(token: string, consumedAt: nat, leaseEnd: nat)

  datatype Cause = LoadFailed | Disconnected | ShuttingDown

  /** What a server's single game-loop thread is in the middle of. */
  datatype Phase =
    | Idle
    | Consumed(peer: Peer, token: JoinTokens.JoinToken, consumedAt: nat)
    | Locked(peer: Peer, token: JoinTokens.JoinToken, consumedAt: nat, leaseEnd: nat)
    | Releasing(todo: seq<string>, cause: Cause)
    | Stopped

  /** `interval` gates the ticks, the last of which came at `lastTick`. */
  datatype GameServer = GameServer(lockTTL: nat, interval: nat, phase: Phase, game: Game, lastTick: nat, tickets: map<Peer, Ticket>)

  datatype System = System(
    redis: State,
    chars: Characters,
    servers: map<string, GameServer>,
    issued: set<string>,
    joinTokenTTL: nat)

  /** Identifiers in steps are validated ones. `up` says whether a command reaches Redis or PostgreSQL. */
  datatype Step =
    | Wait(d: nat)
    | Traffic(db: map<Key, Entry>)
    | Store(chars: Characters)
    | Start(s: string, lockTTL: nat, interval: nat)
    | Issue(t: JoinTokens.JoinToken)
    | Consume(s: string, peer: Peer, token: string, character: string, up: bool, valid: bool)
    | Acquire(s: string, up: bool)
    | Load(s: string, up: bool)
    | Release(s: string, up: bool)
    | Disconnect(s: string, peer: Peer)
    | Shutdown(s: string, order: seq<Peer>)
    | Receive(s: string, peer: Peer, packet: Packet)
    | Tick(s: string, order: seq<Peer>, speed: real)
    | Renew(s: string, character: string)

  // ---- The steps ----

  ghost predicate AgreeOnHandoff(a: map<Key, Entry>, b: map<Key, Entry>) {
    forall k: Key | k.CharacterLock? || k.JoinToken? :: (k in a <==> k in b) && (k in a ==> a[k] == b[k])
  }

  predicate InPhase(y: System, s: string, idle: bool) {
    s in y.servers && (y.servers[s].phase.Idle? <==> idle)
  }

  function With(y: System, s: string, g: GameServer): System {
    y.(servers := y.servers[s := g])
  }

  function WithPhase(y: System, s: string, phase: Phase): System
    requires s in y.servers
  {
    With(y, s, y.servers[s].(phase := phase))
  }

  predicate CanIssue(y: System, t: JoinTokens.JoinToken) {
    && t.token !in y.issued
    && y.redis.now < t.expiresAt <= y.redis.now + y.joinTokenTTL
    && t.characterID in y.chars && y.chars[t.characterID].userID == t.userID
  }

  function IssueStep(y: System, t: JoinTokens.JoinToken): System {
    if CanIssue(y, t) then y.(redis := JoinTokens.PutToken(y.redis, t), issued := y.issued + {t.token}) else y
  }

  /** The token a Consume step finds and accepts. */
  function Accepted(y: System, s: string, token: string, character: string, valid: bool): Option<JoinTokens.JoinToken> {
    match JoinTokens.TakeToken(y.redis, token).1
    case Some(TokenDoc(p)) =>
      if valid && p.characterID == character && p.serverID == s then Some(JoinTokens.FromPayload(token, p)) else None
    case _ => None
  }

  function ConsumeStep(y: System, s: string, peer: Peer, token: string, character: string, up: bool, valid: bool): System {
    if !InPhase(y, s, true) || !up then y
    else
      var y' := y.(redis := JoinTokens.TakeToken(y.redis, token).0);
      match Accepted(y, s, token, character, valid)
      case Some(t) => WithPhase(y', s, Consumed(peer, t, y.redis.now))
      case None => y'
  }

  function AcquireStep(y: System, s: string, up: bool): System {
    if s in y.servers && y.servers[s].phase.Consumed? then
      var g := y.servers[s];
      var r := CharacterLocks.AcquireLock(y.redis, g.phase.token.characterID, s, g.lockTTL);
      if up && r.1 then
        WithPhase(y.(redis := r.0), s, Locked(g.phase.peer, g.phase.token, g.phase.consumedAt, y.redis.now + g.lockTTL))
      else WithPhase(y, s, Idle)
    else y
  }

  function Entered(g: GameServer, c: Character): GameServer
    requires g.phase.Locked?
  {
    g.(phase := Idle,
       game := Enter(g.game, g.phase.peer, g.phase.token.userID, c),
       tickets := g.tickets[g.phase.peer := Ticket(g.phase.token.token, g.phase.consumedAt, g.phase.leaseEnd)])
  }

  predicate Loads(y: System, s: string, up: bool) {
    s in y.servers && y.servers[s].phase.Locked? && up && y.servers[s].phase.token.characterID in y.chars
  }

  function LoadStep(y: System, s: string, up: bool): System {
    if s in y.servers && y.servers[s].phase.Locked? then
      var g := y.servers[s];
      if Loads(y, s, up) then With(y, s, Entered(g, y.chars[g.phase.token.characterID]))
      else WithPhase(y, s, Releasing([g.phase.token.characterID], LoadFailed))
    else y
  }

  function AfterRelease(phase: Phase): Phase
    requires phase.Releasing?
  {
    if |phase.todo| <= 1 then (if phase.cause.ShuttingDown? then Stopped else Idle)
    else Releasing(phase.todo[1..], phase.cause)
  }

  function ReleaseStep(y: System, s: string, up: bool): System {
    if s in y.servers && y.servers[s].phase.Releasing? then
      var phase := y.servers[s].phase;
      var redis := if up && phase.todo != [] then CharacterLocks.ReleaseLock(y.redis, phase.todo[0], s).0 else y.redis;
      WithPhase(y.(redis := redis), s, AfterRelease(phase))
    else y
  }

  function DisconnectStep(y: System, s: string, peer: Peer): System {
    if InPhase(y, s, true) && peer in y.servers[s].game.sessions then
      var g := y.servers[s];
      var character := g.game.sessions[peer].characterID;
      With(y, s, g.(phase := Releasing([character], Disconnected), game := Leave(g.game, peer), tickets := g.tickets - {peer}))
    else y
  }

  ghost function ShutdownStep(y: System, s: string, order: seq<Peer>): System {
    if InPhase(y, s, true) && Enumerates(order, y.servers[s].game.sessions) then
      var sessions := y.servers[s].game.sessions;
      WithPhase(y, s, Releasing(seq(|order|, i requires 0 <= i < |order| => sessions[order[i]].characterID), ShuttingDown))
    else y
  }

  function PlayStep(y: System, s: string, game: Game, lastTick: nat): System {
    if InPhase(y, s, true) then With(y, s, y.servers[s].(game := game, lastTick := lastTick)) else y
  }

  predicate TickDue(y: System, s: string)
    requires s in y.servers
  {
    y.redis.now - y.servers[s].lastTick >= y.servers[s].interval
  }

  function Extended(g: GameServer, character: string, leaseEnd: nat): map<Peer, Ticket> {
    map p | p in g.tickets ::
      if p in g.game.sessions && g.game.sessions[p].characterID == character then g.tickets[p].(leaseEnd := leaseEnd)
      else g.tickets[p]
  }

  function RenewStep(y: System, s: string, character: string): System {
    if s in y.servers then
      var g := y.servers[s];
      var r := CharacterLocks.RenewLock(y.redis, character, s, g.lockTTL);
      if r.1 then With(y.(redis := r.0), s, g.(tickets := Extended(g, character, y.redis.now + g.lockTTL))) else y
    else y
  }

  /** A step that is not enabled does nothing. */
  ghost function Next(y: System, step: Step): System {
    match step
    case Wait(d) => y.(redis := Advance(y.redis, d))
    case Traffic(db) => if AgreeOnHandoff(y.redis.db, db) then y.(redis := y.redis.(db := db)) else y
    case Store(chars) => if KeyedByID(chars) then y.(chars := chars) else y
    case Start(s, lockTTL, interval) =>
      if s in y.servers then y else With(y, s, GameServer(lockTTL, interval, Idle, Game(map[], map[], 0), y.redis.now, map[]))
    case Issue(t) => IssueStep(y, t)
    case Consume(s, peer, token, character, up, valid) => ConsumeStep(y, s, peer, token, character, up, valid)
    case Acquire(s, up) => AcquireStep(y, s, up)
    case Load(s, up) => LoadStep(y, s, up)
    case Release(s, up) => ReleaseStep(y, s, up)
    case Disconnect(s, peer) => DisconnectStep(y, s, peer)
    case Shutdown(s, order) => ShutdownStep(y, s, order)
    case Receive(s, peer, packet) =>
      if s in y.servers then PlayStep(y, s, GameState.Receive(y.servers[s].game, peer, packet), y.servers[s].lastTick) else y
    case Tick(s, order, speed) =>
      if s in y.servers && Enumerates(order, y.servers[s].game.sessions) && TickDue(y, s)
      then PlayStep(y, s, GameState.Tick(y.servers[s].game, order, speed), y.redis.now) else y
    case Renew(s, character) => RenewStep(y, s, character)
  }

  ghost function At(y: System, steps: seq<Step>, n: nat): System
    requires n <= |steps|
  {
    if n == 0 then y else Next(At(y, steps, n - 1), steps[n - 1])
  }

  /** Nothing issued, nothing locked, no server running. */
  ghost predicate Init(y: System) {
    && y.servers == map[] && y.issued == {} && KeyedByID(y.chars)
    && forall k: Key | k.CharacterLock? || k.JoinToken? :: k !in y.redis.db
  }
}
