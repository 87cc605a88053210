/** What reaches a game server's loop from outside, and the event of the game it amounts to:
    handleENetEvent and handleReceive of internal/game/server.go as functions. */
module Arrivals {
  import opened Wrappers
  import opened Redis
  import opened Domain
  import opened GameState
  import opened Join
  import JoinTokens
  import Shutdown

  const CHANNEL_RELIABLE: nat := 0
  const CHANNEL_UNRELIABLE: nat := 1

  /** The bytes of a packet: whether there are any, and what they decode to, if anything. */
  datatype Data = Data(empty: bool, request: Option<Request>, input: Option<Packet>)

  datatype ENetEvent =
    | Silence
    | Connected(peer: Peer)
    | Received(peer: Peer, channel: nat, data: Data)
    | Disconnected(peer: Peer)

  /** One trip through the loop as the outside world decides it: the event served; Redis and the character
      store as the event finds them; which calls get through; and the clock reading afterwards. */
  datatype Arrival = Arrival(event: ENetEvent, redis: State, chars: Characters, up: Reach, now: nat)

  /** A token that passed its checks brings its player in, if the lock and the record are to be had. */
  function AdmitEvent(chars: Characters, peer: Peer, t: JoinTokens.JoinToken, outcome: Outcome): Event {
    if outcome.Joined? && t.characterID in chars then Event.Joined(peer, t.userID, chars[t.characterID]) else Nothing
  }

  /** The event of the game a join request amounts to. */
  function JoinEvent(st: State, g: Game, chars: Characters, c: Config, peer: Peer, req: Option<Request>, up: Reach): Event {
    if req.None? then Nothing
    else
      var (st', verdict) := CheckToken(st, c, req.value, up.consume);
      match verdict
      case Refuse(_) => Nothing
      case Pass(t) => AdmitEvent(chars, peer, t, Admit(st', g, chars, c, peer, t, up).outcome)
  }

  lemma AdmitIsEvent(st: State, g: Game, chars: Characters, c: Config, peer: Peer, t: JoinTokens.JoinToken, up: Reach)
    ensures var r := Admit(st, g, chars, c, peer, t, up); r.game == Apply(g, AdmitEvent(chars, peer, t, r.outcome))
  {
  }

  lemma JoinIsEvent(st: State, g: Game, chars: Characters, c: Config, peer: Peer, req: Option<Request>, up: Reach)
    ensures HandleJoin(st, g, chars, c, peer, req, up).game == Apply(g, JoinEvent(st, g, chars, c, peer, req, up))
  {
    if req.Some? {
      var (st', verdict) := CheckToken(st, c, req.value, up.consume);
      if verdict.Pass? {
        PassedIsAdmitted(st, st', g, chars, c, peer, req.value, up, verdict.token);
        AdmitIsEvent(st', g, chars, c, peer, verdict.token, up);
      }
    }
  }

  function GameEvent(g: Game, c: Config, a: Arrival): Event {
    match a.event
    case Received(peer, channel, data) =>
      if channel == CHANNEL_RELIABLE && !data.empty then JoinEvent(a.redis, g, a.chars, c, peer, data.request, a.up)
      else if channel == CHANNEL_UNRELIABLE && data.input.Some? then Input(peer, data.input.value)
      else Nothing
    case Disconnected(peer) => Left(peer)
    case _ => Nothing
  }

  function RedisAfter(g: Game, c: Config, a: Arrival): State {
    match a.event
    case Received(peer, channel, data) =>
      if channel == CHANNEL_RELIABLE && !data.empty then HandleJoin(a.redis, g, a.chars, c, peer, data.request, a.up).redis
      else a.redis
    case Disconnected(peer) => HandleDisconnect(a.redis, g, c, peer, a.up.release).0
    case _ => a.redis
  }

  /** Only a join or a disconnect gives the loop reason to touch Redis, and a disconnect only releases. */
  lemma DisconnectIsLeave(st: State, g: Game, c: Config, peer: Peer, up: bool)
    ensures HandleDisconnect(st, g, c, peer, up).1 == Apply(g, Left(peer))
  {
  }

  // ---- What an event does, told by event and channel number ----

  ghost predicate NothingChanges(st: State, g: Game, st': State, g': Game) {
    st' == st && g' == g
  }

  /** The peer's session and its entity are gone; the lock of its character, if this server held it and the release
      got through, is free; everything else is as it was. */
  ghost predicate Departs(st: State, g: Game, c: Config, peer: Peer, released: bool, st': State, g': Game) {
    && st'.now == st.now && g'.tick == g.tick
    && peer !in g'.sessions && g'.sessions == g.sessions - {peer}
    && (peer !in g.sessions ==> NothingChanges(st, g, st', g'))
    && (peer in g.sessions ==>
          var session := g.sessions[peer];
          && g'.entities == (if session.entityID == "" then g.entities else g.entities - {session.entityID})
          && forall k :: Seen(st', k) == if released && Shutdown.Owned(st, k, session.characterID, c.serverID) then None else Seen(st, k))
  }

  /** A request joins exactly when it can, with everything in place; otherwise the game is as it was, and so is Redis
      apart from the token, and the lock if its release failed. */
  ghost predicate Answers(st: State, g: Game, chars: Characters, c: Config, peer: Peer, req: Option<Request>, up: Reach, st': State, g': Game) {
    match req
    case None => NothingChanges(st, g, st', g')
    case Some(r) =>
      var v := See(st, c, r);
      if CanJoin(st, chars, c, req, up, v)
      then InPlace(st, g, Reply(st', g', Outcome.Joined), c.lockTTL, peer, v.found.value.userID, chars[v.found.value.characterID], v)
      else g' == g && SameExcept(st, st', if up.release then v.token else v.token + {v.lock})
  }

  /** The peer's slot, if it has a session, holds the packet; nothing else differs. */
  ghost predicate TakesInput(g: Game, peer: Peer, packet: Packet, g': Game) {
    && g'.entities == g.entities && g'.tick == g.tick && g'.sessions.Keys == g.sessions.Keys
    && forall p | p in g.sessions ::
         g'.sessions[p] == if p == peer then g.sessions[p].(latestInput := Some(packet)) else g.sessions[p]
  }

  /** Non-empty data on channel 0 is a join request, a packet on channel 1 an input, and a disconnect a departure; every
      other event changes nothing. */
  ghost predicate Serves(a: Arrival, c: Config, g: Game, st': State, g': Game) {
    match a.event
    case Received(peer, channel, data) =>
      if channel == 0 && !data.empty then Answers(a.redis, g, a.chars, c, peer, data.request, a.up, st', g')
      else if channel == 1 && data.input.Some? then st' == a.redis && TakesInput(g, peer, data.input.value, g')
      else NothingChanges(a.redis, g, st', g')
    case Disconnected(peer) => Departs(a.redis, g, c, peer, a.up.release, st', g')
    case Connected(_) => NothingChanges(a.redis, g, st', g')
    case Silence => NothingChanges(a.redis, g, st', g')
  }

  lemma LeaveDeparts(st: State, g: Game, c: Config, peer: Peer, released: bool)
    ensures var (st', g') := HandleDisconnect(st, g, c, peer, released); Departs(st, g, c, peer, released, st', g')
  {
    if peer in g.sessions {
      Shutdown.ReleaseExactly(st, g.sessions[peer].characterID, c.serverID, released);
    } else {
      assert g.sessions - {peer} == g.sessions;
    }
  }

  lemma AtomicAnswers(st: State, g: Game, chars: Characters, c: Config, peer: Peer, r: Request, up: Reach, reply: Reply, v: View)
    requires v == See(st, c, r) && Atomic(st, g, chars, c, peer, Some(r), up, reply, v)
    ensures Answers(st, g, chars, c, peer, Some(r), up, reply.redis, reply.game)
  {
    assert v.token + {} == v.token;
  }

  lemma JoinAnswers(st: State, g: Game, chars: Characters, c: Config, peer: Peer, req: Option<Request>, up: Reach)
    requires c.lockTTL > 0
    ensures var reply := HandleJoin(st, g, chars, c, peer, req, up); Answers(st, g, chars, c, peer, req, up, reply.redis, reply.game)
  {
    if req.Some? {
      var v := See(st, c, req.value);
      JoinAtomicity(st, g, chars, c, peer, req.value, up);
      AtomicAnswers(st, g, chars, c, peer, req.value, up, HandleJoin(st, g, chars, c, peer, req, up), v);
    }
  }

  /** The dispatch does what its events call for. */
  lemma EventServes(a: Arrival, c: Config, g: Game)
    requires c.lockTTL > 0
    ensures Serves(a, c, g, RedisAfter(g, c, a), Apply(g, GameEvent(g, c, a)))
  {
    match a.event
    case Received(peer, channel, data) =>
      if channel == 0 && !data.empty {
        JoinIsEvent(a.redis, g, a.chars, c, peer, data.request, a.up);
        JoinAnswers(a.redis, g, a.chars, c, peer, data.request, a.up);
      }
    case Disconnected(peer) =>
      DisconnectIsLeave(a.redis, g, c, peer, a.up.release);
      LeaveDeparts(a.redis, g, c, peer, a.up.release);
    case _ =>
  }
}
