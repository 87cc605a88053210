/** The input slot that packets overwrite, against a specification that keeps every packet received since
    the last tick and applies only the last of them. */
module LatestWins {
  import opened Wrappers
  import opened Domain
  import opened GameState
  import GameLoop

  /** A session with the packets received since the previous tick, oldest first. */
  datatype QueuedSession = QueuedSession(userID: string, characterID: string, entityID: string, received: seq<Packet>)

  datatype QueuedGame = QueuedGame(entities: map<string, EntityVal>, sessions: map<Peer, QueuedSession>, tick: nat)

  function Enqueue(g: QueuedGame, peer: Peer, packet: Packet): QueuedGame {
    if peer in g.sessions then
      g.(sessions := g.sessions[peer := g.sessions[peer].(received := g.sessions[peer].received + [packet])])
    else g
  }

  function ApplyQueued(g: QueuedGame, ev: Event): QueuedGame {
    match ev
    case Nothing => g
    case Input(peer, packet) => Enqueue(g, peer, packet)
    case Joined(peer, userID, c) =>
      g.(entities := g.entities[EntityID(c.id) := NewEntity(c)],
         sessions := g.sessions[peer := QueuedSession(userID, c.id, EntityID(c.id), [])])
    case Left(peer) =>
      if peer in g.sessions then
        var id := g.sessions[peer].entityID;
        g.(entities := if id == "" then g.entities else g.entities - {id}, sessions := g.sessions - {peer})
      else g
  }

  /** At a tick, the last packet of each session moves its entity, if it has a direction. */
  function ApplyLast(entities: map<string, EntityVal>, s: QueuedSession, speed: real): map<string, EntityVal> {
    if s.received == [] || s.entityID !in entities then entities
    else
      match s.received[|s.received| - 1].direction
      case None => entities
      case Some(direction) => entities[s.entityID := Moved(entities[s.entityID], direction, speed)]
  }

  function DrainQueues(entities: map<string, EntityVal>, sessions: map<Peer, QueuedSession>, order: seq<Peer>, speed: real): map<string, EntityVal> {
    if order == [] then entities
    else
      var before := DrainQueues(entities, sessions, order[..|order| - 1], speed);
      var last := order[|order| - 1];
      if last in sessions then ApplyLast(before, sessions[last], speed) else before
  }

  /** Every queue is emptied, so no packet is applied twice. */
  function TickQueued(g: QueuedGame, order: seq<Peer>, speed: real): QueuedGame {
    QueuedGame(DrainQueues(g.entities, g.sessions, order, speed),
               map p | p in g.sessions :: g.sessions[p].(received := []), g.tick + 1)
  }

  datatype QueuedLoop = QueuedLoop(game: QueuedGame, lastTick: nat, sinceBroadcast: nat, broadcasts: seq<GameLoop.Snapshot>)

  function NextQueued(l: QueuedLoop, t: GameLoop.Turn, c: GameLoop.Config): QueuedLoop {
    var g := ApplyQueued(l.game, t.event);
    var ticked :=
      if t.now - l.lastTick >= c.interval
      then QueuedLoop(TickQueued(g, t.order, c.speed), t.now, l.sinceBroadcast + 1, l.broadcasts)
      else l.(game := g);
    if ticked.sinceBroadcast >= GameLoop.BROADCAST_DIVISOR then
      var sent := if |ticked.game.sessions| > 0 then [GameLoop.Snapshot(ticked.game.tick, ticked.game.entities)] else [];
      ticked.(sinceBroadcast := 0, broadcasts := ticked.broadcasts + sent)
    else ticked
  }

  function AtQueued(l: QueuedLoop, turns: seq<GameLoop.Turn>, c: GameLoop.Config, n: nat): QueuedLoop
    requires n <= |turns|
  {
    if n == 0 then l else NextQueued(AtQueued(l, turns, c, n - 1), turns[n - 1], c)
  }

  // ---- The slot is the last element of the queue ----

  function Latest(s: QueuedSession): SessionVal {
    SessionVal(s.userID, s.characterID, s.entityID,
               if s.received == [] then None else Some(s.received[|s.received| - 1]))
  }

  function Slots(sessions: map<Peer, QueuedSession>): (r: map<Peer, SessionVal>)
    ensures r.Keys == sessions.Keys
  {
    map p | p in sessions :: Latest(sessions[p])
  }

  function Forget(g: QueuedGame): Game {
    Game(g.entities, Slots(g.sessions), g.tick)
  }

  function ForgetLoop(l: QueuedLoop): GameLoop.Loop {
    GameLoop.Loop(Forget(l.game), l.lastTick, l.sinceBroadcast, l.broadcasts)
  }

  lemma EnqueueRefines(g: QueuedGame, peer: Peer, packet: Packet)
    ensures Forget(Enqueue(g, peer, packet)) == Receive(Forget(g), peer, packet)
  {
    var a, b := Slots(Enqueue(g, peer, packet).sessions), Receive(Forget(g), peer, packet).sessions;
    assert a.Keys == b.Keys;
    forall p | p in a ensures a[p] == b[p] {
    }
  }

  lemma LeaveRefines(sessions: map<Peer, QueuedSession>, peer: Peer)
    ensures Slots(sessions - {peer}) == Slots(sessions) - {peer}
  {
  }

  lemma EventRefines(g: QueuedGame, ev: Event)
    ensures Forget(ApplyQueued(g, ev)) == Apply(Forget(g), ev)
  {
    match ev
    case Nothing =>
    case Input(peer, packet) => EnqueueRefines(g, peer, packet);
    case Joined(peer, userID, c) =>
      assert Forget(ApplyQueued(g, ev)).sessions == Apply(Forget(g), ev).sessions;
    case Left(peer) => LeaveRefines(g.sessions, peer);
  }

  lemma OneSlotRefines(entities: map<string, EntityVal>, sessions: map<Peer, QueuedSession>, peer: Peer, speed: real)
    ensures DrainOne(entities, Slots(sessions), peer, speed)
         == if peer in sessions then ApplyLast(entities, sessions[peer], speed) else entities
  {
  }

  lemma {:induction false} DrainRefines(entities: map<string, EntityVal>, sessions: map<Peer, QueuedSession>, order: seq<Peer>, speed: real)
    ensures DrainQueues(entities, sessions, order, speed) == DrainInOrder(entities, Slots(sessions), order, speed)
  {
    if order != [] {
      DrainRefines(entities, sessions, order[..|order| - 1], speed);
      OneSlotRefines(DrainQueues(entities, sessions, order[..|order| - 1], speed), sessions, order[|order| - 1], speed);
    }
  }

  lemma TickRefines(g: QueuedGame, order: seq<Peer>, speed: real)
    ensures Forget(TickQueued(g, order, speed)) == Tick(Forget(g), order, speed)
  {
    DrainRefines(g.entities, g.sessions, order, speed);
    assert Forget(TickQueued(g, order, speed)).sessions == EmptySlots(Slots(g.sessions));
  }

  lemma SameCount(sessions: map<Peer, QueuedSession>)
    ensures |Slots(sessions)| == |sessions|
  {
  }

  lemma TurnRefines(l: QueuedLoop, t: GameLoop.Turn, c: GameLoop.Config)
    ensures ForgetLoop(NextQueued(l, t, c)) == GameLoop.Next(ForgetLoop(l), t, c)
  {
    EventRefines(l.game, t.event);
    var g := ApplyQueued(l.game, t.event);
    TickRefines(g, t.order, c.speed);
    SameCount(g.sessions);
    SameCount(TickQueued(g, t.order, c.speed).sessions);
  }

  /** Latest wins: over every run the loop with one overwritten slot per session is the queueing loop with
      its queues cut down to their last packet; world, ticks and broadcasts are the same. */
  lemma {:induction false} LatestPacketWins(l: QueuedLoop, turns: seq<GameLoop.Turn>, c: GameLoop.Config, n: nat)
    requires n <= |turns|
    ensures ForgetLoop(AtQueued(l, turns, c, n)) == GameLoop.At(ForgetLoop(l), turns, c, n)
  {
    if n > 0 {
      LatestPacketWins(l, turns, c, n - 1);
      TurnRefines(AtQueued(l, turns, c, n - 1), turns[n - 1], c);
    }
  }
}
