/** The state of one game server as values, and what each event and tick does to it
    (internal/game/world.go, session.go, simulation.go). The classes refine these functions. */
module GameState {
  import opened Wrappers
  import opened Domain

  /** An ENet peer, an opaque handle. */
  type Peer = nat

  datatype EntityType = Player | Npc

  datatype EntityVal = EntityVal(id: string, kind: EntityType, position: Vec2, velocity: Vec2)

  /** An input packet; the move direction may be missing. */
  datatype Packet = Packet(direction: Option<Vec2>)

  datatype SessionVal = SessionVal(userID: string, characterID: string, entityID: string, latestInput: Option<Packet>)

  datatype Game = Game(entities: map<string, EntityVal>, sessions: map<Peer, SessionVal>, tick: nat)

  function EntityID(characterID: string): string {
    "char_" + characterID
  }

  lemma EntityIDInjective(a: string, b: string)
    ensures EntityID(a) == EntityID(b) <==> a == b
  {
    assert EntityID(a)[5..] == a && EntityID(b)[5..] == b;
  }

  // ---- Moving one entity ----

  function Clamp(v: real, low: real, high: real): (r: real)
    requires low <= high
    ensures low <= r <= high
    ensures low <= v <= high ==> r == v
    ensures v < low ==> r == low
    ensures v > high ==> r == high
  {
    if v < low then low else if v > high then high else v
  }

  /** Displacement along one axis: the requested direction clamped to [-1, 1], times the speed. */
  function Displacement(d: real, speed: real): (r: real)
    ensures speed >= 0.0 ==> -speed <= r <= speed
  {
    var k := Clamp(d, -1.0, 1.0);
    ScaledWithin(k, speed);
    k * speed
  }

  lemma ScaledWithin(d: real, speed: real)
    requires -1.0 <= d <= 1.0
    ensures speed >= 0.0 ==> -speed <= d * speed <= speed
  {
  }

  function Velocity(direction: Vec2, speed: real): Vec2 {
    Vec2(Displacement(direction.x, speed), Displacement(direction.y, speed))
  }

  function Moved(e: EntityVal, direction: Vec2, speed: real): EntityVal {
    var v := Velocity(direction, speed);
    e.(position := Vec2(e.position.x + v.x, e.position.y + v.y), velocity := v)
  }

  /** An entity after its session's slot: an empty slot and a packet without direction move nothing. */
  function Applied(e: EntityVal, input: Option<Packet>, speed: real): EntityVal {
    match input
    case Some(Packet(Some(direction))) => Moved(e, direction, speed)
    case _ => e
  }

  /** One coordinate after one input: a whole step of `speed` beyond 1 or -1, and in proportion between them. */
  predicate Stepped(from: real, to: real, d: real, speed: real) {
    && (d > 1.0 ==> to == from + speed)
    && (d < -1.0 ==> to == from - speed)
    && (-1.0 <= d <= 1.0 ==> to == from + d * speed)
  }

  /** The entity has gone along the direction, each axis on its own; its velocity is how far it went. */
  predicate Pushed(e: EntityVal, e': EntityVal, direction: Vec2, speed: real) {
    && e'.id == e.id && e'.kind == e.kind
    && Stepped(e.position.x, e'.position.x, direction.x, speed)
    && Stepped(e.position.y, e'.position.y, direction.y, speed)
    && e'.velocity.x == e'.position.x - e.position.x
    && e'.velocity.y == e'.position.y - e.position.y
  }

  lemma DisplacementSteps(from: real, d: real, speed: real)
    ensures Stepped(from, from + Displacement(d, speed), d, speed)
  {
  }

  /** A packet with a direction pushes the entity along it; anything else leaves it as it was. */
  lemma AppliedPushes(e: EntityVal, input: Option<Packet>, speed: real)
    ensures match input
            case Some(Packet(Some(direction))) => Pushed(e, Applied(e, input, speed), direction, speed)
            case _ => Applied(e, input, speed) == e
  {
    if input.Some? && input.value.direction.Some? {
      var d := input.value.direction.value;
      DisplacementSteps(e.position.x, d.x, speed);
      DisplacementSteps(e.position.y, d.y, speed);
    }
  }

  function ProcessInput(entities: map<string, EntityVal>, entityID: string, input: Packet, speed: real): map<string, EntityVal> {
    if entityID in entities then entities[entityID := Applied(entities[entityID], Some(input), speed)] else entities
  }

  // ---- Draining the input slots in some order ----

  /** order lists every session once; which order is up to the map iteration. */
  ghost predicate Enumerates(order: seq<Peer>, sessions: map<Peer, SessionVal>) {
    && (forall i, j | 0 <= i < j < |order| :: order[i] != order[j])
    && (forall p :: p in order <==> p in sessions)
  }

  function DrainInOrder(entities: map<string, EntityVal>, sessions: map<Peer, SessionVal>, order: seq<Peer>, speed: real): map<string, EntityVal> {
    if order == [] then entities
    else
      DrainOne(DrainInOrder(entities, sessions, order[..|order| - 1], speed), sessions, order[|order| - 1], speed)
  }

  function DrainOne(entities: map<string, EntityVal>, sessions: map<Peer, SessionVal>, peer: Peer, speed: real): map<string, EntityVal> {
    if peer in sessions && sessions[peer].latestInput.Some?
    then ProcessInput(entities, sessions[peer].entityID, sessions[peer].latestInput.value, speed)
    else entities
  }

  function EmptySlots(sessions: map<Peer, SessionVal>): map<Peer, SessionVal> {
    map p | p in sessions :: sessions[p].(latestInput := None)
  }

  ghost predicate DistinctEntities(sessions: map<Peer, SessionVal>) {
    forall p, q | p in sessions && q in sessions && p != q :: sessions[p].entityID != sessions[q].entityID
  }

  /** The result of a drain told without any order: each entity moves by its own session's slot. */
  ghost predicate MovedBySlots(before: map<string, EntityVal>, after: map<string, EntityVal>, sessions: map<Peer, SessionVal>, peers: seq<Peer>, speed: real) {
    && after.Keys == before.Keys
    && (forall p | p in peers && p in sessions && sessions[p].entityID in before ::
          after[sessions[p].entityID] == Applied(before[sessions[p].entityID], sessions[p].latestInput, speed))
    && (forall id | id in before && (forall p | p in peers && p in sessions :: sessions[p].entityID != id) :: after[id] == before[id])
  }

  lemma OneMoreSlot(before: map<string, EntityVal>, mid: map<string, EntityVal>, sessions: map<Peer, SessionVal>, peers: seq<Peer>, last: Peer, speed: real)
    requires DistinctEntities(sessions) && last !in peers
    requires MovedBySlots(before, mid, sessions, peers, speed)
    ensures MovedBySlots(before, DrainOne(mid, sessions, last, speed), sessions, peers + [last], speed)
  {
    var after := DrainOne(mid, sessions, last, speed);
    assert forall p :: p in peers + [last] <==> p in peers || p == last;
    if last in sessions {
      var id := sessions[last].entityID;
      assert forall p | p in peers && p in sessions :: sessions[p].entityID != id;
      assert id in before ==> mid[id] == before[id];
    }
  }

  lemma {:induction false} DrainMovesBySlots(entities: map<string, EntityVal>, sessions: map<Peer, SessionVal>, order: seq<Peer>, speed: real)
    requires DistinctEntities(sessions)
    requires forall i, j | 0 <= i < j < |order| :: order[i] != order[j]
    ensures MovedBySlots(entities, DrainInOrder(entities, sessions, order, speed), sessions, order, speed)
  {
    if order != [] {
      var rest, last := order[..|order| - 1], order[|order| - 1];
      DrainMovesBySlots(entities, sessions, rest, speed);
      OneMoreSlot(entities, DrainInOrder(entities, sessions, rest, speed), sessions, rest, last, speed);
      assert order == rest + [last];
    }
  }

  /** Where the entity of a session goes in a drain, in whatever order the sessions come: along the direction of the
      packet in that session's slot, or nowhere. */
  ghost predicate GoesBySlot(before: map<string, EntityVal>, after: map<string, EntityVal>, session: SessionVal, speed: real) {
    var id := session.entityID;
    id in before ==>
      && id in after
      && match session.latestInput
         case Some(Packet(Some(direction))) => Pushed(before[id], after[id], direction, speed)
         case _ => after[id] == before[id]
  }

  lemma DrainPushes(entities: map<string, EntityVal>, sessions: map<Peer, SessionVal>, order: seq<Peer>, speed: real, p: Peer)
    requires DistinctEntities(sessions) && Enumerates(order, sessions) && p in sessions
    ensures GoesBySlot(entities, DrainInOrder(entities, sessions, order, speed), sessions[p], speed)
  {
    DrainMovesBySlots(entities, sessions, order, speed);
    if sessions[p].entityID in entities {
      AppliedPushes(entities[sessions[p].entityID], sessions[p].latestInput, speed);
    }
  }

  lemma {:induction false} DrainKeepsKeys(entities: map<string, EntityVal>, sessions: map<Peer, SessionVal>, order: seq<Peer>, speed: real)
    ensures DrainInOrder(entities, sessions, order, speed).Keys == entities.Keys
  {
    if order != [] {
      DrainKeepsKeys(entities, sessions, order[..|order| - 1], speed);
    }
  }

  /** A finite map can be iterated in some order. */
  lemma {:induction false} SomeOrder(sessions: map<Peer, SessionVal>) returns (order: seq<Peer>)
    ensures Enumerates(order, sessions)
    decreases |sessions|
  {
    if sessions == map[] {
      order := [];
    } else {
      var p :| p in sessions;
      assert sessions == (sessions - {p})[p := sessions[p]];
      assert |(sessions - {p}).Keys| == |sessions.Keys| - 1 by {
        assert (sessions - {p}).Keys == sessions.Keys - {p};
      }
      var rest := SomeOrder(sessions - {p});
      order := rest + [p];
    }
  }

  // ---- Events and ticks ----

  datatype Event =
    | Nothing
    | Input(peer: Peer, packet: Packet)
    | Joined(peer: Peer, userID: string, character: Character)
    | Left(peer: Peer)

  function NewEntity(c: Character): EntityVal {
    EntityVal(EntityID(c.id), Player, c.position, Vec2(0.0, 0.0))
  }

  function Receive(g: Game, peer: Peer, packet: Packet): Game {
    if peer in g.sessions then g.(sessions := g.sessions[peer := g.sessions[peer].(latestInput := Some(packet))]) else g
  }

  function Enter(g: Game, peer: Peer, userID: string, c: Character): Game {
    g.(entities := g.entities[EntityID(c.id) := NewEntity(c)],
       sessions := g.sessions[peer := SessionVal(userID, c.id, EntityID(c.id), None)])
  }

  function Leave(g: Game, peer: Peer): Game {
    if peer in g.sessions then
      var id := g.sessions[peer].entityID;
      g.(entities := if id == "" then g.entities else g.entities - {id}, sessions := g.sessions - {peer})
    else g
  }

  function Apply(g: Game, ev: Event): Game {
    match ev
    case Nothing => g
    case Input(peer, packet) => Receive(g, peer, packet)
    case Joined(peer, userID, c) => Enter(g, peer, userID, c)
    case Left(peer) => Leave(g, peer)
  }

  function Tick(g: Game, order: seq<Peer>, speed: real): Game {
    Game(DrainInOrder(g.entities, g.sessions, order, speed), EmptySlots(g.sessions), g.tick + 1)
  }

  /** A tick moves each session's entity by its slot and leaves the rest of the world where it was, empties every slot,
      changes nothing else of any session, and counts. */
  lemma TickMoves(g: Game, order: seq<Peer>, speed: real)
    requires DistinctEntities(g.sessions) && Enumerates(order, g.sessions)
    ensures var g' := Tick(g, order, speed);
            && g'.tick == g.tick + 1 && g'.entities.Keys == g.entities.Keys && g'.sessions.Keys == g.sessions.Keys
            && (forall p | p in g.sessions :: GoesBySlot(g.entities, g'.entities, g.sessions[p], speed))
            && (forall id | id in g.entities && (forall p | p in g.sessions :: g.sessions[p].entityID != id) :: g'.entities[id] == g.entities[id])
            && (forall p | p in g.sessions :: g'.sessions[p] == g.sessions[p].(latestInput := None))
  {
    DrainMovesBySlots(g.entities, g.sessions, order, speed);
    forall p | p in g.sessions ensures GoesBySlot(g.entities, Tick(g, order, speed).entities, g.sessions[p], speed) {
      DrainPushes(g.entities, g.sessions, order, speed, p);
    }
  }
}
