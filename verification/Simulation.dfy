/** The simulation tick over the heap: internal/game/simulation.go. */
module Simulation {
  import opened Wrappers
  import opened Domain
  import opened GameState
  import opened World
  import opened Sessions

  const DEFAULT_TICK_RATE: int := 64
  const DEFAULT_MOVE_SPEED: real := 0.05

  /** Nanoseconds. */
  const SECOND: nat := 1_000_000_000

  class Simulation {
    const tickRate: int
    const moveSpeed: real

    constructor (tickRate: int, moveSpeed: real)
      ensures this.tickRate == (if tickRate <= 0 then 64 else tickRate)
      ensures this.moveSpeed == (if moveSpeed <= 0.0 then 0.05 else moveSpeed)
      ensures this.tickRate > 0 && this.moveSpeed > 0.0
    {
      this.tickRate := if tickRate <= 0 then DEFAULT_TICK_RATE else tickRate;
      this.moveSpeed := if moveSpeed <= 0.0 then DEFAULT_MOVE_SPEED else moveSpeed;
    }

    /** The longest whole interval that fits tickRate times into a second; zero past one tick per nanosecond. */
    function TickInterval(): (interval: nat)
      requires tickRate > 0
      ensures interval * tickRate <= SECOND < (interval + 1) * tickRate
      ensures interval > 0 <==> tickRate <= SECOND
    {
      assert SECOND == SECOND / tickRate * tickRate + SECOND % tickRate;
      assert (SECOND / tickRate + 1) * tickRate == SECOND / tickRate * tickRate + tickRate;
      SECOND / tickRate
    }

    /** Moves one entity in place. */
    method Move(entity: Entity, direction: Vec2)
      modifies entity
      ensures entity.Value() == Moved(old(entity.Value()), direction, moveSpeed)
      ensures Pushed(old(entity.Value()), entity.Value(), direction, moveSpeed)
    {
      var dx, dy := Clamp(direction.x, -1.0, 1.0), Clamp(direction.y, -1.0, 1.0);
      entity.position := Vec2(entity.position.x + dx * moveSpeed, entity.position.y + dy * moveSpeed);
      entity.velocity := Vec2(dx * moveSpeed, dy * moveSpeed);
      AppliedPushes(old(entity.Value()), Some(Packet(Some(direction))), moveSpeed);
    }

    method ProcessInput(world: World, entityID: string, input: Packet)
      requires world.Valid()
      modifies world.Repr
      ensures world.Contents() == GameState.ProcessInput(old(world.Contents()), entityID, input, moveSpeed)
      ensures entityID in old(world.Contents()) && input.direction.Some? ==>
                && entityID in world.Contents()
                && Pushed(old(world.Contents())[entityID], world.Contents()[entityID], input.direction.value, moveSpeed)
      ensures entityID !in old(world.Contents()) || input.direction.None? ==> world.Contents() == old(world.Contents())
    {
      var entity := world.GetEntity(entityID);
      if entity == null {
        return;
      }
      if input.direction.None? {
        return;
      }
      Move(entity, input.direction.value);
      ghost var before := old(world.Contents());
      assert world.Contents()[entityID] == Applied(before[entityID], Some(input), moveSpeed);
      assert forall id | id in before && id != entityID :: world.Contents()[id] == before[id];
    }

    /** One trip through the drain loop: the session's slot is applied and emptied. */
    method DrainSession(world: World, session: Session)
      requires world.Valid()
      modifies world.Repr, session`latestInput
      ensures session.latestInput == None
      ensures world.Contents() ==
                if old(session.latestInput).None? then old(world.Contents())
                else GameState.ProcessInput(old(world.Contents()), session.entityID, old(session.latestInput).value, moveSpeed)
    {
      if session.latestInput.None? {
        return;
      }
      ProcessInput(world, session.entityID, session.latestInput.value);
      session.latestInput := None;
    }

    /** The loop over the listed sessions; slots is what they held at the start. */
    method DrainList(world: World, list: seq<Session>, ghost slots: map<Peer, SessionVal>)
      requires world.Valid()
      requires forall i | 0 <= i < |list| :: list[i].peer in slots && slots[list[i].peer] == list[i].Value()
      requires forall i, j | 0 <= i < j < |list| :: list[i].peer != list[j].peer
      modifies world.Repr, list
      ensures forall i | 0 <= i < |list| :: list[i].latestInput == None
      ensures world.Contents() == DrainInOrder(old(world.Contents()), slots, Peers(list), moveSpeed)
    {
      ghost var before, order := world.Contents(), Peers(list);
      for i := 0 to |list|
        invariant world.Contents() == DrainInOrder(before, slots, order[..i], moveSpeed)
        invariant forall j | 0 <= j < i :: list[j].latestInput == None
        invariant forall j | i <= j < |list| :: list[j].latestInput == slots[order[j]].latestInput
      {
        DrainOneMore(before, slots, order, i, moveSpeed);
        DrainSession(world, list[i]);
      }
      assert order[..|list|] == order;
    }

    /** The drain over the heap is the drain over values, in the order the session map happened to yield. */
    method DrainInputs(world: World, sessions: SessionManager) returns (ghost order: seq<Peer>)
      requires world.Valid() && sessions.Valid()
      modifies world.Repr, sessions.Repr
      ensures Enumerates(order, old(sessions.Contents()))
      ensures world.Contents() == DrainInOrder(old(world.Contents()), old(sessions.Contents()), order, moveSpeed)
      ensures sessions.Contents() == EmptySlots(old(sessions.Contents()))
    {
      ghost var entities, slots, filed := world.Contents(), sessions.Contents(), sessions.sessions;
      var all := sessions.All();
      order := Peers(all);
      assert world.Contents() == entities && sessions.Contents() == slots;
      DrainList(world, all, slots);
      assert sessions.sessions == filed;
      forall p | p in slots ensures filed[p].Value() == slots[p].(latestInput := None) {
        var j :| 0 <= j < |order| && order[j] == p;
        assert all[j] == filed[p] && all[j].latestInput == None;
      }
      SlotsEmptied(sessions, slots);
    }
  }

  lemma SlotsEmptied(sessions: SessionManager, slots: map<Peer, SessionVal>)
    requires sessions.Valid() && sessions.sessions.Keys == slots.Keys
    requires forall p | p in slots :: sessions.sessions[p].Value() == slots[p].(latestInput := None)
    ensures sessions.Contents() == EmptySlots(slots)
  {
  }

  lemma DrainOneMore(entities: map<string, EntityVal>, sessions: map<Peer, SessionVal>, order: seq<Peer>, i: nat, speed: real)
    requires i < |order|
    ensures DrainInOrder(entities, sessions, order[..i + 1], speed)
         == DrainOne(DrainInOrder(entities, sessions, order[..i], speed), sessions, order[i], speed)
  {
    assert order[..i + 1][..i] == order[..i];
  }
}
