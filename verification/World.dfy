/** The world of one game server: entities on the heap, reached through a map and mutated in place
    (internal/game/world.go). */
module World {
  import opened Domain
  import opened GameState

  class Entity {
    const id: string
    const kind: EntityType
    var position: Vec2
    var velocity: Vec2

    constructor (id: string, kind: EntityType, position: Vec2)
      ensures this.id == id && Value() == EntityVal(id, kind, position, Vec2(0.0, 0.0))
    {
      this.id := id;
      this.kind := kind;
      this.position := position;
      this.velocity := Vec2(0.0, 0.0);
    }

    function Value(): EntityVal
      reads this
    {
      EntityVal(id, kind, position, velocity)
    }
  }

  /** A copy of the contents as a list: every entity once, nothing else, in whatever order. */
  ghost predicate Lists(list: seq<EntityVal>, contents: map<string, EntityVal>) {
    && (forall i, j | 0 <= i < j < |list| :: list[i].id != list[j].id)
    && (forall e :: e in list <==> e.id in contents && contents[e.id] == e)
  }

  class World {
    var entities: map<string, Entity>
    var tick: nat
    /** The entities ever added: what a caller may see change. */
    ghost var Repr: set<Entity>

    /** Every entity is filed under its own ID, so no entity is reached under two IDs. */
    ghost predicate Valid()
      reads this
    {
      forall id | id in entities :: entities[id].id == id && entities[id] in Repr
    }

    ghost function Contents(): map<string, EntityVal>
      requires Valid()
      reads this, Repr
    {
      map id | id in entities :: entities[id].Value()
    }

    constructor ()
      ensures Valid() && Repr == {} && tick == 0 && Contents() == map[]
    {
      Repr := {};
      entities := map[];
      tick := 0;
    }

    method AddEntity(e: Entity)
      requires Valid()
      modifies this`entities, this`Repr
      ensures Valid() && Repr == old(Repr) + {e}
      ensures Contents() == old(Contents())[e.id := e.Value()]
    {
      entities := entities[e.id := e];
      Repr := Repr + {e};
    }

    method GetEntity(id: string) returns (e: Entity?)
      ensures e == if id in entities then entities[id] else null
    {
      e := if id in entities then entities[id] else null;
    }

    method RemoveEntity(e: Entity)
      requires Valid()
      modifies this`entities
      ensures Valid() && Contents() == old(Contents()) - {e.id}
    {
      entities := entities - {e.id};
    }

    method IncrementTick()
      requires Valid()
      modifies this`tick
      ensures tick == old(tick) + 1
      ensures Valid() && Contents() == old(Contents())
    {
      tick := tick + 1;
    }

    /** The copy holds values, so later mutation of the entities does not reach it. */
    method Snapshot() returns (list: seq<EntityVal>, at: nat)
      requires Valid()
      ensures Lists(list, Contents()) && at == tick
    {
      list, at := [], tick;
      var rest := entities.Keys;
      while rest != {}
        invariant rest <= entities.Keys
        invariant forall i | 0 <= i < |list| :: list[i].id in entities && list[i].id !in rest
        invariant forall i, j | 0 <= i < j < |list| :: list[i].id != list[j].id
        invariant forall e :: e in list <==> e.id in entities && e.id !in rest && entities[e.id].Value() == e
      {
        var id :| id in rest;
        rest := rest - {id};
        list := list + [entities[id].Value()];
      }
    }
  }
}
