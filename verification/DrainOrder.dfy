/** Exactly when a drain depends on the order in which the session map yields the sessions
    (internal/game/simulation.go). */
module DrainOrder {
  import opened Wrappers
  import opened Domain
  import opened GameState

  /** The session's slot holds a packet that moves an entity of the world. */
  predicate Moves(entities: map<string, EntityVal>, sessions: map<Peer, SessionVal>, p: Peer) {
    && p in sessions && sessions[p].entityID in entities
    && sessions[p].latestInput.Some? && sessions[p].latestInput.value.direction.Some?
  }

  predicate MovesOn(entities: map<string, EntityVal>, sessions: map<Peer, SessionVal>, p: Peer, id: string) {
    Moves(entities, sessions, p) && sessions[p].entityID == id
  }

  /** What the session's slot adds to its entity's position. */
  function Pull(entities: map<string, EntityVal>, sessions: map<Peer, SessionVal>, p: Peer, speed: real): Vec2
    requires Moves(entities, sessions, p)
  {
    Velocity(sessions[p].latestInput.value.direction.value, speed)
  }

  /** Any two sessions that move the same entity move it alike. */
  ghost predicate MovedAlike(entities: map<string, EntityVal>, sessions: map<Peer, SessionVal>, speed: real) {
    forall p, q | Moves(entities, sessions, p) && MovesOn(entities, sessions, q, sessions[p].entityID) ::
      Pull(entities, sessions, p, speed) == Pull(entities, sessions, q, speed)
  }

  ghost predicate OrderIrrelevant(entities: map<string, EntityVal>, sessions: map<Peer, SessionVal>, speed: real) {
    forall order, order' | Enumerates(order, sessions) && Enumerates(order', sessions) ::
      DrainInOrder(entities, sessions, order, speed) == DrainInOrder(entities, sessions, order', speed)
  }

  // ---- Moved alike: only the number of moves counts ----

  function Shift(e: EntityVal, v: Vec2): EntityVal {
    e.(position := Vec2(e.position.x + v.x, e.position.y + v.y), velocity := v)
  }

  function Shifted(e: EntityVal, v: Vec2, n: nat): EntityVal {
    if n == 0 then e else Shift(Shifted(e, v, n - 1), v)
  }

  function Movers(entities: map<string, EntityVal>, sessions: map<Peer, SessionVal>, order: seq<Peer>, id: string): nat {
    if order == [] then 0
    else
      Movers(entities, sessions, order[..|order| - 1], id)
      + if MovesOn(entities, sessions, order[|order| - 1], id) then 1 else 0
  }

  lemma OneMoves(entities: map<string, EntityVal>, mid: map<string, EntityVal>, sessions: map<Peer, SessionVal>, p: Peer, speed: real, id: string)
    requires mid.Keys == entities.Keys && id in entities
    ensures var after := DrainOne(mid, sessions, p, speed);
            && id in after
            && after[id] == if MovesOn(entities, sessions, p, id) then Shift(mid[id], Pull(entities, sessions, p, speed)) else mid[id]
  {
  }

  lemma {:induction false} DrainCounts(entities: map<string, EntityVal>, sessions: map<Peer, SessionVal>, order: seq<Peer>, speed: real, id: string, v: Vec2)
    requires id in entities
    requires forall p | MovesOn(entities, sessions, p, id) :: Pull(entities, sessions, p, speed) == v
    ensures id in DrainInOrder(entities, sessions, order, speed)
    ensures DrainInOrder(entities, sessions, order, speed)[id] == Shifted(entities[id], v, Movers(entities, sessions, order, id))
  {
    if order != [] {
      var rest, last := order[..|order| - 1], order[|order| - 1];
      DrainCounts(entities, sessions, rest, speed, id, v);
      DrainKeepsKeys(entities, sessions, rest, speed);
      OneMoves(entities, DrainInOrder(entities, sessions, rest, speed), sessions, last, speed, id);
    }
  }

  ghost function MoversIn(entities: map<string, EntityVal>, sessions: map<Peer, SessionVal>, order: seq<Peer>, id: string): set<Peer> {
    set p | p in order && MovesOn(entities, sessions, p, id)
  }

  lemma OneMore(s: set<Peer>, p: Peer)
    requires p !in s
    ensures |s + {p}| == |s| + 1
  {
  }

  lemma MoversGrow(entities: map<string, EntityVal>, sessions: map<Peer, SessionVal>, rest: seq<Peer>, last: Peer, id: string)
    requires last !in rest
    ensures |MoversIn(entities, sessions, rest + [last], id)|
         == |MoversIn(entities, sessions, rest, id)| + if MovesOn(entities, sessions, last, id) then 1 else 0
  {
    var before, after := MoversIn(entities, sessions, rest, id), MoversIn(entities, sessions, rest + [last], id);
    assert forall p :: p in rest + [last] <==> p in rest || p == last;
    if MovesOn(entities, sessions, last, id) {
      assert after == before + {last};
      OneMore(before, last);
    } else {
      assert after == before;
    }
  }

  lemma {:induction false} MoversCounted(entities: map<string, EntityVal>, sessions: map<Peer, SessionVal>, order: seq<Peer>, id: string)
    requires forall i, j | 0 <= i < j < |order| :: order[i] != order[j]
    ensures Movers(entities, sessions, order, id) == |MoversIn(entities, sessions, order, id)|
  {
    if order != [] {
      var rest, last := order[..|order| - 1], order[|order| - 1];
      MoversCounted(entities, sessions, rest, id);
      assert order == rest + [last] && last !in rest;
      MoversGrow(entities, sessions, rest, last, id);
    }
  }

  lemma SameMovers(entities: map<string, EntityVal>, sessions: map<Peer, SessionVal>, order: seq<Peer>, order': seq<Peer>, id: string)
    requires Enumerates(order, sessions) && Enumerates(order', sessions)
    ensures Movers(entities, sessions, order, id) == Movers(entities, sessions, order', id)
  {
    MoversCounted(entities, sessions, order, id);
    MoversCounted(entities, sessions, order', id);
    assert MoversIn(entities, sessions, order, id) == MoversIn(entities, sessions, order', id);
  }

  lemma EntityOrderFree(entities: map<string, EntityVal>, sessions: map<Peer, SessionVal>, order: seq<Peer>, order': seq<Peer>, speed: real, id: string)
    requires MovedAlike(entities, sessions, speed) && Enumerates(order, sessions) && Enumerates(order', sessions) && id in entities
    ensures id in DrainInOrder(entities, sessions, order, speed) && id in DrainInOrder(entities, sessions, order', speed)
    ensures DrainInOrder(entities, sessions, order, speed)[id] == DrainInOrder(entities, sessions, order', speed)[id]
  {
    var v := Vec2(0.0, 0.0);
    if p :| MovesOn(entities, sessions, p, id) {
      v := Pull(entities, sessions, p, speed);
    }
    SameMovers(entities, sessions, order, order', id);
    DrainCounts(entities, sessions, order, speed, id, v);
    DrainCounts(entities, sessions, order', speed, id, v);
  }

  lemma AlikeIsOrderFree(entities: map<string, EntityVal>, sessions: map<Peer, SessionVal>, speed: real)
    requires MovedAlike(entities, sessions, speed)
    ensures OrderIrrelevant(entities, sessions, speed)
  {
    forall order, order' | Enumerates(order, sessions) && Enumerates(order', sessions)
      ensures DrainInOrder(entities, sessions, order, speed) == DrainInOrder(entities, sessions, order', speed)
    {
      DrainKeepsKeys(entities, sessions, order, speed);
      DrainKeepsKeys(entities, sessions, order', speed);
      forall id | id in entities
        ensures DrainInOrder(entities, sessions, order, speed)[id] == DrainInOrder(entities, sessions, order', speed)[id]
      {
        EntityOrderFree(entities, sessions, order, order', speed, id);
      }
    }
  }

  // ---- Not moved alike: the last two decide ----

  lemma TwoLast(entities: map<string, EntityVal>, sessions: map<Peer, SessionVal>, rest: seq<Peer>, p: Peer, q: Peer, speed: real, id: string)
    requires MovesOn(entities, sessions, p, id) && MovesOn(entities, sessions, q, id)
    ensures var mid, after := DrainInOrder(entities, sessions, rest, speed), DrainInOrder(entities, sessions, rest + [p, q], speed);
            && id in mid && id in after
            && after[id] == Shift(Shift(mid[id], Pull(entities, sessions, p, speed)), Pull(entities, sessions, q, speed))
  {
    var mid := DrainInOrder(entities, sessions, rest, speed);
    assert (rest + [p, q])[..|rest| + 1] == rest + [p] && (rest + [p])[..|rest|] == rest;
    var once := DrainInOrder(entities, sessions, rest + [p], speed);
    DrainKeepsKeys(entities, sessions, rest, speed);
    DrainKeepsKeys(entities, sessions, rest + [p], speed);
    assert once == DrainOne(mid, sessions, p, speed);
    assert DrainInOrder(entities, sessions, rest + [p, q], speed) == DrainOne(once, sessions, q, speed);
    OneMoves(entities, mid, sessions, p, speed, id);
    OneMoves(entities, once, sessions, q, speed, id);
  }

  lemma ShiftTwice(e: EntityVal, v: Vec2, w: Vec2)
    ensures Shift(Shift(e, v), w) == Shift(Shift(e, w), v) <==> v == w
  {
  }

  lemma LastTwoEnumerate(sessions: map<Peer, SessionVal>, rest: seq<Peer>, p: Peer, q: Peer)
    requires p in sessions && q in sessions && p != q && Enumerates(rest, sessions - {p, q})
    ensures Enumerates(rest + [p, q], sessions)
  {
    forall x ensures x in rest + [p, q] <==> x in sessions {
      assert x in rest + [p, q] <==> x in rest || x == p || x == q;
    }
  }

  lemma DifferentAt(entities: map<string, EntityVal>, sessions: map<Peer, SessionVal>, speed: real, order: seq<Peer>, order': seq<Peer>, id: string)
    requires Enumerates(order, sessions) && Enumerates(order', sessions)
    requires id in DrainInOrder(entities, sessions, order, speed) && id in DrainInOrder(entities, sessions, order', speed)
    requires DrainInOrder(entities, sessions, order, speed)[id] != DrainInOrder(entities, sessions, order', speed)[id]
    ensures !OrderIrrelevant(entities, sessions, speed)
  {
  }

  lemma UnlikeDepends(entities: map<string, EntityVal>, sessions: map<Peer, SessionVal>, speed: real, p: Peer, q: Peer)
    requires Moves(entities, sessions, p) && MovesOn(entities, sessions, q, sessions[p].entityID)
    requires Pull(entities, sessions, p, speed) != Pull(entities, sessions, q, speed)
    ensures !OrderIrrelevant(entities, sessions, speed)
  {
    var id := sessions[p].entityID;
    var rest := SomeOrder(sessions - {p, q});
    LastTwoEnumerate(sessions, rest, p, q);
    assert sessions - {q, p} == sessions - {p, q};
    LastTwoEnumerate(sessions, rest, q, p);
    TwoLast(entities, sessions, rest, p, q, speed, id);
    TwoLast(entities, sessions, rest, q, p, speed, id);
    ShiftTwice(DrainInOrder(entities, sessions, rest, speed)[id], Pull(entities, sessions, p, speed), Pull(entities, sessions, q, speed));
    DifferentAt(entities, sessions, speed, rest + [p, q], rest + [q, p], id);
  }

  /** A drain gives the same world in every order if and only if any two sessions that move the same entity
      move it alike. */
  lemma OrderIrrelevantIff(entities: map<string, EntityVal>, sessions: map<Peer, SessionVal>, speed: real)
    ensures OrderIrrelevant(entities, sessions, speed) <==> MovedAlike(entities, sessions, speed)
  {
    if MovedAlike(entities, sessions, speed) {
      AlikeIsOrderFree(entities, sessions, speed);
    } else {
      var p, q :| Moves(entities, sessions, p) && MovesOn(entities, sessions, q, sessions[p].entityID)
                  && Pull(entities, sessions, p, speed) != Pull(entities, sessions, q, speed);
      UnlikeDepends(entities, sessions, speed, p, q);
    }
  }

  /** In particular when no two sessions share an entity. */
  lemma DrainOrderIrrelevant(entities: map<string, EntityVal>, sessions: map<Peer, SessionVal>, order: seq<Peer>, order': seq<Peer>, speed: real)
    requires DistinctEntities(sessions) && Enumerates(order, sessions) && Enumerates(order', sessions)
    ensures DrainInOrder(entities, sessions, order, speed) == DrainInOrder(entities, sessions, order', speed)
  {
    OrderIrrelevantIff(entities, sessions, speed);
  }
}
