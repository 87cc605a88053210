/** The game loop of internal/game/server.go as a run of turns, and what holds over whole runs. */
module GameLoop {
  import opened Wrappers
  import opened Domain
  import opened GameState

  /** defaultBroadcastTickDivisor. */
  const BROADCAST_DIVISOR: nat := 2

  /** One trip through the loop: the event served, the clock reading after it, and the order in which
      the session map would be iterated. */
  datatype Turn = Turn(event: Event, now: nat, order: seq<Peer>)

  datatype Snapshot = Snapshot(tick: nat, entities: map<string, EntityVal>)

  datatype Loop = Loop(game: Game, lastTick: nat, sinceBroadcast: nat, broadcasts: seq<Snapshot>)

  datatype Config = Config(interval: nat, speed: real)

  predicate Due(l: Loop, t: Turn, c: Config) {
    t.now - l.lastTick >= c.interval
  }

  function AfterTick(l: Loop, t: Turn, c: Config): Loop {
    var g := Apply(l.game, t.event);
    if Due(l, t, c) then Loop(Tick(g, t.order, c.speed), t.now, l.sinceBroadcast + 1, l.broadcasts) else l.(game := g)
  }

  function AfterBroadcast(l: Loop): Loop {
    if l.sinceBroadcast >= BROADCAST_DIVISOR then
      var sent := if |l.game.sessions| > 0 then [Snapshot(l.game.tick, l.game.entities)] else [];
      l.(sinceBroadcast := 0, broadcasts := l.broadcasts + sent)
    else l
  }

  function Next(l: Loop, t: Turn, c: Config): Loop {
    AfterBroadcast(AfterTick(l, t, c))
  }

  function At(l: Loop, turns: seq<Turn>, c: Config, n: nat): Loop
    requires n <= |turns|
  {
    if n == 0 then l else Next(At(l, turns, c, n - 1), turns[n - 1], c)
  }

  /** The loop as runGameLoop enters it at time `now`. */
  function Start(g: Game, now: nat): Loop {
    Loop(g, now, 0, [])
  }

  /** The turn's order is one the session map could yield, and no two sessions share an entity. */
  ghost predicate GoodTurn(l: Loop, turns: seq<Turn>, c: Config, k: nat)
    requires k < |turns|
  {
    var sessions := Apply(At(l, turns, c, k).game, turns[k].event).sessions;
    Enumerates(turns[k].order, sessions) && DistinctEntities(sessions)
  }

  ghost predicate GoodTurns(l: Loop, turns: seq<Turn>, c: Config) {
    forall k | 0 <= k < |turns| :: GoodTurn(l, turns, c, k)
  }

  /** Clock readings never go back, and the first comes after the loop was entered. */
  ghost predicate Ordered(l: Loop, turns: seq<Turn>) {
    && (forall k | 0 <= k < |turns| :: l.lastTick <= turns[k].now)
    && (forall j, k | 0 <= j <= k < |turns| :: turns[j].now <= turns[k].now)
  }

  // ---- Ticks are gated by time ----

  /** Number of ticks in the turns i, ..., j - 1. */
  function Ticks(l: Loop, turns: seq<Turn>, c: Config, i: nat, j: nat): nat
    requires i <= j <= |turns|
  {
    if i == j then 0
    else Ticks(l, turns, c, i, j - 1) + if Due(At(l, turns, c, j - 1), turns[j - 1], c) then 1 else 0
  }

  /** What one turn does to the tick number and the time of the last tick. */
  lemma TurnClock(l: Loop, t: Turn, c: Config)
    ensures Next(l, t, c).game.tick == l.game.tick + if Due(l, t, c) then 1 else 0
    ensures Next(l, t, c).lastTick == if Due(l, t, c) then t.now else l.lastTick
  {
  }

  /** The world's tick number counts the ticks. */
  lemma {:induction false} TicksCounted(l: Loop, turns: seq<Turn>, c: Config, i: nat, j: nat)
    requires i <= j <= |turns|
    ensures At(l, turns, c, j).game.tick == At(l, turns, c, i).game.tick + Ticks(l, turns, c, i, j)
  {
    if i < j {
      TicksCounted(l, turns, c, i, j - 1);
      TurnClock(At(l, turns, c, j - 1), turns[j - 1], c);
    }
  }

  /** n intervals. */
  function Span(n: nat, interval: nat): nat {
    if n == 0 then 0 else Span(n - 1, interval) + interval
  }

  lemma {:induction false} SpanIsProduct(n: nat, interval: nat)
    ensures Span(n, interval) == n * interval
  {
    if n > 0 {
      SpanIsProduct(n - 1, interval);
      assert n * interval == (n - 1) * interval + interval;
    }
  }

  lemma TurnTakesTime(l: Loop, t: Turn, c: Config, from: nat, n: nat)
    requires from + Span(n, c.interval) <= l.lastTick
    ensures from + Span(n + if Due(l, t, c) then 1 else 0, c.interval) <= Next(l, t, c).lastTick
  {
  }

  /** Successive ticks are at least an interval apart, so n ticks take n intervals of lastTick. */
  lemma {:induction false} TicksTakeTime(l: Loop, turns: seq<Turn>, c: Config, i: nat, j: nat)
    requires i <= j <= |turns|
    ensures At(l, turns, c, i).lastTick + Span(Ticks(l, turns, c, i, j), c.interval) <= At(l, turns, c, j).lastTick
  {
    if i < j {
      TicksTakeTime(l, turns, c, i, j - 1);
      TurnTakesTime(At(l, turns, c, j - 1), turns[j - 1], c, At(l, turns, c, i).lastTick, Ticks(l, turns, c, i, j - 1));
    }
  }

  lemma {:induction false} LastTickIsPast(l: Loop, turns: seq<Turn>, c: Config, n: nat)
    requires 0 < n <= |turns| && Ordered(l, turns)
    ensures At(l, turns, c, n).lastTick <= turns[n - 1].now
  {
    TurnClock(At(l, turns, c, n - 1), turns[n - 1], c);
    if n > 1 {
      LastTickIsPast(l, turns, c, n - 1);
    }
  }

  lemma DivideBound(n: nat, interval: nat, time: nat)
    requires interval > 0 && Span(n, interval) <= time
    ensures n <= time / interval
  {
    SpanIsProduct(n, interval);
    var q := time / interval;
    assert time < (q + 1) * interval;
    assert n >= q + 1 ==> n * interval == (q + 1) * interval + (n - q - 1) * interval;
  }

  /** In the first `time` of the loop there are at most floor(time / interval) ticks. */
  lemma TicksFromStart(l: Loop, turns: seq<Turn>, c: Config, n: nat, time: nat)
    requires 0 < n <= |turns| && Ordered(l, turns) && c.interval > 0
    requires turns[n - 1].now <= l.lastTick + time
    ensures Ticks(l, turns, c, 0, n) <= time / c.interval
  {
    TicksTakeTime(l, turns, c, 0, n);
    LastTickIsPast(l, turns, c, n);
    DivideBound(Ticks(l, turns, c, 0, n), c.interval, time);
  }

  /** n ticks since `from` have taken n - 1 intervals. */
  predicate Paced(l: Loop, c: Config, from: nat, n: nat) {
    n > 0 ==> from + Span(n - 1, c.interval) <= l.lastTick
  }

  lemma TurnPaced(l: Loop, t: Turn, c: Config, from: nat, n: nat)
    requires from <= t.now && Paced(l, c, from, n)
    ensures Paced(Next(l, t, c), c, from, n + if Due(l, t, c) then 1 else 0)
  {
    TurnClock(l, t, c);
    if n > 0 {
      TurnTakesTime(l, t, c, from, n - 1);
    }
  }

  lemma {:induction false} LaterTicksTakeTime(l: Loop, turns: seq<Turn>, c: Config, i: nat, j: nat)
    requires i < |turns| && i <= j <= |turns| && Ordered(l, turns)
    ensures Paced(At(l, turns, c, j), c, turns[i].now, Ticks(l, turns, c, i, j))
  {
    if i < j {
      LaterTicksTakeTime(l, turns, c, i, j - 1);
      TurnPaced(At(l, turns, c, j - 1), turns[j - 1], c, turns[i].now, Ticks(l, turns, c, i, j - 1));
    }
  }

  /** In any later stretch of length `time` there is at most one tick more. */
  lemma TicksInStretch(l: Loop, turns: seq<Turn>, c: Config, i: nat, j: nat, time: nat)
    requires i < j <= |turns| && Ordered(l, turns) && c.interval > 0
    requires turns[j - 1].now <= turns[i].now + time
    ensures Ticks(l, turns, c, i, j) <= time / c.interval + 1
  {
    var n := Ticks(l, turns, c, i, j);
    if n > 0 {
      LaterTicksTakeTime(l, turns, c, i, j);
      LastTickIsPast(l, turns, c, j);
      DivideBound(n - 1, c.interval, time);
    }
  }

  // ---- Ticks are not late ----

  /** Clock readings of successive trips are at most `gap` apart, the first counted from when the loop was entered. */
  ghost predicate Steady(l: Loop, turns: seq<Turn>, gap: nat) {
    && (turns != [] ==> turns[0].now <= l.lastTick + gap)
    && forall k | 0 < k < |turns| :: turns[k].now <= turns[k - 1].now + gap
  }

  /** A turn ticks exactly when an interval has passed since the last tick; after it less than one has. */
  lemma TurnTicksIff(l: Loop, t: Turn, c: Config)
    requires c.interval > 0
    ensures Next(l, t, c).game.tick == l.game.tick + 1 <==> t.now >= l.lastTick + c.interval
    ensures t.now < Next(l, t, c).lastTick + c.interval
  {
    TurnClock(l, t, c);
  }

  /** After n ticks since `from` the last tick is not late, and the reading `now` is less than an interval after it. */
  predicate KeepsUp(l: Loop, c: Config, from: nat, n: nat, gap: nat, now: nat) {
    l.lastTick <= from + Span(n, c.interval + gap) && now < l.lastTick + c.interval
  }

  lemma TurnKeepsUp(l: Loop, t: Turn, c: Config, from: nat, n: nat, gap: nat, now: nat)
    requires KeepsUp(l, c, from, n, gap, now) && t.now <= now + gap && c.interval > 0
    ensures KeepsUp(Next(l, t, c), c, from, n + if Due(l, t, c) then 1 else 0, gap, t.now)
  {
    TurnClock(l, t, c);
  }

  lemma {:induction false} TicksKeepUp(l: Loop, turns: seq<Turn>, c: Config, n: nat, gap: nat)
    requires n <= |turns| && Steady(l, turns, gap) && c.interval > 0
    ensures KeepsUp(At(l, turns, c, n), c, l.lastTick, Ticks(l, turns, c, 0, n), gap, if n == 0 then l.lastTick else turns[n - 1].now)
  {
    if n > 0 {
      TicksKeepUp(l, turns, c, n - 1, gap);
      TurnKeepsUp(At(l, turns, c, n - 1), turns[n - 1], c, l.lastTick, Ticks(l, turns, c, 0, n - 1), gap,
                  if n == 1 then l.lastTick else turns[n - 2].now);
    }
  }

  lemma Scaled(a: nat, b: nat, step: nat)
    ensures a <= b ==> a * step <= b * step
  {
  }

  lemma AtLeast(n: nat, step: nat, time: nat)
    requires step > 0 && time < Span(n, step) + step
    ensures time / step <= n
  {
    SpanIsProduct(n + 1, step);
    var q := time / step;
    assert time == q * step + time % step;
    Scaled(n + 1, q, step);
  }

  /** If no trip through the loop takes longer than `gap`, then in the first `time` of the loop there are at least
      floor(time / (interval + gap)) ticks. */
  lemma TicksAtLeast(l: Loop, turns: seq<Turn>, c: Config, n: nat, gap: nat, time: nat)
    requires 0 < n <= |turns| && Steady(l, turns, gap) && c.interval > 0
    requires l.lastTick + time <= turns[n - 1].now
    ensures time / (c.interval + gap) <= Ticks(l, turns, c, 0, n)
  {
    TicksKeepUp(l, turns, c, n, gap);
    AtLeast(Ticks(l, turns, c, 0, n), c.interval + gap, time);
  }

  // ---- Speed bound ----

  predicate Within(a: Vec2, b: Vec2, d: real) {
    && -d <= b.x - a.x <= d
    && -d <= b.y - a.y <= d
  }

  lemma MovedWithin(e: EntityVal, input: Option<Packet>, speed: real)
    requires speed >= 0.0
    ensures Within(e.position, Applied(e, input, speed).position, speed)
  {
  }

  /** One tick moves an entity by at most `speed` per axis, however many packets arrived. */
  lemma TickWithin(g: Game, order: seq<Peer>, speed: real, id: string)
    requires speed >= 0.0 && DistinctEntities(g.sessions) && Enumerates(order, g.sessions) && id in g.entities
    ensures id in Tick(g, order, speed).entities
    ensures Within(g.entities[id].position, Tick(g, order, speed).entities[id].position, speed)
  {
    DrainMovesBySlots(g.entities, g.sessions, order, speed);
    if p :| p in order && p in g.sessions && g.sessions[p].entityID == id {
      MovedWithin(g.entities[id], g.sessions[p].latestInput, speed);
    } else {
      assert forall p | p in order && p in g.sessions :: g.sessions[p].entityID != id;
    }
  }

  predicate Enters(ev: Event, id: string) {
    ev.Joined? && EntityID(ev.character.id) == id
  }

  lemma TurnWithin(l: Loop, t: Turn, c: Config, id: string)
    requires c.speed >= 0.0 && id in l.game.entities && !Enters(t.event, id) && id in Next(l, t, c).game.entities
    requires DistinctEntities(Apply(l.game, t.event).sessions) && Enumerates(t.order, Apply(l.game, t.event).sessions)
    ensures Within(l.game.entities[id].position, Next(l, t, c).game.entities[id].position, if Due(l, t, c) then c.speed else 0.0)
  {
    var g := Apply(l.game, t.event);
    if id in g.entities {
      assert g.entities[id] == l.game.entities[id];
      TickWithin(g, t.order, c.speed, id);
    } else {
      DrainKeepsKeys(g.entities, g.sessions, t.order, c.speed);
    }
  }

  predicate Present(l: Loop, turns: seq<Turn>, c: Config, k: nat, id: string)
    requires k <= |turns|
  {
    id in At(l, turns, c, k).game.entities
  }

  /** The entity stays in the world from turn i to turn j without being entered again. */
  ghost predicate Stays(l: Loop, turns: seq<Turn>, c: Config, i: nat, j: nat, id: string)
    requires i <= j <= |turns|
  {
    && (forall k | i <= k <= j :: Present(l, turns, c, k, id))
    && (forall k | i <= k < j :: !Enters(turns[k].event, id))
  }

  /** n times the speed. */
  function Reach(n: nat, speed: real): real {
    if n == 0 then 0.0 else Reach(n - 1, speed) + speed
  }

  lemma {:induction false} ReachIsProduct(n: nat, speed: real)
    ensures Reach(n, speed) == speed * n as real
  {
    if n > 0 {
      ReachIsProduct(n - 1, speed);
      assert n as real == (n - 1) as real + 1.0;
      assert speed * ((n - 1) as real + 1.0) == speed * (n - 1) as real + speed;
    }
  }

  lemma {:induction false} ReachGrows(n: nat, m: nat, speed: real)
    requires n <= m && speed >= 0.0
    ensures Reach(n, speed) <= Reach(m, speed)
  {
    if n < m {
      ReachGrows(n, m - 1, speed);
    }
  }

  lemma WithinAdds(a: Vec2, b: Vec2, c: Vec2, d: real, e: real)
    requires Within(a, b, d) && Within(b, c, e)
    ensures Within(a, c, d + e)
  {
  }

  lemma TurnReach(l: Loop, t: Turn, c: Config, id: string, from: Vec2, n: nat)
    requires c.speed >= 0.0 && id in l.game.entities && !Enters(t.event, id) && id in Next(l, t, c).game.entities
    requires DistinctEntities(Apply(l.game, t.event).sessions) && Enumerates(t.order, Apply(l.game, t.event).sessions)
    requires Within(from, l.game.entities[id].position, Reach(n, c.speed))
    ensures Within(from, Next(l, t, c).game.entities[id].position, Reach(n + if Due(l, t, c) then 1 else 0, c.speed))
  {
    TurnWithin(l, t, c, id);
    WithinAdds(from, l.game.entities[id].position, Next(l, t, c).game.entities[id].position, Reach(n, c.speed), if Due(l, t, c) then c.speed else 0.0);
  }

  function Position(l: Loop, turns: seq<Turn>, c: Config, n: nat, id: string): Vec2
    requires n <= |turns| && Present(l, turns, c, n, id)
  {
    At(l, turns, c, n).game.entities[id].position
  }

  /** Between turns i and j the entity has moved by at most speed * n per axis. */
  ghost predicate InReach(l: Loop, turns: seq<Turn>, c: Config, i: nat, j: nat, id: string, n: nat)
    requires i <= j <= |turns| && Present(l, turns, c, i, id) && Present(l, turns, c, j, id)
  {
    Within(Position(l, turns, c, i, id), Position(l, turns, c, j, id), Reach(n, c.speed))
  }

  lemma ReachOneMore(l: Loop, turns: seq<Turn>, c: Config, i: nat, j: nat, id: string)
    requires i <= j < |turns| && c.speed >= 0.0 && GoodTurn(l, turns, c, j) && !Enters(turns[j].event, id)
    requires Present(l, turns, c, i, id) && Present(l, turns, c, j, id) && Present(l, turns, c, j + 1, id)
    requires InReach(l, turns, c, i, j, id, Ticks(l, turns, c, i, j))
    ensures InReach(l, turns, c, i, j + 1, id, Ticks(l, turns, c, i, j + 1))
  {
    TurnReach(At(l, turns, c, j), turns[j], c, id, Position(l, turns, c, i, id), Ticks(l, turns, c, i, j));
  }

  /** Speed bound: between its join and its removal an entity moves by at most speed * ticks per axis. */
  lemma {:induction false} SpeedBound(l: Loop, turns: seq<Turn>, c: Config, i: nat, j: nat, id: string)
    requires i <= j <= |turns| && c.speed >= 0.0
    requires GoodTurns(l, turns, c) && Stays(l, turns, c, i, j, id)
    ensures Present(l, turns, c, i, id) && Present(l, turns, c, j, id)
    ensures InReach(l, turns, c, i, j, id, Ticks(l, turns, c, i, j))
  {
    assert Present(l, turns, c, i, id) && Present(l, turns, c, j, id);
    if i < j {
      assert Present(l, turns, c, j - 1, id) && GoodTurn(l, turns, c, j - 1);
      SpeedBound(l, turns, c, i, j - 1, id);
      ReachOneMore(l, turns, c, i, j - 1, id);
    }
  }

  lemma {:induction false} TicksSplit(l: Loop, turns: seq<Turn>, c: Config, i: nat, j: nat)
    requires i <= j <= |turns|
    ensures Ticks(l, turns, c, i, j) <= Ticks(l, turns, c, 0, j)
  {
    if i < j {
      TicksSplit(l, turns, c, i, j - 1);
    }
  }

  /** So in the first `time` of the loop no entity moves more than speed * floor(time / interval) per axis. */
  lemma SpeedBoundInTime(l: Loop, turns: seq<Turn>, c: Config, i: nat, n: nat, time: nat, id: string)
    requires i <= n <= |turns| && 0 < n && c.speed >= 0.0 && c.interval > 0
    requires Ordered(l, turns) && turns[n - 1].now <= l.lastTick + time
    requires GoodTurns(l, turns, c) && Stays(l, turns, c, i, n, id)
    ensures Present(l, turns, c, i, id) && Present(l, turns, c, n, id)
    ensures InReach(l, turns, c, i, n, id, time / c.interval)
  {
    SpeedBound(l, turns, c, i, n, id);
    TicksFromStart(l, turns, c, n, time);
    TicksSplit(l, turns, c, i, n);
    ReachGrows(Ticks(l, turns, c, i, n), time / c.interval, c.speed);
  }

  // ---- Snapshot cadence ----

  predicate CounterInStep(l: Loop) {
    l.sinceBroadcast == l.game.tick % BROADCAST_DIVISOR
  }

  lemma TurnInStep(l: Loop, t: Turn, c: Config)
    requires CounterInStep(l)
    ensures CounterInStep(Next(l, t, c))
    ensures var l' := Next(l, t, c);
            l'.broadcasts == l.broadcasts +
              if l'.game.tick == l.game.tick + 1 && l'.game.tick % BROADCAST_DIVISOR == 0 && |l'.game.sessions| > 0
              then [Snapshot(l'.game.tick, l'.game.entities)] else []
  {
  }

  /** At the loop head the counter since the last broadcast is the world tick modulo the divisor. */
  lemma {:induction false} CounterIsTickModulo(l: Loop, turns: seq<Turn>, c: Config, n: nat)
    requires n <= |turns| && CounterInStep(l)
    ensures CounterInStep(At(l, turns, c, n))
  {
    if n > 0 {
      CounterIsTickModulo(l, turns, c, n - 1);
      TurnInStep(At(l, turns, c, n - 1), turns[n - 1], c);
    }
  }

  /** Turn n broadcasts exactly when it ticks onto a multiple of the divisor with someone connected, and
      what it sends is the world as it stands right after that tick. */
  lemma BroadcastExactly(l: Loop, turns: seq<Turn>, c: Config, n: nat)
    requires n < |turns| && CounterInStep(l)
    ensures var before, after := At(l, turns, c, n), At(l, turns, c, n + 1);
            after.broadcasts == before.broadcasts +
              if after.game.tick == before.game.tick + 1 && after.game.tick % 2 == 0 && |after.game.sessions| > 0
              then [Snapshot(after.game.tick, after.game.entities)] else []
  {
    CounterIsTickModulo(l, turns, c, n);
    TurnInStep(At(l, turns, c, n), turns[n], c);
  }

  predicate Cadenced(l: Loop) {
    && (forall a | 0 <= a < |l.broadcasts| :: l.broadcasts[a].tick % BROADCAST_DIVISOR == 0 && l.broadcasts[a].tick <= l.game.tick)
    && (forall a, b | 0 <= a < b < |l.broadcasts| :: l.broadcasts[a].tick < l.broadcasts[b].tick)
  }

  lemma TurnCadenced(l: Loop, t: Turn, c: Config)
    requires Cadenced(l) && CounterInStep(l)
    ensures Cadenced(Next(l, t, c))
  {
    TurnClock(l, t, c);
    TurnInStep(l, t, c);
  }

  /** Broadcast snapshots carry strictly increasing multiples of the divisor. */
  lemma {:induction false} BroadcastsIncrease(l: Loop, turns: seq<Turn>, c: Config, n: nat)
    requires n <= |turns| && l.broadcasts == [] && CounterInStep(l)
    ensures Cadenced(At(l, turns, c, n))
  {
    if n > 0 {
      BroadcastsIncrease(l, turns, c, n - 1);
      CounterIsTickModulo(l, turns, c, n - 1);
      TurnCadenced(At(l, turns, c, n - 1), turns[n - 1], c);
    }
  }
}
