/** The speed bound inside the handoff protocol: the distinctness that a tick needs is not a hypothesis here
    but follows from the servers' coherence. */
module Movement {
  import opened Redis
  import opened Domain
  import opened GameState
  import opened Handoff
  import opened Coherence
  import GameLoop
  import Exclusion

  predicate Present(y: System, s: string, id: string) {
    s in y.servers && id in y.servers[s].game.entities
  }

  function Position(y: System, s: string, id: string): Vec2
    requires Present(y, s, id)
  {
    y.servers[s].game.entities[id].position
  }

  predicate Enters(y: System, step: Step, s: string, id: string) {
    step.Load? && step.s == s && Loads(y, s, step.up) && EntityID(y.chars[y.servers[s].phase.token.characterID].id) == id
  }

  ghost predicate Ticks(y: System, step: Step, s: string) {
    step.Tick? && step.s == s && InPhase(y, s, true) && Enumerates(step.order, y.servers[s].game.sessions) && TickDue(y, s)
  }

  /** No tick of server s is faster than v. */
  predicate Slower(step: Step, s: string, v: real) {
    step.Tick? && step.s == s ==> 0.0 <= step.speed <= v
  }

  lemma OtherStepsStill(y: System, step: Step, s: string, id: string)
    requires Present(y, s, id) && Present(Next(y, step), s, id) && !Enters(y, step, s, id) && !Ticks(y, step, s)
    ensures Next(y, step).servers[s].game.entities[id] == y.servers[s].game.entities[id]
  {
  }

  lemma StepWithin(y: System, step: Step, s: string, id: string, v: real)
    requires v >= 0.0 && Slower(step, s, v) && !Enters(y, step, s, id)
    requires Present(y, s, id) && Present(Next(y, step), s, id)
    requires Ticks(y, step, s) ==> DistinctEntities(y.servers[s].game.sessions)
    ensures GameLoop.Within(Position(y, s, id), Position(Next(y, step), s, id), if Ticks(y, step, s) then v else 0.0)
  {
    if Ticks(y, step, s) {
      GameLoop.TickWithin(y.servers[s].game, step.order, step.speed, id);
    } else {
      OtherStepsStill(y, step, s, id);
    }
  }

  /** Number of ticks of server s in the steps i, ..., j - 1. */
  ghost function TickCount(y: System, steps: seq<Step>, s: string, i: nat, j: nat): nat
    requires i <= j <= |steps|
  {
    if i == j then 0
    else TickCount(y, steps, s, i, j - 1) + if Ticks(At(y, steps, j - 1), steps[j - 1], s) then 1 else 0
  }

  ghost predicate PresentAt(y: System, steps: seq<Step>, s: string, id: string, k: nat)
    requires k <= |steps|
  {
    Present(At(y, steps, k), s, id)
  }

  ghost predicate UndisturbedAt(y: System, steps: seq<Step>, s: string, id: string, v: real, k: nat)
    requires k < |steps|
  {
    !Enters(At(y, steps, k), steps[k], s, id) && Slower(steps[k], s, v)
  }

  /** The entity has moved by at most v for each of n ticks, per axis. */
  ghost predicate MovedAtMost(y: System, steps: seq<Step>, s: string, id: string, i: nat, j: nat, n: nat, v: real)
    requires i <= j <= |steps| && PresentAt(y, steps, s, id, i) && PresentAt(y, steps, s, id, j)
  {
    GameLoop.Within(Position(At(y, steps, i), s, id), Position(At(y, steps, j), s, id), GameLoop.Reach(n, v))
  }

  lemma TicksDistinct(y: System, steps: seq<Step>, s: string, k: nat)
    requires Init(y) && k < |steps|
    requires forall m | 0 <= m <= k :: NoneOutlivedAt(y, steps, m, s)
    ensures Ticks(At(y, steps, k), steps[k], s) ==> DistinctEntities(At(y, steps, k).servers[s].game.sessions)
  {
    if Ticks(At(y, steps, k), steps[k], s) {
      ServerStaysCoherent(y, steps, k, s);
    }
  }

  lemma OneMoreStep(y: System, steps: seq<Step>, s: string, id: string, i: nat, j: nat, v: real)
    requires i <= j < |steps| && v >= 0.0 && UndisturbedAt(y, steps, s, id, v, j)
    requires PresentAt(y, steps, s, id, i) && PresentAt(y, steps, s, id, j) && PresentAt(y, steps, s, id, j + 1)
    requires Ticks(At(y, steps, j), steps[j], s) ==> DistinctEntities(At(y, steps, j).servers[s].game.sessions)
    requires MovedAtMost(y, steps, s, id, i, j, TickCount(y, steps, s, i, j), v)
    ensures MovedAtMost(y, steps, s, id, i, j + 1, TickCount(y, steps, s, i, j + 1), v)
  {
    StepWithin(At(y, steps, j), steps[j], s, id, v);
  }

  /** In every run in which no session of server s outlives its lease, an entity that stays in its world
      moves by at most v times the number of ticks, per axis, whatever the other servers, joins, leaves and
      packets do meanwhile. */
  lemma {:induction false} ServerSpeedBound(y: System, steps: seq<Step>, s: string, id: string, i: nat, j: nat, v: real)
    requires Init(y) && i <= j <= |steps| && v >= 0.0
    requires forall m | 0 <= m <= j :: NoneOutlivedAt(y, steps, m, s)
    requires forall k | i <= k <= j :: PresentAt(y, steps, s, id, k)
    requires forall k | i <= k < j :: UndisturbedAt(y, steps, s, id, v, k)
    ensures PresentAt(y, steps, s, id, i) && PresentAt(y, steps, s, id, j)
    ensures MovedAtMost(y, steps, s, id, i, j, TickCount(y, steps, s, i, j), v)
  {
    assert PresentAt(y, steps, s, id, i) && PresentAt(y, steps, s, id, j);
    if i < j {
      assert PresentAt(y, steps, s, id, j - 1) && UndisturbedAt(y, steps, s, id, v, j - 1);
      ServerSpeedBound(y, steps, s, id, i, j - 1, v);
      TicksDistinct(y, steps, s, j - 1);
      OneMoreStep(y, steps, s, id, i, j - 1, v);
    }
  }

  // ---- In time ----

  predicate Ticking(y: System, s: string, interval: nat) {
    s in y.servers && y.servers[s].interval == interval && y.servers[s].lastTick <= y.redis.now
  }

  /** A tick comes at least an interval after the one before; no other step moves lastTick. */
  lemma StepTicks(y: System, step: Step, s: string, interval: nat)
    requires Ticking(y, s, interval)
    ensures Ticking(Next(y, step), s, interval)
    ensures Ticks(y, step, s) ==>
              Next(y, step).servers[s].lastTick == y.redis.now && y.servers[s].lastTick + interval <= y.redis.now
    ensures !Ticks(y, step, s) ==> Next(y, step).servers[s].lastTick == y.servers[s].lastTick
  {
  }

  lemma SpanGrows(from: nat, n: nat, interval: nat, last: nat, last': nat)
    requires from + GameLoop.Span(n, interval) <= last && last + interval <= last'
    ensures from + GameLoop.Span(n + 1, interval) <= last'
  {
  }

  lemma {:induction false} TicksTakeTime(y: System, steps: seq<Step>, s: string, i: nat, j: nat, interval: nat)
    requires i <= j <= |steps| && Ticking(At(y, steps, i), s, interval)
    ensures Ticking(At(y, steps, j), s, interval)
    ensures At(y, steps, i).servers[s].lastTick + GameLoop.Span(TickCount(y, steps, s, i, j), interval)
         <= At(y, steps, j).servers[s].lastTick
  {
    if i < j {
      TicksTakeTime(y, steps, s, i, j - 1, interval);
      var before := At(y, steps, j - 1);
      StepTicks(before, steps[j - 1], s, interval);
      if Ticks(before, steps[j - 1], s) {
        SpanGrows(At(y, steps, i).servers[s].lastTick, TickCount(y, steps, s, i, j - 1), interval,
                  before.servers[s].lastTick, At(y, steps, j).servers[s].lastTick);
      }
    }
  }

  lemma {:induction false} AlwaysTicking(y: System, steps: seq<Step>, n: nat, s: string)
    requires Init(y) && n <= |steps| && s in At(y, steps, n).servers
    ensures At(y, steps, n).servers[s].lastTick <= At(y, steps, n).redis.now
  {
    if n > 0 {
      var before := At(y, steps, n - 1);
      if s in before.servers {
        AlwaysTicking(y, steps, n - 1, s);
        StepTicks(before, steps[n - 1], s, before.servers[s].interval);
      } else {
        StartsTicking(before, steps[n - 1], s);
      }
    }
  }

  lemma StartsTicking(y: System, step: Step, s: string)
    requires s !in y.servers && s in Next(y, step).servers
    ensures Next(y, step).servers[s].lastTick == y.redis.now == Next(y, step).redis.now
  {
  }

  ghost predicate TicksEvery(y: System, steps: seq<Step>, s: string, i: nat, interval: nat)
    requires i <= |steps|
  {
    s in At(y, steps, i).servers && At(y, steps, i).servers[s].interval == interval
  }

  /** How long before step j the last tick up to step i came, or the start of server s. */
  ghost function Since(y: System, steps: seq<Step>, s: string, i: nat, j: nat): int
    requires i <= |steps| && j <= |steps| && s in At(y, steps, i).servers
  {
    At(y, steps, j).redis.now - At(y, steps, i).servers[s].lastTick
  }

  lemma TicksInTime(y: System, steps: seq<Step>, s: string, i: nat, j: nat, interval: nat)
    requires Init(y) && i <= j <= |steps| && interval > 0 && TicksEvery(y, steps, s, i, interval)
    ensures TickCount(y, steps, s, i, j) <= Since(y, steps, s, i, j) / interval
  {
    AlwaysTicking(y, steps, i, s);
    TicksTakeTime(y, steps, s, i, j, interval);
    GameLoop.DivideBound(TickCount(y, steps, s, i, j), interval, Since(y, steps, s, i, j));
  }

  /** The speed bound in time, from the lease hypothesis alone: between steps i and j an entity moves by at
      most v for each whole interval that fits into the time since the last tick before i. From a server's
      start on this is v * floor(T / interval) after a time T. */
  lemma ServerSpeedBoundInTime(y: System, steps: seq<Step>, s: string, id: string, i: nat, j: nat, v: real, interval: nat)
    requires Init(y) && i <= j <= |steps| && v >= 0.0 && interval > 0 && TicksEvery(y, steps, s, i, interval)
    requires forall m | 0 <= m <= j :: NoneOutlivedAt(y, steps, m, s)
    requires forall k | i <= k <= j :: PresentAt(y, steps, s, id, k)
    requires forall k | i <= k < j :: UndisturbedAt(y, steps, s, id, v, k)
    ensures PresentAt(y, steps, s, id, i) && PresentAt(y, steps, s, id, j)
    ensures 0 <= Since(y, steps, s, i, j) / interval
    ensures MovedAtMost(y, steps, s, id, i, j, Since(y, steps, s, i, j) / interval, v)
  {
    ServerSpeedBound(y, steps, s, id, i, j, v);
    TicksInTime(y, steps, s, i, j, interval);
    MoreTicks(y, steps, s, id, i, j, TickCount(y, steps, s, i, j), Since(y, steps, s, i, j) / interval, v);
  }

  lemma MoreTicks(y: System, steps: seq<Step>, s: string, id: string, i: nat, j: nat, n: nat, m: nat, v: real)
    requires i <= j <= |steps| && PresentAt(y, steps, s, id, i) && PresentAt(y, steps, s, id, j)
    requires n <= m && v >= 0.0 && MovedAtMost(y, steps, s, id, i, j, n, v)
    ensures MovedAtMost(y, steps, s, id, i, j, m, v)
  {
    GameLoop.ReachGrows(n, m, v);
  }

  // ---- In any stretch of time ----

  /** n ticks since `from` have taken n - 1 intervals. */
  predicate Paced(g: GameServer, from: nat, n: nat) {
    n > 0 ==> from + GameLoop.Span(n - 1, g.interval) <= g.lastTick
  }

  lemma PacedOnce(g: GameServer, g': GameServer, from: nat, n: nat, now: nat)
    requires Paced(g, from, n) && g'.interval == g.interval && from <= now
    requires g.lastTick + g.interval <= now && g'.lastTick == now
    ensures Paced(g', from, n + 1)
  {
    if n > 0 {
      SpanGrows(from, n - 1, g.interval, g.lastTick, now);
    }
  }

  lemma {:induction false} TicksPaced(y: System, steps: seq<Step>, s: string, i: nat, j: nat, interval: nat)
    requires i <= j <= |steps| && Ticking(At(y, steps, i), s, interval)
    ensures Ticking(At(y, steps, j), s, interval) && At(y, steps, i).redis.now <= At(y, steps, j).redis.now
    ensures Paced(At(y, steps, j).servers[s], At(y, steps, i).redis.now, TickCount(y, steps, s, i, j))
  {
    if i < j {
      TicksPaced(y, steps, s, i, j - 1, interval);
      var before, n := At(y, steps, j - 1), TickCount(y, steps, s, i, j - 1);
      StepTicks(before, steps[j - 1], s, interval);
      Exclusion.ClockAdvances(before, steps[j - 1]);
      if Ticks(before, steps[j - 1], s) {
        PacedOnce(before.servers[s], At(y, steps, j).servers[s], At(y, steps, i).redis.now, n, before.redis.now);
      }
    }
  }

  /** The most ticks in a stretch of time: floor(time / interval) + 1. */
  function Most(time: nat, interval: nat): nat
    requires interval > 0
  {
    time / interval + 1
  }

  lemma PacedAtMost(n: nat, interval: nat, time: nat)
    requires interval > 0 && (n > 0 ==> GameLoop.Span(n - 1, interval) <= time)
    ensures n <= Most(time, interval)
  {
    if n > 0 {
      GameLoop.DivideBound(n - 1, interval, time);
    }
  }

  ghost predicate Lasts(y: System, steps: seq<Step>, i: nat, j: nat, time: nat)
    requires i <= |steps| && j <= |steps|
  {
    At(y, steps, j).redis.now <= At(y, steps, i).redis.now + time
  }

  lemma PacedSpan(g: GameServer, from: nat, n: nat, now: nat, time: nat)
    requires Paced(g, from, n) && g.lastTick <= now <= from + time
    ensures n > 0 ==> GameLoop.Span(n - 1, g.interval) <= time
  {
  }

  /** In any stretch of time T a server ticks at most floor(T / interval) + 1 times, even after a stall. */
  lemma TicksInStretch(y: System, steps: seq<Step>, s: string, i: nat, j: nat, interval: nat, time: nat)
    requires Init(y) && i <= j <= |steps| && interval > 0 && TicksEvery(y, steps, s, i, interval)
    requires Lasts(y, steps, i, j, time)
    ensures TickCount(y, steps, s, i, j) <= Most(time, interval)
  {
    AlwaysTicking(y, steps, i, s);
    TicksPaced(y, steps, s, i, j, interval);
    var end := At(y, steps, j);
    PacedSpan(end.servers[s], At(y, steps, i).redis.now, TickCount(y, steps, s, i, j), end.redis.now, time);
    PacedAtMost(TickCount(y, steps, s, i, j), interval, time);
  }

  /** So in any stretch of time T, from the lease hypothesis alone, an entity moves by at most
      v * (floor(T / interval) + 1) per axis. */
  lemma ServerSpeedBoundInStretch(y: System, steps: seq<Step>, s: string, id: string, i: nat, j: nat, v: real, interval: nat, time: nat)
    requires Init(y) && i <= j <= |steps| && v >= 0.0 && interval > 0 && TicksEvery(y, steps, s, i, interval)
    requires Lasts(y, steps, i, j, time)
    requires forall m | 0 <= m <= j :: NoneOutlivedAt(y, steps, m, s)
    requires forall k | i <= k <= j :: PresentAt(y, steps, s, id, k)
    requires forall k | i <= k < j :: UndisturbedAt(y, steps, s, id, v, k)
    ensures PresentAt(y, steps, s, id, i) && PresentAt(y, steps, s, id, j)
    ensures MovedAtMost(y, steps, s, id, i, j, Most(time, interval), v)
  {
    ServerSpeedBound(y, steps, s, id, i, j, v);
    TicksInStretch(y, steps, s, i, j, interval, time);
    MoreTicks(y, steps, s, id, i, j, TickCount(y, steps, s, i, j), Most(time, interval), v);
  }
}
