/** The turns of one server's loop inside a run of the whole system: each turn is a few of the protocol's steps,
    so what holds over the protocol's runs holds for the loop. */
module LoopRuns {
  import opened Wrappers
  import opened Redis
  import opened Validate
  import opened Domain
  import opened GameState
  import opened Join
  import opened Arrivals
  import opened JoinPhases
  import Handoff
  import Lapse
  import Coherence
  import GameLoop
  import GameServer

  /** y is reached from y0 without any session of s outliving its lease on the way. */
  ghost predicate RunsTo(y0: Handoff.System, y: Handoff.System, s: string) {
    exists steps: seq<Handoff.Step> :: IsRun(y0, steps, y, s)
  }

  ghost predicate IsRun(y0: Handoff.System, steps: seq<Handoff.Step>, y: Handoff.System, s: string) {
    && Handoff.At(y0, steps, |steps|) == y
    && forall m | 0 <= m <= |steps| :: Coherence.NoneOutlivedAt(y0, steps, m, s)
  }

  lemma OneStepMore(y0: Handoff.System, y: Handoff.System, step: Handoff.Step, s: string)
    requires RunsTo(y0, y, s) && Coherence.NoneOutlived(Handoff.Next(y, step), s)
    ensures RunsTo(y0, Handoff.Next(y, step), s)
  {
    var steps :| IsRun(y0, steps, y, s);
    var more := steps + [step];
    forall m | 0 <= m <= |more| ensures Coherence.NoneOutlivedAt(y0, more, m, s) {
      if m <= |steps| {
        Lapse.SamePrefix(y0, steps, step, m);
        assert Coherence.NoneOutlivedAt(y0, steps, m, s);
      } else {
        Lapse.SamePrefix(y0, steps, step, |steps|);
      }
    }
    Lapse.SamePrefix(y0, steps, step, |steps|);
    assert IsRun(y0, more, Handoff.Next(y, step), s);
  }

  lemma RunIsDistinct(y0: Handoff.System, y: Handoff.System, s: string)
    requires Handoff.Init(y0) && RunsTo(y0, y, s) && s in y.servers && !Coherence.Stopping(y.servers[s])
    ensures DistinctEntities(y.servers[s].game.sessions) && Coherence.NoneOutlived(y, s)
  {
    var steps :| IsRun(y0, steps, y, s);
    Coherence.ServerStaysCoherent(y0, steps, |steps|, s);
    assert Coherence.NoneOutlivedAt(y0, steps, |steps|, s);
  }

  // ---- The server as the loop sees it ----

  /** Server c.serverID is idle between two turns, in the state of the loop. */
  predicate Between(y: Handoff.System, c: Config, tuning: GameLoop.Config, g: Game, lastTick: nat) {
    && Idles(y, c) && y.servers[c.serverID].interval == tuning.interval
    && y.servers[c.serverID].game == g && y.servers[c.serverID].lastTick == lastTick
  }

  /** Only the phase of server s, its game and tickets, and Redis differ. */
  predicate SameClocks(y: Handoff.System, y': Handoff.System, s: string) {
    && s in y.servers && s in y'.servers && y'.redis.now == y.redis.now
    && y'.servers[s].lastTick == y.servers[s].lastTick && y'.servers[s].interval == y.servers[s].interval
  }

  lemma ConsumeRuns(y0: Handoff.System, y: Handoff.System, s: string, peer: Peer, token: string, character: string, up: bool, valid: bool)
    requires RunsTo(y0, y, s) && s in y.servers && Coherence.NoneOutlived(y, s)
    ensures var y' := Handoff.ConsumeStep(y, s, peer, token, character, up, valid);
            && RunsTo(y0, y', s) && SameClocks(y, y', s) && Coherence.NoneOutlived(y', s)
            && y'.servers[s].lockTTL == y.servers[s].lockTTL && (y.servers[s].phase.Idle? ==> !y'.servers[s].phase.Locked?)
  {
    OneStepMore(y0, y, Handoff.Consume(s, peer, token, character, up, valid), s);
  }

  lemma AcquireRuns(y0: Handoff.System, y: Handoff.System, s: string, up: bool)
    requires RunsTo(y0, y, s) && s in y.servers && Coherence.NoneOutlived(y, s) && y.servers[s].lockTTL > 0
    requires !y.servers[s].phase.Locked?
    ensures var y' := Handoff.AcquireStep(y, s, up);
            && RunsTo(y0, y', s) && SameClocks(y, y', s) && Coherence.NoneOutlived(y', s)
            && (y'.servers[s].phase.Locked? ==> y'.redis.now < y'.servers[s].phase.leaseEnd)
  {
    OneStepMore(y0, y, Handoff.Step.Acquire(s, up), s);
  }

  lemma LoadRuns(y0: Handoff.System, y: Handoff.System, s: string, up: bool)
    requires RunsTo(y0, y, s) && s in y.servers && Coherence.NoneOutlived(y, s)
    requires y.servers[s].phase.Locked? ==> y.redis.now < y.servers[s].phase.leaseEnd
    ensures var y' := Handoff.LoadStep(y, s, up);
            RunsTo(y0, y', s) && SameClocks(y, y', s) && Coherence.NoneOutlived(y', s)
  {
    OneStepMore(y0, y, Handoff.Step.Load(s, up), s);
  }

  lemma ReleaseRuns(y0: Handoff.System, y: Handoff.System, s: string, up: bool)
    requires RunsTo(y0, y, s) && s in y.servers && Coherence.NoneOutlived(y, s)
    ensures var y' := Handoff.ReleaseStep(y, s, up);
            RunsTo(y0, y', s) && SameClocks(y, y', s) && Coherence.NoneOutlived(y', s)
  {
    OneStepMore(y0, y, Handoff.Step.Release(s, up), s);
  }

  lemma DisconnectRuns(y0: Handoff.System, y: Handoff.System, s: string, peer: Peer)
    requires RunsTo(y0, y, s) && s in y.servers && Coherence.NoneOutlived(y, s)
    ensures var y' := Handoff.DisconnectStep(y, s, peer);
            RunsTo(y0, y', s) && SameClocks(y, y', s) && Coherence.NoneOutlived(y', s)
  {
    OneStepMore(y0, y, Handoff.Step.Disconnect(s, peer), s);
  }

  // ---- One event ----

  /** What is known of identifiers: this server's, and those inside tokens and sessions, are as validation
      leaves them. */
  ghost predicate NormalizedAll(y: Handoff.System, c: Config) {
    && Normalized(c.serverID) && c.lockTTL > 0 && c.serverID in y.servers
    && (forall p | p in y.servers[c.serverID].game.sessions :: Normalized(y.servers[c.serverID].game.sessions[p].characterID))
    && (forall token | Normalized(token) :: NormalizedInside(y.redis, token))
  }

  /** The server is between turns and the arrival finds Redis and the characters as they are. */
  ghost predicate Finds(y0: Handoff.System, y: Handoff.System, c: Config, a: Arrival) {
    && Idles(y, c) && y.redis == a.redis && y.chars == a.chars && y.redis.now <= a.now
    && RunsTo(y0, y, c.serverID) && Coherence.NoneOutlived(y, c.serverID) && NormalizedAll(y, c)
  }

  /** The server has served an event, whose effect on its game and on Redis is known. */
  ghost predicate Served(y0: Handoff.System, y: Handoff.System, y': Handoff.System, c: Config, g: Game, redis: State) {
    && RunsTo(y0, y', c.serverID) && Idles(y', c) && SameClocks(y, y', c.serverID) && Coherence.NoneOutlived(y', c.serverID)
    && y'.servers[c.serverID].game == g && y'.redis == redis
  }

  lemma TokenName(raw: string)
    requires RequiredID(raw).Ok?
    ensures Normalized(Name(raw))
  {
    AcceptedIsNormalized(raw);
  }

  lemma JoinRuns(y0: Handoff.System, y: Handoff.System, c: Config, a: Arrival, peer: Peer, r: Request) returns (y': Handoff.System)
    requires Finds(y0, y, c, a)
    ensures var reply := HandleJoin(y.redis, y.servers[c.serverID].game, y.chars, c, peer, Some(r), a.up);
            Served(y0, y, y', c, reply.game, reply.redis)
  {
    var s := c.serverID;
    if RequiredID(r.token).Err? {
      NoTokenNoStep(y.redis, y.servers[s].game, y.chars, c, peer, r, a.up);
      y' := y;
    } else {
      var token := Name(r.token);
      TokenName(r.token);
      HandlerIsPhases(y, c, peer, r, a.up);
      y' := PhasesRun(y0, y, c, peer, token, r.characterID, ReadsBack(y.redis, token), a.up);
    }
  }

  lemma PhasesRun(y0: Handoff.System, y: Handoff.System, c: Config, peer: Peer, token: string, character: string, valid: bool, up: Reach)
    returns (y': Handoff.System)
    requires Idles(y, c) && RunsTo(y0, y, c.serverID) && Coherence.NoneOutlived(y, c.serverID) && c.lockTTL > 0
    ensures y' == ThreeSteps(Handoff.ConsumeStep(y, c.serverID, peer, token, character, up.consume, valid), c.serverID, up)
    ensures RunsTo(y0, y', c.serverID) && SameClocks(y, y', c.serverID) && Coherence.NoneOutlived(y', c.serverID)
  {
    var s := c.serverID;
    ConsumeRuns(y0, y, s, peer, token, character, up.consume, valid);
    var consumed := Handoff.ConsumeStep(y, s, peer, token, character, up.consume, valid);
    AcquireRuns(y0, consumed, s, up.acquire);
    var locked := Handoff.AcquireStep(consumed, s, up.acquire);
    LoadRuns(y0, locked, s, up.load);
    var loaded := Handoff.LoadStep(locked, s, up.load);
    ReleaseRuns(y0, loaded, s, up.release);
    y' := Handoff.ReleaseStep(loaded, s, up.release);
  }

  lemma LeaveRuns(y0: Handoff.System, y: Handoff.System, c: Config, a: Arrival, peer: Peer) returns (y': Handoff.System)
    requires Finds(y0, y, c, a)
    ensures var left := HandleDisconnect(y.redis, y.servers[c.serverID].game, c, peer, a.up.release);
            Served(y0, y, y', c, left.1, left.0)
  {
    var s := c.serverID;
    DisconnectIsPhases(y, c, peer, a.up.release);
    DisconnectRuns(y0, y, s, peer);
    var gone := Handoff.DisconnectStep(y, s, peer);
    ReleaseRuns(y0, gone, s, a.up.release);
    y' := Handoff.ReleaseStep(gone, s, a.up.release);
  }

  lemma InputRuns(y0: Handoff.System, y: Handoff.System, c: Config, a: Arrival, peer: Peer, packet: Packet) returns (y': Handoff.System)
    requires Finds(y0, y, c, a)
    ensures Served(y0, y, y', c, GameState.Receive(y.servers[c.serverID].game, peer, packet), y.redis)
  {
    OneStepMore(y0, y, Handoff.Step.Receive(c.serverID, peer, packet), c.serverID);
    y' := Handoff.Next(y, Handoff.Step.Receive(c.serverID, peer, packet));
  }

  /** Whatever event a turn begins with, the protocol has steps for it. */
  lemma EventRuns(y0: Handoff.System, y: Handoff.System, c: Config, a: Arrival) returns (y': Handoff.System)
    requires Finds(y0, y, c, a)
    ensures var g := y.servers[c.serverID].game;
            Served(y0, y, y', c, Apply(g, GameEvent(g, c, a)), RedisAfter(g, c, a))
  {
    var g := y.servers[c.serverID].game;
    y' := y;
    match a.event
    case Received(peer, channel, data) =>
      if channel == CHANNEL_RELIABLE && !data.empty {
        JoinIsEvent(a.redis, g, a.chars, c, peer, data.request, a.up);
        if data.request.Some? {
          y' := JoinRuns(y0, y, c, a, peer, data.request.value);
        }
      } else if channel == CHANNEL_UNRELIABLE && data.input.Some? {
        y' := InputRuns(y0, y, c, a, peer, data.input.value);
      }
    case Disconnected(peer) =>
      DisconnectIsLeave(a.redis, g, c, peer, a.up.release);
      y' := LeaveRuns(y0, y, c, a, peer);
    case _ =>
  }

  // ---- The rest of the turn ----

  lemma WaitRuns(y0: Handoff.System, y: Handoff.System, c: Config, d: nat)
    requires RunsTo(y0, y, c.serverID) && Coherence.NoneOutlived(Handoff.Next(y, Handoff.Wait(d)), c.serverID)
    ensures RunsTo(y0, Handoff.Next(y, Handoff.Wait(d)), c.serverID)
  {
    OneStepMore(y0, y, Handoff.Wait(d), c.serverID);
  }

  lemma TickRuns(y0: Handoff.System, y: Handoff.System, c: Config, tuning: GameLoop.Config, g: Game, lastTick: nat, order: seq<Peer>)
    requires RunsTo(y0, y, c.serverID) && Coherence.NoneOutlived(y, c.serverID) && Between(y, c, tuning, g, lastTick)
    requires Enumerates(order, g.sessions) && y.redis.now - lastTick >= tuning.interval
    ensures var y' := Handoff.Next(y, Handoff.Step.Tick(c.serverID, order, tuning.speed));
            && RunsTo(y0, y', c.serverID) && Coherence.NoneOutlived(y', c.serverID)
            && Between(y', c, tuning, GameState.Tick(g, order, tuning.speed), y.redis.now) && y'.redis == y.redis
  {
    OneStepMore(y0, y, Handoff.Step.Tick(c.serverID, order, tuning.speed), c.serverID);
  }

  /** After its event a turn is time passing and, when due, a tick. The leases must outlast the wait. */
  lemma TurnRuns(y0: Handoff.System, y: Handoff.System, c: Config, tuning: GameLoop.Config, l: GameLoop.Loop, a: Arrival, t: GameLoop.Turn)
    returns (served: Handoff.System, y': Handoff.System)
    requires Finds(y0, y, c, a) && Between(y, c, tuning, l.game, l.lastTick) && GameServer.IsTurn(t, a, l.game, c)
    ensures Served(y0, y, served, c, Apply(l.game, t.event), RedisAfter(l.game, c, a))
    ensures Coherence.NoneOutlived(Handoff.Next(served, Handoff.Wait(a.now - y.redis.now)), c.serverID) ==>
              var after := GameLoop.Next(l, t, tuning);
              && RunsTo(y0, y', c.serverID) && Between(y', c, tuning, after.game, after.lastTick)
              && y'.redis == Advance(RedisAfter(l.game, c, a), a.now - y.redis.now)
  {
    served := EventRuns(y0, y, c, a);
    var waited := Handoff.Next(served, Handoff.Wait(a.now - y.redis.now));
    y' := waited;
    if Coherence.NoneOutlived(waited, c.serverID) {
      WaitRuns(y0, served, c, a.now - y.redis.now);
      if GameLoop.Due(l, t, tuning) {
        TickRuns(y0, waited, c, tuning, Apply(l.game, t.event), l.lastTick, t.order);
        y' := Handoff.Next(waited, Handoff.Step.Tick(c.serverID, t.order, tuning.speed));
      }
      GameAfterTurn(l, t, tuning);
    }
  }

  lemma GameAfterTurn(l: GameLoop.Loop, t: GameLoop.Turn, tuning: GameLoop.Config)
    ensures var after, g := GameLoop.Next(l, t, tuning), Apply(l.game, t.event);
            && after.game == (if GameLoop.Due(l, t, tuning) then GameState.Tick(g, t.order, tuning.speed) else g)
            && after.lastTick == (if GameLoop.Due(l, t, tuning) then t.now else l.lastTick)
  {
  }

  // ---- A whole loop ----

  /** Turn k begins in a system that a run from y0 has reached, with this server in the loop's state. */
  ghost predicate BeginsAt(y0: Handoff.System, ys: seq<Handoff.System>, c: Config, tuning: GameLoop.Config,
      first: GameLoop.Loop, turns: seq<GameLoop.Turn>, arrivals: seq<Arrival>, k: nat)
    requires k < |ys| == |turns| == |arrivals|
  {
    Finds(y0, ys[k], c, arrivals[k]) && ys[k].servers[c.serverID].game == GameLoop.At(first, turns, tuning, k).game
  }

  lemma TurnIsGood(y0: Handoff.System, ys: seq<Handoff.System>, c: Config, tuning: GameLoop.Config,
      first: GameLoop.Loop, turns: seq<GameLoop.Turn>, arrivals: seq<Arrival>, k: nat)
    requires Handoff.Init(y0) && k < |ys| == |turns| == |arrivals|
    requires BeginsAt(y0, ys, c, tuning, first, turns, arrivals, k)
    requires GameServer.IsTurnAt(first, turns, arrivals, c, tuning, k)
    ensures GameLoop.GoodTurn(first, turns, tuning, k)
  {
    var served := EventRuns(y0, ys[k], c, arrivals[k]);
    RunIsDistinct(y0, served, c.serverID);
  }

  /** The turns of a server's loop that takes part in runs of the system are good turns: no two sessions share
      an entity at any of them, as long as no session outlives its lease. */
  lemma LoopIsGood(y0: Handoff.System, ys: seq<Handoff.System>, c: Config, tuning: GameLoop.Config,
      first: GameLoop.Loop, turns: seq<GameLoop.Turn>, arrivals: seq<Arrival>)
    requires Handoff.Init(y0) && |ys| == |turns| && GameServer.AreTurns(first, turns, arrivals, c, tuning)
    requires forall k | 0 <= k < |turns| :: BeginsAt(y0, ys, c, tuning, first, turns, arrivals, k)
    ensures GameLoop.GoodTurns(first, turns, tuning)
  {
    forall k | 0 <= k < |turns| ensures GameLoop.GoodTurn(first, turns, tuning, k) {
      assert GameServer.IsTurnAt(first, turns, arrivals, c, tuning, k) && BeginsAt(y0, ys, c, tuning, first, turns, arrivals, k);
      TurnIsGood(y0, ys, c, tuning, first, turns, arrivals, k);
    }
  }

  /** So the speed bound holds of the turns that RunGameLoop makes, without assuming distinct entities. */
  lemma LoopSpeedBound(y0: Handoff.System, ys: seq<Handoff.System>, c: Config, tuning: GameLoop.Config,
      first: GameLoop.Loop, turns: seq<GameLoop.Turn>, arrivals: seq<Arrival>, i: nat, j: nat, id: string)
    requires Handoff.Init(y0) && |ys| == |turns| && GameServer.AreTurns(first, turns, arrivals, c, tuning)
    requires forall k | 0 <= k < |turns| :: BeginsAt(y0, ys, c, tuning, first, turns, arrivals, k)
    requires i <= j <= |turns| && tuning.speed >= 0.0 && GameLoop.Stays(first, turns, tuning, i, j, id)
    ensures GameLoop.Present(first, turns, tuning, i, id) && GameLoop.Present(first, turns, tuning, j, id)
    ensures GameLoop.InReach(first, turns, tuning, i, j, id, GameLoop.Ticks(first, turns, tuning, i, j))
  {
    LoopIsGood(y0, ys, c, tuning, first, turns, arrivals);
    GameLoop.SpeedBound(first, turns, tuning, i, j, id);
  }
}
