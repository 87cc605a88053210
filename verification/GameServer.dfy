/** The game server over the heap: event dispatch, the game loop, registration and shutdown
    (internal/game/server.go). */
module GameServer {
  import opened Wrappers
  import opened Redis
  import opened Domain
  import opened GameState
  import opened World
  import opened Sessions
  import opened Arrivals
  import Simulation
  import JoinHandler
  import GameLoop
  import CharacterLocks
  import GameServers
  import Registry
  import JoinTokens
  import opened Shutdown
  import Join
  import Keys
  import opened Validate

  /** A broadcast as it is sent: a list of entity values and the tick. */
  datatype Broadcast = Broadcast(list: seq<EntityVal>, tick: nat)

  /** The lists sent are those of the given snapshots. */
  ghost predicate Carries(sent: seq<Broadcast>, snapshots: seq<GameLoop.Snapshot>) {
    && |sent| == |snapshots|
    && forall i | 0 <= i < |sent| :: Lists(sent[i].list, snapshots[i].entities) && sent[i].tick == snapshots[i].tick
  }

  class GameServer {
    const client: Client
    const world: World
    const sessions: SessionManager
    const joinHandler: JoinHandler.JoinHandler
    const simulation: Simulation.Simulation
    const registry: GameServers.Store
    const addr: string
    const serverTTL: nat

    ghost predicate Valid()
      reads this, joinHandler, world, sessions
    {
      && joinHandler.client == client && joinHandler.world == world && joinHandler.sessions == sessions
      && joinHandler.Valid() && simulation.tickRate > 0 && registry.client == client
      && joinHandler.lockTTL > 0 && serverTTL > 0
    }

    ghost function Game(): Game
      requires Valid()
      reads this, joinHandler, world, world.Repr, sessions, sessions.Repr
    {
      joinHandler.Game()
    }

    ghost function Tuning(): GameLoop.Config
      requires simulation.tickRate > 0
    {
      GameLoop.Config(simulation.TickInterval(), simulation.moveSpeed)
    }

    constructor (client: Client, tokens: JoinTokens.Store, locks: CharacterLocks.Store, registry: GameServers.Store,
        serverID: string, addr: string, serverTTL: nat, lockTTL: nat, tickRate: int, moveSpeed: real)
      requires tokens.client == client && locks.client == client && registry.client == client
      requires serverTTL > 0 && lockTTL > 0
      ensures Valid() && fresh({world, sessions, joinHandler}) && this.client == client
      ensures joinHandler.Config() == Join.Config(serverID, lockTTL, locks.lockTTL)
      ensures Game() == GameState.Game(map[], map[], 0)
    {
      var w := new World();
      var sm := new SessionManager();
      var handler := new JoinHandler.JoinHandler(client, tokens, locks, w, sm, lockTTL, serverID);
      var sim := new Simulation.Simulation(tickRate, moveSpeed);
      this.client := client;
      world := w;
      sessions := sm;
      joinHandler := handler;
      simulation := sim;
      this.registry := registry;
      this.addr := addr;
      this.serverTTL := serverTTL;
    }

    /** The latest input is overwritten. */
    method ReceiveInput(peer: Peer, input: Option<Packet>)
      requires Valid()
      modifies sessions.Repr
      ensures Valid()
      ensures Game() == if input.Some? then Receive(old(Game()), peer, input.value) else old(Game())
    {
      var session := sessions.Get(peer);
      if session == null {
        return;
      }
      if input.None? {
        return;
      }
      ghost var entities := world.Contents();
      sessions.Overwrite(session, input);
      assert world.Contents() == entities;
    }

    method HandleENetEvent(a: Arrival)
      requires Valid() && client.Space() == a.redis
      modifies client`db, world`entities, world`Repr, sessions, sessions.Repr
      ensures Valid() && joinHandler.Grown(old(world.Repr), old(sessions.Repr))
      ensures client.Space() == RedisAfter(old(Game()), joinHandler.Config(), a)
      ensures Game() == Apply(old(Game()), GameEvent(old(Game()), joinHandler.Config(), a))
      ensures Serves(a, joinHandler.Config(), old(Game()), client.Space(), Game())
    {
      ghost var g := Game();
      EventServes(a, joinHandler.Config(), g);
      match a.event
      case Silence =>
      case Connected(_) =>
      case Received(peer, channel, data) =>
        if channel == CHANNEL_RELIABLE {
          if !data.empty {
            var _ := joinHandler.HandleJoinRequest(peer, data.request, a.chars, a.up);
            JoinIsEvent(a.redis, g, a.chars, joinHandler.Config(), peer, data.request, a.up);
          }
        } else if channel == CHANNEL_UNRELIABLE {
          ReceiveInput(peer, data.input);
        }
      case Disconnected(peer) =>
        joinHandler.HandleDisconnect(peer, a.up.release);
        DisconnectIsLeave(a.redis, g, joinHandler.Config(), peer, a.up.release);
    }

    method RunTick() returns (ghost order: seq<Peer>)
      requires Valid()
      modifies world`tick, world.Repr, sessions.Repr
      ensures Valid() && Enumerates(order, old(Game()).sessions)
      ensures Game() == Tick(old(Game()), order, simulation.moveSpeed)
    {
      order := simulation.DrainInputs(world, sessions);
      ghost var slots := sessions.Contents();
      world.IncrementTick();
      assert sessions.Contents() == slots;
    }

    /** A simulation tick when one is due. */
    method TickIfDue(due: bool) returns (ghost order: seq<Peer>)
      requires Valid()
      modifies world`tick, world.Repr, sessions.Repr
      ensures Valid() && Enumerates(order, old(Game()).sessions)
      ensures Game() == if due then Tick(old(Game()), order, simulation.moveSpeed) else old(Game())
    {
      if due {
        order := RunTick();
      } else {
        order := SomeOrder(Game().sessions);
      }
    }

    /** A snapshot of the world when the counter has reached the divisor and anyone is connected. */
    method BroadcastIfDue(sinceBroadcast: nat) returns (sent: seq<Broadcast>)
      requires Valid()
      ensures Valid() && Game() == old(Game())
      ensures Carries(sent, Sendings(Game(), sinceBroadcast))
    {
      sent := [];
      if sinceBroadcast >= GameLoop.BROADCAST_DIVISOR {
        var count := sessions.Count();
        if count > 0 {
          var list, tick := world.Snapshot();
          sent := [Broadcast(list, tick)];
        }
      }
    }

    /** The part of the trip after the event: a tick when the interval has passed, a broadcast every other tick. */
    method FinishTrip(now: nat, lastTick: nat, sinceBroadcast: nat, ghost past: seq<GameLoop.Snapshot>)
      returns (lastTick': nat, sinceBroadcast': nat, sent: seq<Broadcast>, ghost order: seq<Peer>, ghost snapshots: seq<GameLoop.Snapshot>)
      requires Valid()
      modifies world`tick, world.Repr, sessions.Repr
      ensures Valid() && Enumerates(order, old(Game()).sessions)
      ensures GameLoop.Loop(Game(), lastTick', sinceBroadcast', past + snapshots)
           == GameLoop.Next(GameLoop.Loop(old(Game()), lastTick, sinceBroadcast, past), GameLoop.Turn(Nothing, now, order), Tuning())
      ensures Carries(sent, snapshots)
    {
      lastTick', sinceBroadcast' := lastTick, sinceBroadcast;
      var due := now - lastTick >= simulation.TickInterval();
      order := TickIfDue(due);
      if due {
        lastTick' := now;
        sinceBroadcast' := sinceBroadcast + 1;
      }
      sent := BroadcastIfDue(sinceBroadcast');
      snapshots := Sendings(Game(), sinceBroadcast');
      EventlessTurn(GameLoop.Loop(old(Game()), lastTick, sinceBroadcast, past), now, order, Tuning(), Game());
      if sinceBroadcast' >= GameLoop.BROADCAST_DIVISOR {
        sinceBroadcast' := 0;
      }
    }

    /** The same part as the end of the turn that began with `event` in game g. */
    method FinishTurn(now: nat, lastTick: nat, sinceBroadcast: nat, ghost past: seq<GameLoop.Snapshot>, ghost g: Game, ghost event: Event)
      returns (lastTick': nat, sinceBroadcast': nat, sent: seq<Broadcast>, ghost turn: GameLoop.Turn, ghost snapshots: seq<GameLoop.Snapshot>)
      requires Valid() && Game() == Apply(g, event)
      modifies world`tick, world.Repr, sessions.Repr
      ensures Valid() && turn.event == event && turn.now == now && Enumerates(turn.order, Apply(g, event).sessions)
      ensures GameLoop.Loop(Game(), lastTick', sinceBroadcast', past + snapshots)
           == GameLoop.Next(GameLoop.Loop(g, lastTick, sinceBroadcast, past), turn, Tuning())
      ensures Carries(sent, snapshots)
    {
      ghost var order;
      lastTick', sinceBroadcast', sent, order, snapshots := FinishTrip(now, lastTick, sinceBroadcast, past);
      turn := GameLoop.Turn(event, now, order);
      EventFirst(GameLoop.Loop(g, lastTick, sinceBroadcast, past), turn, Tuning());
    }

    /** The next event is served. The key space it finds is whatever the others have made of it. */
    method ServeEvent(a: Arrival) returns (ghost event: Event)
      requires Valid()
      modifies client, world`entities, world`Repr, sessions, sessions.Repr
      ensures Valid() && joinHandler.Grown(old(world.Repr), old(sessions.Repr))
      ensures client.Space() == RedisAfter(old(Game()), joinHandler.Config(), a)
      ensures event == GameEvent(old(Game()), joinHandler.Config(), a) && Game() == Apply(old(Game()), event)
    {
      ghost var g := Game();
      client.now, client.db := a.redis.now, a.redis.db;
      assert Valid() && Game() == g;
      HandleENetEvent(a);
      event := GameEvent(g, joinHandler.Config(), a);
    }

    /** One trip through the loop. */
    method ServeOnce(a: Arrival, lastTick: nat, sinceBroadcast: nat, ghost past: seq<GameLoop.Snapshot>)
      returns (lastTick': nat, sinceBroadcast': nat, sent: seq<Broadcast>, ghost turn: GameLoop.Turn, ghost snapshots: seq<GameLoop.Snapshot>)
      requires Valid()
      modifies client, world, world.Repr, sessions, sessions.Repr
      ensures Valid() && joinHandler.Grown(old(world.Repr), old(sessions.Repr))
      ensures client.Space() == RedisAfter(old(Game()), joinHandler.Config(), a)
      ensures IsTurn(turn, a, old(Game()), joinHandler.Config())
      ensures GameLoop.Loop(Game(), lastTick', sinceBroadcast', past + snapshots)
           == GameLoop.Next(GameLoop.Loop(old(Game()), lastTick, sinceBroadcast, past), turn, Tuning())
      ensures Carries(sent, snapshots)
    {
      ghost var g := Game();
      ghost var event := ServeEvent(a);
      lastTick', sinceBroadcast', sent, turn, snapshots := FinishTurn(a.now, lastTick, sinceBroadcast, past, g, event);
    }

    /** The loop, for as many trips as it makes before it is told to stop: its world, sessions, counters and
        broadcasts are those of the run of turns that the arrivals amount to. */
    method RunGameLoop(start: nat, arrivals: seq<Arrival>) returns (sent: seq<Broadcast>, ghost turns: seq<GameLoop.Turn>)
      requires Valid()
      modifies client, world, world.Repr, sessions, sessions.Repr
      ensures Valid()
      ensures |turns| == |arrivals|
      ensures var first := GameLoop.Start(old(Game()), start);
              && AreTurns(first, turns, arrivals, joinHandler.Config(), Tuning())
              && Game() == GameLoop.At(first, turns, Tuning(), |turns|).game
              && Carries(sent, GameLoop.At(first, turns, Tuning(), |turns|).broadcasts)
    {
      ghost var first := GameLoop.Start(Game(), start);
      ghost var loop := first;
      var lastTick, sinceBroadcast := start, 0;
      sent, turns := [], [];
      for i := 0 to |arrivals|
        invariant Valid() && joinHandler.Grown(old(world.Repr), old(sessions.Repr))
        invariant |turns| == i && AreTurns(first, turns, arrivals[..i], joinHandler.Config(), Tuning())
        invariant loop == GameLoop.At(first, turns, Tuning(), i)
        invariant loop.game == Game() && loop.lastTick == lastTick && loop.sinceBroadcast == sinceBroadcast
        invariant Carries(sent, loop.broadcasts)
      {
        ghost var turn, snapshots;
        var more;
        lastTick, sinceBroadcast, more, turn, snapshots := ServeOnce(arrivals[i], lastTick, sinceBroadcast, loop.broadcasts);
        CarriesMore(sent, loop.broadcasts, more, snapshots);
        OneMoreTurn(first, turns, arrivals[..i], joinHandler.Config(), Tuning(), turn, arrivals[i]);
        TakeOneMore(arrivals, i);
        loop := GameLoop.Next(loop, turn, Tuning());
        turns := turns + [turn];
        sent := sent + more;
      }
      assert arrivals[..|arrivals|] == arrivals;
    }

    /** registerGameServer, and each beat of renewHeartbeat: a lease of serverTTL from now. */
    method Register(upSet: bool, upAdd: bool, upExpire: bool) returns (r: Result<()>)
      requires Valid()
      modifies client`db
      ensures (client.Space(), r) ==
                GameServers.RegisterEffect(old(client.Space()), Announcement(joinHandler.serverID, addr, client.now, serverTTL),
                                           registry.serverTTL, upSet, upAdd, upExpire)
    {
      var server := GameServers.GameServer(joinHandler.serverID, addr, client.now + serverTTL);
      r := registry.RegisterGameServer(server, upSet, upAdd, upExpire);
    }

    /** The release loop and the deregistration; a release that fails does not stop the others. */
    method ShutDown(up: Peer -> bool, upDeregister: bool) returns (ghost order: seq<Peer>)
      requires Valid()
      modifies client`db
      ensures Enumerates(order, old(sessions.Contents()))
      ensures client.Space() ==
                GameServers.DeregisterEffect(ReleaseAll(old(client.Space()), old(sessions.Contents()), order, joinHandler.serverID, up),
                                             joinHandler.serverID, upDeregister).0
    {
      ghost var contents := sessions.Contents();
      var all := sessions.All();
      order := Peers(all);
      ReleaseLocks(all, up, contents);
      var _ := registry.DeregisterGameServer(joinHandler.serverID, upDeregister);
    }

    method ReleaseLocks(list: seq<Session>, up: Peer -> bool, ghost contents: map<Peer, SessionVal>)
      requires joinHandler.locks.client == client
      requires forall i | 0 <= i < |list| :: list[i].peer in contents && contents[list[i].peer].characterID == list[i].characterID
      modifies client`db
      ensures client.Space() == ReleaseAll(old(client.Space()), contents, Peers(list), joinHandler.serverID, up)
    {
      ghost var space, order := client.Space(), Peers(list);
      for i := 0 to |list|
        invariant client.Space() == ReleaseAll(space, contents, order[..i], joinHandler.serverID, up)
      {
        ReleaseOneMore(space, contents, order, i, joinHandler.serverID, up);
        var _ := joinHandler.locks.Release(list[i].characterID, joinHandler.serverID, up(list[i].peer));
      }
      assert order[..|list|] == order;
    }
  }

  // ---- Staying listed ----

  /** heartbeatInterval and DefaultServerTTL, in milliseconds. */
  const HEARTBEAT: nat := 5_000
  const DEFAULT_SERVER_TTL: nat := 10_000

  function Announcement(id: string, addr: string, now: nat, ttl: nat): GameServers.GameServer {
    GameServers.GameServer(id, addr, now + ttl)
  }

  /** A beat that gets through is the registry's whole registration of this server, from now for its time to live:
      a step of those by which ListedBetweenBeats has the server listed. */
  lemma BeatIsStep(st: State, id: string, addr: string, ttl: nat, serverTTL: nat)
    requires Keys.ValidSegment(id) && ttl > 0
    ensures var s := GameServers.GameServer(id, addr, st.now + ttl);
            && GameServers.RegisterEffect(st, Announcement(id, addr, st.now, ttl), serverTTL, true, true, true)
            == (Registry.Next(st, Registry.Register(s), serverTTL), Ok(()))
            && Registry.BeatOrOther(st, Registry.Register(s), id, ttl)
  {
    var s := Announcement(id, addr, st.now, ttl);
    Registry.EffectOfCommands(st, s, serverTTL, true, true, true);
  }

  /** Right after it the server is listed under its ID, with its address and a lease of its time to live. */
  lemma BeatLists(st: State, id: string, addr: string, ttl: nat, serverTTL: nat)
    requires Keys.ValidSegment(id) && ttl > 0 && serverTTL > 0
    ensures var after := GameServers.RegisterEffect(st, Announcement(id, addr, st.now, ttl), serverTTL, true, true, true).0;
            && Registry.Listed(after, id)
            && after.db[Keys.Server(id)] == Entry(ServerDoc(ServerPayload(id, addr, st.now + ttl)), Some(st.now + ttl))
            && Registry.Covered(after, id, st.now + serverTTL)
  {
    BeatIsStep(st, id, addr, ttl, serverTTL);
    RegisteredIsListed(st, GameServers.GameServer(id, addr, st.now + ttl), serverTTL);
  }

  lemma RegisteredIsListed(st: State, s: GameServers.GameServer, serverTTL: nat)
    requires st.now < s.expiresAt && serverTTL > 0
    ensures var after := GameServers.Registered(st, s, serverTTL);
            && Registry.Listed(after, s.id)
            && after.db[Keys.Server(s.id)] == Entry(ServerDoc(GameServers.Payload(s)), Some(s.expiresAt))
            && Registry.Covered(after, s.id, st.now + serverTTL)
  {
    assert Live(GameServers.AddToIndex(GameServers.PutServer(st, s), s.id), Keys.ServersIndex);
  }

  /** What a shutdown whose deregistration gets through leaves: this server's record is gone, and so is every lock it
      held for a session whose release got through; every other key reads as before. */
  lemma ShutDownLeaves(st: State, sessions: map<Peer, SessionVal>, order: seq<Peer>, id: string, up: Peer -> bool)
    requires Normalized(id)
    ensures var end := GameServers.DeregisterEffect(ReleaseAll(st, sessions, order, id, up), id, true).0;
            && end.now == st.now
            && forall k :: Join.Seen(end, k) ==
                 if k == Keys.Server(id) || Freed(st, k, sessions, order, id, up) then None else Join.Seen(st, k)
  {
    var released := ReleaseAll(st, sessions, order, id, up);
    ReleasesExactly(st, sessions, order, id, up);
    OnlyRecordGone(released, id);
  }

  lemma OnlyRecordGone(st: State, id: string)
    requires Normalized(id)
    ensures var after := GameServers.DeregisterEffect(st, id, true).0;
            after.now == st.now && forall k :: Join.Seen(after, k) == if k == Keys.Server(id) then None else Join.Seen(st, k)
  {
  }

  /** With the default heartbeat and leases, a server whose beats get through on time is listed at every step,
      among any commands of other servers. */
  lemma ListedBetweenBeats(st: State, ops: seq<Registry.Op>, a: nat, b: nat, id: string)
    requires Registry.NoServers(st) && a <= b <= |ops|
    requires Registry.OnlyBeats(st, ops, DEFAULT_SERVER_TTL, id, DEFAULT_SERVER_TTL)
    requires forall n | a <= n <= b :: Registry.OnTime(st, ops, DEFAULT_SERVER_TTL, n, id, HEARTBEAT)
    ensures forall n | a <= n <= b :: Registry.Listed(Registry.At(st, ops, DEFAULT_SERVER_TTL, n), id)
  {
    Registry.ListedOnSchedule(st, ops, DEFAULT_SERVER_TTL, a, b, id, DEFAULT_SERVER_TTL, HEARTBEAT);
  }

  lemma CarriesMore(sent: seq<Broadcast>, snapshots: seq<GameLoop.Snapshot>, sent': seq<Broadcast>, snapshots': seq<GameLoop.Snapshot>)
    requires Carries(sent, snapshots) && Carries(sent', snapshots')
    ensures Carries(sent + sent', snapshots + snapshots')
  {
  }

  /** The snapshots to be sent when the counter stands at n. */
  function Sendings(g: Game, n: nat): seq<GameLoop.Snapshot> {
    if n >= GameLoop.BROADCAST_DIVISOR && |g.sessions| > 0 then [GameLoop.Snapshot(g.tick, g.entities)] else []
  }

  lemma EventlessTurn(l: GameLoop.Loop, now: nat, order: seq<Peer>, tuning: GameLoop.Config, g: Game)
    requires g == if now - l.lastTick >= tuning.interval then Tick(l.game, order, tuning.speed) else l.game
    ensures var due := now - l.lastTick >= tuning.interval;
            var n := if due then l.sinceBroadcast + 1 else l.sinceBroadcast;
            var after := GameLoop.Next(l, GameLoop.Turn(Nothing, now, order), tuning);
            && after.game == g && after.lastTick == (if due then now else l.lastTick)
            && after.sinceBroadcast == (if n >= GameLoop.BROADCAST_DIVISOR then 0 else n)
            && after.broadcasts == l.broadcasts + Sendings(g, n)
  {
  }

  /** A turn is its event followed by an eventless turn. */
  lemma EventFirst(l: GameLoop.Loop, t: GameLoop.Turn, tuning: GameLoop.Config)
    ensures GameLoop.Next(l, t, tuning)
         == GameLoop.Next(l.(game := Apply(l.game, t.event)), t.(event := Nothing), tuning)
  {
  }

  lemma TakeOneMore<T>(s: seq<T>, i: nat)
    requires i < |s|
    ensures s[..i + 1] == s[..i] + [s[i]]
  {
  }

  /** The turn is what arrival a amounts to when it finds game g; the order is one the session map could yield. */
  ghost predicate IsTurn(t: GameLoop.Turn, a: Arrival, g: Game, c: Join.Config) {
    && t.now == a.now
    && t.event == GameEvent(g, c, a)
    && Enumerates(t.order, Apply(g, t.event).sessions)
  }

  ghost predicate IsTurnAt(first: GameLoop.Loop, turns: seq<GameLoop.Turn>, arrivals: seq<Arrival>, c: Join.Config, tuning: GameLoop.Config, k: nat)
    requires k < |turns| == |arrivals|
  {
    IsTurn(turns[k], arrivals[k], GameLoop.At(first, turns, tuning, k).game, c)
  }

  ghost predicate AreTurns(first: GameLoop.Loop, turns: seq<GameLoop.Turn>, arrivals: seq<Arrival>, c: Join.Config, tuning: GameLoop.Config) {
    |turns| == |arrivals| && forall k | 0 <= k < |turns| :: IsTurnAt(first, turns, arrivals, c, tuning, k)
  }

  lemma {:induction false} SamePrefix(first: GameLoop.Loop, turns: seq<GameLoop.Turn>, t: GameLoop.Turn, tuning: GameLoop.Config, n: nat)
    requires n <= |turns|
    ensures GameLoop.At(first, turns + [t], tuning, n) == GameLoop.At(first, turns, tuning, n)
  {
    if n > 0 {
      SamePrefix(first, turns, t, tuning, n - 1);
    }
  }

  lemma OneMoreTurn(first: GameLoop.Loop, turns: seq<GameLoop.Turn>, arrivals: seq<Arrival>, c: Join.Config, tuning: GameLoop.Config, t: GameLoop.Turn, a: Arrival)
    requires AreTurns(first, turns, arrivals, c, tuning)
    requires IsTurn(t, a, GameLoop.At(first, turns, tuning, |turns|).game, c)
    ensures AreTurns(first, turns + [t], arrivals + [a], c, tuning)
    ensures GameLoop.At(first, turns + [t], tuning, |turns| + 1) == GameLoop.Next(GameLoop.At(first, turns, tuning, |turns|), t, tuning)
  {
    forall k | 0 <= k <= |turns| ensures IsTurnAt(first, turns + [t], arrivals + [a], c, tuning, k) {
      SamePrefix(first, turns, t, tuning, k);
      assert k < |turns| ==> IsTurnAt(first, turns, arrivals, c, tuning, k);
    }
    SamePrefix(first, turns, t, tuning, |turns|);
  }
}
