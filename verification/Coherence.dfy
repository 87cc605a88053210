/** As long as no session outlives its lease, a game server's sessions, world and locks agree. */
module Coherence {
  import opened Wrappers
  import opened Redis
  import opened Keys
  import opened Domain
  import opened GameState
  import opened Handoff
  import opened Exclusion
  import CharacterLocks

  /** No session of server s has outlived its lease. The code never renews locks, so this is a hypothesis. */
  ghost predicate NoneOutlived(y: System, s: string) {
    s in y.servers ==> forall p | p in y.servers[s].tickets :: y.redis.now < y.servers[s].tickets[p].leaseEnd
  }

  predicate Stopping(g: GameServer) {
    g.phase.Stopped? || (g.phase.Releasing? && g.phase.cause.ShuttingDown?)
  }

  /** The sessions' characters are pairwise distinct, and each session's entity is in the world and its
      character's lock is owned by this server. */
  ghost predicate Coherent(y: System, s: string)
    requires s in y.servers
  {
    var game := y.servers[s].game;
    && (forall p, q | p in game.sessions && q in game.sessions && p != q :: game.sessions[p].characterID != game.sessions[q].characterID)
    && (forall p | p in game.sessions ::
          && game.sessions[p].entityID == EntityID(game.sessions[p].characterID)
          && game.sessions[p].entityID in game.entities
          && CharacterLocks.Holder(y.redis, game.sessions[p].characterID) == Some(s))
  }

  lemma CoherentIsDistinct(y: System, s: string)
    requires s in y.servers && Coherent(y, s)
    ensures DistinctEntities(y.servers[s].game.sessions)
  {
    var sessions := y.servers[s].game.sessions;
    forall p, q | p in sessions && q in sessions && p != q ensures sessions[p].entityID != sessions[q].entityID {
      EntityIDInjective(sessions[p].characterID, sessions[q].characterID);
    }
  }

  // ---- The invariant ----

  predicate Leased(st: State, s: string, character: string, ttl: nat, until: nat) {
    HeldUntil(st, character, s, until) && until <= st.now + ttl
  }

  ghost predicate SessionOk(st: State, s: string, g: GameServer, p: Peer) {
    p in g.game.sessions ==>
      var session := g.game.sessions[p];
      && p in g.tickets
      && session.entityID == EntityID(session.characterID)
      && session.entityID in g.game.entities
      && Leased(st, s, session.characterID, g.lockTTL, g.tickets[p].leaseEnd)
  }

  predicate Plays(g: GameServer, character: string) {
    exists p | p in g.game.sessions :: g.game.sessions[p].characterID == character
  }

  ghost predicate DistinctCharacters(g: GameServer) {
    forall p, q | p in g.game.sessions && q in g.game.sessions && p != q ::
      g.game.sessions[p].characterID != g.game.sessions[q].characterID
  }

  /** A join in progress holds its lease for a character nobody here plays; a release concerns such a character. */
  predicate PhaseOk(st: State, s: string, g: GameServer) {
    match g.phase
    case Locked(_, t, _, leaseEnd) =>
      && !Plays(g, t.characterID)
      && leaseEnd <= st.now + g.lockTTL
      && (st.now < leaseEnd ==> Leased(st, s, t.characterID, g.lockTTL, leaseEnd))
    case Releasing(todo, _) => forall c | c in todo :: !Plays(g, c)
    case _ => true
  }

  ghost predicate ServerOk(st: State, s: string, g: GameServer) {
    !Stopping(g) ==>
      && (forall p | p in g.tickets :: p in g.game.sessions)
      && (forall p :: SessionOk(st, s, g, p))
      && DistinctCharacters(g)
      && PhaseOk(st, s, g)
  }

  /** What any step leaves true of the leases of server s. */
  lemma LeasesKept(y: System, step: Step, s: string)
    requires s in y.servers && !Stopping(y.servers[s]) && ServerOk(y.redis, s, y.servers[s]) && NoneOutlived(y, s)
    ensures var g := y.servers[s]; var st' := Next(y, step).redis;
            forall p | p in g.game.sessions && p in g.tickets :: Leased(st', s, g.game.sessions[p].characterID, g.lockTTL, g.tickets[p].leaseEnd)
  {
    var g := y.servers[s];
    forall p | p in g.game.sessions && p in g.tickets
      ensures Leased(Next(y, step).redis, s, g.game.sessions[p].characterID, g.lockTTL, g.tickets[p].leaseEnd)
    {
      assert SessionOk(y.redis, s, g, p);
      var c := g.game.sessions[p].characterID;
      assert Plays(g, c);
      assert !Releases(y, step, s, c);
      StepKeepsLease(y, step, c, s, g.lockTTL, g.tickets[p].leaseEnd);
    }
  }

  lemma LockedLeaseKept(y: System, step: Step, s: string)
    requires s in y.servers && ServerOk(y.redis, s, y.servers[s]) && y.servers[s].phase.Locked?
    ensures var g := y.servers[s]; var st' := Next(y, step).redis;
            && g.phase.leaseEnd <= st'.now + g.lockTTL
            && (st'.now < g.phase.leaseEnd ==> Leased(st', s, g.phase.token.characterID, g.lockTTL, g.phase.leaseEnd))
  {
    var g := y.servers[s];
    ClockAdvances(y, step);
    if y.redis.now < g.phase.leaseEnd {
      StepKeepsLease(y, step, g.phase.token.characterID, s, g.lockTTL, g.phase.leaseEnd);
    }
  }

  /** A step that leaves server s itself alone. */
  lemma UntouchedStaysOk(y: System, step: Step, s: string)
    requires s in y.servers && ServerOk(y.redis, s, y.servers[s]) && NoneOutlived(y, s)
    requires s in Next(y, step).servers && Next(y, step).servers[s] == y.servers[s]
    ensures ServerOk(Next(y, step).redis, s, Next(y, step).servers[s])
  {
    var g := y.servers[s];
    if !Stopping(g) {
      LeasesKept(y, step, s);
      forall p ensures SessionOk(Next(y, step).redis, s, g, p) {
        assert SessionOk(y.redis, s, g, p);
      }
      if g.phase.Locked? {
        LockedLeaseKept(y, step, s);
      }
    }
  }

  // ---- The steps of server s itself ----

  /** The invariant of a server whose game and tickets did not change, in a new phase. */
  lemma PhaseChanged(y: System, step: Step, s: string)
    requires s in y.servers && !Stopping(y.servers[s]) && ServerOk(y.redis, s, y.servers[s]) && NoneOutlived(y, s)
    requires s in Next(y, step).servers
    requires var g, g' := y.servers[s], Next(y, step).servers[s];
             g'.game == g.game && g'.tickets == g.tickets && g'.lockTTL == g.lockTTL && PhaseOk(Next(y, step).redis, s, g')
    ensures ServerOk(Next(y, step).redis, s, Next(y, step).servers[s])
  {
    var g, g' := y.servers[s], Next(y, step).servers[s];
    LeasesKept(y, step, s);
    forall p ensures SessionOk(Next(y, step).redis, s, g', p) {
      assert SessionOk(y.redis, s, g, p);
    }
  }

  /** A lock that can be taken belongs to no session here: those are all within their leases. */
  lemma FreeLockNotPlayed(y: System, s: string, character: string)
    requires s in y.servers && !Stopping(y.servers[s]) && ServerOk(y.redis, s, y.servers[s]) && NoneOutlived(y, s)
    requires !Live(y.redis, CharacterLock(character))
    ensures !Plays(y.servers[s], character)
  {
    var g := y.servers[s];
    forall p | p in g.game.sessions ensures g.game.sessions[p].characterID != character {
      assert SessionOk(y.redis, s, g, p);
    }
  }

  lemma AcquireStaysOk(y: System, s: string, up: bool)
    requires s in y.servers && ServerOk(y.redis, s, y.servers[s]) && NoneOutlived(y, s)
    ensures ServerOk(AcquireStep(y, s, up).redis, s, AcquireStep(y, s, up).servers[s])
  {
    var g := y.servers[s];
    if g.phase.Consumed? {
      var c := g.phase.token.characterID;
      if !Live(y.redis, CharacterLock(c)) {
        FreeLockNotPlayed(y, s, c);
      }
      assert PhaseOk(AcquireStep(y, s, up).redis, s, AcquireStep(y, s, up).servers[s]);
      PhaseChanged(y, Step.Acquire(s, up), s);
    }
  }

  lemma ReleaseStaysOk(y: System, s: string, up: bool)
    requires s in y.servers && ServerOk(y.redis, s, y.servers[s]) && NoneOutlived(y, s)
    ensures ServerOk(ReleaseStep(y, s, up).redis, s, ReleaseStep(y, s, up).servers[s])
  {
    var g := y.servers[s];
    if g.phase.Releasing? && !Stopping(g) {
      assert g.phase.todo != [] ==> forall c | c in g.phase.todo[1..] :: c in g.phase.todo;
      assert PhaseOk(ReleaseStep(y, s, up).redis, s, ReleaseStep(y, s, up).servers[s]);
      PhaseChanged(y, Step.Release(s, up), s);
    }
  }

  lemma ConsumeStaysOk(y: System, step: Step)
    requires step.Consume? && step.s in y.servers
    requires ServerOk(y.redis, step.s, y.servers[step.s]) && NoneOutlived(y, step.s)
    ensures ServerOk(Next(y, step).redis, step.s, Next(y, step).servers[step.s])
  {
    if InPhase(y, step.s, true) {
      PhaseChanged(y, step, step.s);
    }
  }

  /** Entering the world needs the lease to be still running then, which is the hypothesis after the step. */
  lemma EnterStaysOk(y: System, s: string)
    requires s in y.servers && ServerOk(y.redis, s, y.servers[s]) && NoneOutlived(y, s)
    requires KeyedByID(y.chars) && Loads(y, s, true)
    requires NoneOutlived(LoadStep(y, s, true), s)
    ensures ServerOk(LoadStep(y, s, true).redis, s, LoadStep(y, s, true).servers[s])
  {
    var g, g' := y.servers[s], LoadStep(y, s, true).servers[s];
    assert g.phase.peer in g'.tickets;
    forall p ensures SessionOk(y.redis, s, g', p) {
      assert SessionOk(y.redis, s, g, p);
    }
    forall p, q | p in g'.game.sessions && q in g'.game.sessions && p != q
      ensures g'.game.sessions[p].characterID != g'.game.sessions[q].characterID
    {
      assert p != g.phase.peer ==> g'.game.sessions[p] == g.game.sessions[p];
      assert q != g.phase.peer ==> g'.game.sessions[q] == g.game.sessions[q];
    }
  }

  lemma LoadStaysOk(y: System, s: string, up: bool)
    requires s in y.servers && ServerOk(y.redis, s, y.servers[s]) && NoneOutlived(y, s) && KeyedByID(y.chars)
    requires NoneOutlived(LoadStep(y, s, up), s)
    ensures ServerOk(LoadStep(y, s, up).redis, s, LoadStep(y, s, up).servers[s])
  {
    if Loads(y, s, up) {
      EnterStaysOk(y, s);
    } else if y.servers[s].phase.Locked? {
      PhaseChanged(y, Step.Load(s, up), s);
    }
  }

  lemma DisconnectStaysOk(y: System, s: string, peer: Peer)
    requires s in y.servers && ServerOk(y.redis, s, y.servers[s]) && NoneOutlived(y, s)
    ensures ServerOk(DisconnectStep(y, s, peer).redis, s, DisconnectStep(y, s, peer).servers[s])
  {
    var g, g' := y.servers[s], DisconnectStep(y, s, peer).servers[s];
    if InPhase(y, s, true) && peer in g.game.sessions {
      assert SessionOk(y.redis, s, g, peer);
      forall p ensures SessionOk(y.redis, s, g', p) {
        assert SessionOk(y.redis, s, g, p);
        if p in g'.game.sessions {
          EntityIDInjective(g.game.sessions[p].characterID, g.game.sessions[peer].characterID);
        }
      }
    }
  }

  /** Inputs and ticks keep every session's identity and the set of entities. */
  lemma PlayStaysOk(y: System, s: string, game: Game, lastTick: nat)
    requires s in y.servers && ServerOk(y.redis, s, y.servers[s])
    requires game.sessions.Keys == y.servers[s].game.sessions.Keys && game.entities.Keys == y.servers[s].game.entities.Keys
    requires forall p | p in game.sessions ::
               game.sessions[p].(latestInput := None) == y.servers[s].game.sessions[p].(latestInput := None)
    ensures ServerOk(PlayStep(y, s, game, lastTick).redis, s, PlayStep(y, s, game, lastTick).servers[s])
  {
    var g, g' := y.servers[s], PlayStep(y, s, game, lastTick).servers[s];
    if InPhase(y, s, true) {
      forall p ensures SessionOk(y.redis, s, g', p) {
        assert SessionOk(y.redis, s, g, p);
      }
      assert forall p | p in game.sessions :: game.sessions[p].characterID == g.game.sessions[p].characterID;
    }
  }

  lemma RenewKeepsSession(y: System, s: string, character: string, p: Peer)
    requires s in y.servers && SessionOk(y.redis, s, y.servers[s], p)
    requires var g, y' := y.servers[s], RenewStep(y, s, character);
             p in g.game.sessions && p in g.tickets ==> Leased(y'.redis, s, g.game.sessions[p].characterID, g.lockTTL, g.tickets[p].leaseEnd)
    ensures var y' := RenewStep(y, s, character); SessionOk(y'.redis, s, y'.servers[s], p)
  {
  }

  lemma RenewKeepsSessions(y: System, s: string, character: string)
    requires s in y.servers && !Stopping(y.servers[s]) && ServerOk(y.redis, s, y.servers[s]) && NoneOutlived(y, s)
    ensures var y' := RenewStep(y, s, character); forall p :: SessionOk(y'.redis, s, y'.servers[s], p)
  {
    var y' := RenewStep(y, s, character);
    LeasesKept(y, Step.Renew(s, character), s);
    forall p ensures SessionOk(y'.redis, s, y'.servers[s], p) {
      assert SessionOk(y.redis, s, y.servers[s], p);
      RenewKeepsSession(y, s, character, p);
    }
  }

  lemma RenewStaysOk(y: System, s: string, character: string)
    requires s in y.servers && ServerOk(y.redis, s, y.servers[s]) && NoneOutlived(y, s)
    ensures ServerOk(RenewStep(y, s, character).redis, s, RenewStep(y, s, character).servers[s])
  {
    var y' := RenewStep(y, s, character);
    var g, g' := y.servers[s], y'.servers[s];
    if !Stopping(g) {
      RenewKeepsSessions(y, s, character);
      if g.phase.Locked? {
        LockedLeaseKept(y, Step.Renew(s, character), s);
      }
      assert forall c :: Plays(g', c) == Plays(g, c);
    }
  }

  /** What the heartbeat would achieve if it renewed locks: while no lease has lapsed, renewing a session's
      character always succeeds and moves the session's lease to a full time to live from now. */
  lemma RenewExtends(y: System, s: string, p: Peer)
    requires s in y.servers && !Stopping(y.servers[s]) && ServerOk(y.redis, s, y.servers[s]) && NoneOutlived(y, s)
    requires p in y.servers[s].game.sessions
    ensures var y' := RenewStep(y, s, y.servers[s].game.sessions[p].characterID);
            && p in y'.servers[s].tickets && y'.servers[s].tickets[p].leaseEnd == y.redis.now + y.servers[s].lockTTL
            && ServerOk(y'.redis, s, y'.servers[s])
  {
    assert SessionOk(y.redis, s, y.servers[s], p);
    RenewStaysOk(y, s, y.servers[s].game.sessions[p].characterID);
  }

  predicate Concerns(step: Step, s: string) {
    match step
    case Consume(s', _, _, _, _, _) => s' == s
    case Acquire(s', _) => s' == s
    case Load(s', _) => s' == s
    case Release(s', _) => s' == s
    case Disconnect(s', _) => s' == s
    case Shutdown(s', _) => s' == s
    case Receive(s', _, _) => s' == s
    case Tick(s', _, _) => s' == s
    case Renew(s', _) => s' == s
    case _ => false
  }

  lemma OwnStepStaysOk(y: System, step: Step, s: string)
    requires s in y.servers && ServerOk(y.redis, s, y.servers[s]) && KeyedByID(y.chars)
    requires NoneOutlived(y, s) && NoneOutlived(Next(y, step), s) && Concerns(step, s)
    ensures s in Next(y, step).servers && ServerOk(Next(y, step).redis, s, Next(y, step).servers[s])
  {
    match step
    case Consume(_, _, _, _, _, _) => ConsumeStaysOk(y, step);
    case Acquire(_, up) => AcquireStaysOk(y, s, up);
    case Load(_, up) => LoadStaysOk(y, s, up);
    case Release(_, up) => ReleaseStaysOk(y, s, up);
    case Disconnect(_, peer) => DisconnectStaysOk(y, s, peer);
    case Shutdown(_, order) =>
    case Receive(_, peer, packet) => PlayStaysOk(y, s, GameState.Receive(y.servers[s].game, peer, packet), y.servers[s].lastTick);
    case Tick(_, order, speed) =>
      DrainKeepsKeys(y.servers[s].game.entities, y.servers[s].game.sessions, order, speed);
      PlayStaysOk(y, s, GameState.Tick(y.servers[s].game, order, speed), y.redis.now);
    case Renew(_, character) => RenewStaysOk(y, s, character);
  }

  lemma OtherStepLeaves(y: System, step: Step, s: string)
    requires s in y.servers && !Concerns(step, s)
    ensures s in Next(y, step).servers && Next(y, step).servers[s] == y.servers[s]
  {
  }

  lemma StepStaysOk(y: System, step: Step, s: string)
    requires s in y.servers && ServerOk(y.redis, s, y.servers[s]) && KeyedByID(y.chars)
    requires NoneOutlived(y, s) && NoneOutlived(Next(y, step), s)
    ensures s in Next(y, step).servers && ServerOk(Next(y, step).redis, s, Next(y, step).servers[s])
  {
    if Concerns(step, s) {
      OwnStepStaysOk(y, step, s);
    } else {
      OtherStepLeaves(y, step, s);
      UntouchedStaysOk(y, step, s);
    }
  }

  lemma OnlyStartAdds(y: System, step: Step, s: string)
    requires s !in y.servers && s in Next(y, step).servers
    ensures step.Start? && step.s == s
  {
  }

  /** A server that starts, starts well. */
  lemma StartsOk(y: System, step: Step, s: string)
    requires s !in y.servers && s in Next(y, step).servers
    ensures ServerOk(Next(y, step).redis, s, Next(y, step).servers[s])
  {
    OnlyStartAdds(y, step, s);
    FreshServerOk(y.redis, s, Next(y, step).servers[s]);
  }

  lemma FreshServerOk(st: State, s: string, g: GameServer)
    requires g.game.sessions == map[] && g.tickets == map[] && g.phase.Idle?
    ensures ServerOk(st, s, g)
  {
  }

  // ---- Runs ----

  ghost predicate NoneOutlivedAt(y: System, steps: seq<Step>, n: nat, s: string)
    requires n <= |steps|
  {
    NoneOutlived(At(y, steps, n), s)
  }

  lemma {:induction false} CharsKeyed(y: System, steps: seq<Step>, n: nat)
    requires KeyedByID(y.chars) && n <= |steps|
    ensures KeyedByID(At(y, steps, n).chars)
  {
    if n > 0 {
      CharsKeyed(y, steps, n - 1);
      StepKeepsKeyed(At(y, steps, n - 1), steps[n - 1]);
    }
  }

  lemma StepKeepsKeyed(y: System, step: Step)
    requires KeyedByID(y.chars)
    ensures KeyedByID(Next(y, step).chars)
  {
  }

  ghost predicate OkIfRunning(y: System, s: string) {
    s in y.servers ==> ServerOk(y.redis, s, y.servers[s])
  }

  lemma {:induction false} AlwaysOk(y: System, steps: seq<Step>, n: nat, s: string)
    requires Init(y) && n <= |steps|
    requires forall m | 0 <= m <= n :: NoneOutlivedAt(y, steps, m, s)
    ensures OkIfRunning(At(y, steps, n), s)
  {
    if n > 0 {
      AlwaysOk(y, steps, n - 1, s);
      CharsKeyed(y, steps, n - 1);
      assert NoneOutlivedAt(y, steps, n - 1, s) && NoneOutlivedAt(y, steps, n, s);
      StaysOkAt(y, steps, n, s);
    }
  }

  lemma StaysOkAt(y: System, steps: seq<Step>, n: nat, s: string)
    requires 0 < n <= |steps| && OkIfRunning(At(y, steps, n - 1), s) && KeyedByID(At(y, steps, n - 1).chars)
    requires NoneOutlivedAt(y, steps, n - 1, s) && NoneOutlivedAt(y, steps, n, s)
    ensures OkIfRunning(At(y, steps, n), s)
  {
    RunStepOk(At(y, steps, n - 1), steps[n - 1], s);
  }

  lemma RunStepOk(y: System, step: Step, s: string)
    requires OkIfRunning(y, s) && KeyedByID(y.chars) && NoneOutlived(y, s) && NoneOutlived(Next(y, step), s)
    ensures OkIfRunning(Next(y, step), s)
  {
    if s in y.servers {
      StepStaysOk(y, step, s);
    } else if s in Next(y, step).servers {
      StartsOk(y, step, s);
    }
  }

  lemma OkIsCoherent(y: System, s: string)
    requires s in y.servers && !Stopping(y.servers[s]) && OkIfRunning(y, s) && NoneOutlived(y, s)
    ensures Coherent(y, s)
  {
    var g := y.servers[s];
    forall p | p in g.game.sessions
      ensures CharacterLocks.Holder(y.redis, g.game.sessions[p].characterID) == Some(s)
    {
      assert SessionOk(y.redis, s, g, p);
    }
    assert forall p | p in g.game.sessions :: SessionOk(y.redis, s, g, p);
  }

  /** Coherence: in every run in which no session of server s ever outlives its lease, and until s shuts
      down, its sessions' characters are pairwise distinct, each session's entity is in its world, and each
      session's lock is its own; through joins and rejoins, disconnects, failed releases, inputs and ticks. */
  lemma ServerStaysCoherent(y: System, steps: seq<Step>, n: nat, s: string)
    requires Init(y) && n <= |steps|
    requires forall m | 0 <= m <= n :: NoneOutlivedAt(y, steps, m, s)
    requires s in At(y, steps, n).servers && !Stopping(At(y, steps, n).servers[s])
    ensures Coherent(At(y, steps, n), s)
    ensures DistinctEntities(At(y, steps, n).servers[s].game.sessions)
  {
    AlwaysOk(y, steps, n, s);
    assert NoneOutlivedAt(y, steps, n, s);
    OkIsCoherent(At(y, steps, n), s);
    CoherentIsDistinct(At(y, steps, n), s);
  }

  /** Across servers: while no session of s or s' outlives its lease, two sessions that play the same character
      are one session of one server. */
  lemma CharacterPlayedOnce(y: System, steps: seq<Step>, n: nat, s: string, s': string, p: Peer, p': Peer)
    requires Init(y) && n <= |steps|
    requires forall m | 0 <= m <= n :: NoneOutlivedAt(y, steps, m, s) && NoneOutlivedAt(y, steps, m, s')
    requires var servers := At(y, steps, n).servers;
             && s in servers && s' in servers && !Stopping(servers[s]) && !Stopping(servers[s'])
             && p in servers[s].game.sessions && p' in servers[s'].game.sessions
             && servers[s].game.sessions[p].characterID == servers[s'].game.sessions[p'].characterID
    ensures s == s' && p == p'
  {
    ServerStaysCoherent(y, steps, n, s);
    ServerStaysCoherent(y, steps, n, s');
  }
}
