/** What becomes possible once a lease has run out, since nothing renews it: runs from the initial state in
    which a character is played twice. */
module Lapse {
  import opened Wrappers
  import opened Redis
  import opened Keys
  import opened Domain
  import opened GameState
  import opened Handoff
  import JoinTokens
  import CharacterLocks
  import Coherence
  import DrainOrder

  ghost predicate Reaches(y: System, y': System) {
    exists steps: seq<Step> :: At(y, steps, |steps|) == y'
  }

  lemma {:induction false} SamePrefix(y: System, steps: seq<Step>, step: Step, n: nat)
    requires n <= |steps|
    ensures At(y, steps + [step], n) == At(y, steps, n)
  {
    if n > 0 {
      SamePrefix(y, steps, step, n - 1);
    }
  }

  lemma ReachesSelf(y: System)
    ensures Reaches(y, y)
  {
    assert At(y, [], 0) == y;
  }

  lemma OneStepMore(y: System, y': System, step: Step)
    requires Reaches(y, y')
    ensures Reaches(y, Next(y', step))
  {
    var steps :| At(y, steps, |steps|) == y';
    SamePrefix(y, steps, step, |steps|);
    assert At(y, steps + [step], |steps + [step]|) == Next(y', step);
  }

  // ---- One join, start to end ----

  function Joining(y: System, peer: Peer, t: JoinTokens.JoinToken): System {
    var consumed := ConsumeStep(IssueStep(y, t), t.serverID, peer, t.token, t.characterID, true, true);
    LoadStep(AcquireStep(consumed, t.serverID, true), t.serverID, true)
  }

  lemma ReachesIssue(y: System, y': System, t: JoinTokens.JoinToken)
    requires Reaches(y, y')
    ensures Reaches(y, IssueStep(y', t))
  {
    OneStepMore(y, y', Issue(t));
  }

  lemma ReachesConsume(y: System, y': System, peer: Peer, t: JoinTokens.JoinToken)
    requires Reaches(y, y')
    ensures Reaches(y, ConsumeStep(y', t.serverID, peer, t.token, t.characterID, true, true))
  {
    OneStepMore(y, y', Consume(t.serverID, peer, t.token, t.characterID, true, true));
  }

  lemma ReachesAcquire(y: System, y': System, s: string)
    requires Reaches(y, y')
    ensures Reaches(y, AcquireStep(y', s, true))
  {
    OneStepMore(y, y', Acquire(s, true));
  }

  lemma ReachesLoad(y: System, y': System, s: string)
    requires Reaches(y, y')
    ensures Reaches(y, LoadStep(y', s, true))
  {
    OneStepMore(y, y', Load(s, true));
  }

  lemma ReachesJoining(y: System, y': System, peer: Peer, t: JoinTokens.JoinToken)
    requires Reaches(y, y')
    ensures Reaches(y, Joining(y', peer, t))
  {
    ReachesIssue(y, y', t);
    ReachesConsume(y, IssueStep(y', t), peer, t);
    var consumed := ConsumeStep(IssueStep(y', t), t.serverID, peer, t.token, t.characterID, true, true);
    ReachesAcquire(y, consumed, t.serverID);
    ReachesLoad(y, AcquireStep(consumed, t.serverID, true), t.serverID);
  }

  predicate Ready(y: System, t: JoinTokens.JoinToken) {
    && InPhase(y, t.serverID, true) && CanIssue(y, t)
    && !Live(y.redis, CharacterLock(t.characterID))
  }

  /** The system after the token was issued and consumed. */
  lemma IssuedAndConsumed(y: System, peer: Peer, t: JoinTokens.JoinToken)
    requires Ready(y, t)
    ensures var y' := ConsumeStep(IssueStep(y, t), t.serverID, peer, t.token, t.characterID, true, true);
            && y'.redis.now == y.redis.now && y'.chars == y.chars && y'.issued == y.issued + {t.token}
            && y'.joinTokenTTL == y.joinTokenTTL
            && y'.servers == y.servers[t.serverID := y.servers[t.serverID].(phase := Consumed(peer, t, y.redis.now))]
            && !Live(y'.redis, CharacterLock(t.characterID))
  {
    assert JoinTokens.FromPayload(t.token, JoinTokens.Payload(t)) == t;
  }

  lemma LockedAndLoaded(y: System, peer: Peer, t: JoinTokens.JoinToken, at: nat)
    requires t.serverID in y.servers && y.servers[t.serverID].phase == Consumed(peer, t, at)
    requires !Live(y.redis, CharacterLock(t.characterID)) && t.characterID in y.chars
    ensures var y', g := LoadStep(AcquireStep(y, t.serverID, true), t.serverID, true), y.servers[t.serverID];
            && y'.redis.now == y.redis.now && y'.chars == y.chars && y'.issued == y.issued && y'.joinTokenTTL == y.joinTokenTTL
            && CharacterLock(t.characterID) in y'.redis.db
            && y'.redis.db[CharacterLock(t.characterID)].expiry == Some(y.redis.now + g.lockTTL)
            && y'.servers == y.servers[t.serverID :=
                 g.(phase := Idle, game := Enter(g.game, peer, t.userID, y.chars[t.characterID]),
                    tickets := g.tickets[peer := Ticket(t.token, at, y.redis.now + g.lockTTL)])]
  {
  }

  /** A join that meets no lock puts its player in and leaves every other server as it was. */
  lemma JoiningEnters(y: System, peer: Peer, t: JoinTokens.JoinToken)
    requires Ready(y, t)
    ensures var y', g := Joining(y, peer, t), y.servers[t.serverID];
            && y'.redis.now == y.redis.now && y'.chars == y.chars && y'.issued == y.issued + {t.token} && y'.joinTokenTTL == y.joinTokenTTL
            && CharacterLock(t.characterID) in y'.redis.db
            && y'.redis.db[CharacterLock(t.characterID)].expiry == Some(y.redis.now + g.lockTTL)
            && y'.servers == y.servers[t.serverID :=
                 g.(phase := Idle, game := Enter(g.game, peer, t.userID, y.chars[t.characterID]),
                    tickets := g.tickets[peer := Ticket(t.token, y.redis.now, y.redis.now + g.lockTTL)])]
  {
    IssuedAndConsumed(y, peer, t);
    var consumed := ConsumeStep(IssueStep(y, t), t.serverID, peer, t.token, t.characterID, true, true);
    LockedAndLoaded(consumed, peer, t, y.redis.now);
  }

  // ---- Two joins, one lease apart ----

  predicate PlaysAt(y: System, s: string, p: Peer, character: string) {
    && s in y.servers && p in y.servers[s].game.sessions
    && y.servers[s].game.sessions[p].characterID == character
    && y.servers[s].game.sessions[p].entityID == EntityID(character)
    && EntityID(character) in y.servers[s].game.entities
  }

  function TokenFor(token: string, character: string, user: string, s: string, expiresAt: nat): JoinTokens.JoinToken {
    JoinTokens.JoinToken(token, user, character, s, "addr", expiresAt)
  }

  /** Both servers up, nothing else. */
  lemma Started(y: System, s: string, s': string, lockTTL: nat, interval: nat) returns (y': System)
    requires Init(y)
    ensures Reaches(y, y') && y'.redis == y.redis && y'.chars == y.chars && y'.issued == {} && y'.joinTokenTTL == y.joinTokenTTL
    ensures s in y'.servers && s' in y'.servers
    ensures forall x | x in y'.servers :: y'.servers[x] == GameServer(lockTTL, interval, Idle, Game(map[], map[], 0), y.redis.now, map[])
  {
    ReachesSelf(y);
    OneStepMore(y, y, Start(s, lockTTL, interval));
    var one := Next(y, Start(s, lockTTL, interval));
    OneStepMore(y, one, Start(s', lockTTL, interval));
    y' := Next(one, Start(s', lockTTL, interval));
  }

  /** One join done and one time to live gone by. */
  predicate LeaseOver(y: System, s: string, s': string, p: Peer, character: string, user: string, token: string) {
    && character in y.chars && y.chars[character].id == character && y.chars[character].userID == user
    && y.issued == {token} && y.joinTokenTTL > 0
    && !Live(y.redis, CharacterLock(character))
    && s' in y.servers && y.servers[s'].phase.Idle?
    && PlaysAt(y, s, p, character) && y.servers[s].phase.Idle?
    && p in y.servers[s].tickets && y.servers[s].tickets[p].leaseEnd <= y.redis.now
  }

  lemma FirstJoin(y: System, s: string, s': string, p: Peer, character: string, token: string, lockTTL: nat, interval: nat)
    requires KeyedByID(y.chars) && character in y.chars && y.issued == {} && y.joinTokenTTL > 0
    requires CharacterLock(character) !in y.redis.db
    requires s in y.servers && s' in y.servers
    requires forall x | x in y.servers :: y.servers[x] == GameServer(lockTTL, interval, Idle, Game(map[], map[], 0), y.redis.now, map[])
    ensures var t := TokenFor(token, character, y.chars[character].userID, s, y.redis.now + y.joinTokenTTL);
            LeaseOver(Next(Joining(y, p, t), Wait(lockTTL)), s, s', p, character, y.chars[character].userID, token)
  {
    var t := TokenFor(token, character, y.chars[character].userID, s, y.redis.now + y.joinTokenTTL);
    JoiningEnters(y, p, t);
  }

  lemma SecondJoin(y: System, s: string, s': string, p: Peer, p': Peer, character: string, user: string, token: string, token': string)
    requires LeaseOver(y, s, s', p, character, user, token) && p != p' && token != token'
    ensures var y' := Joining(y, p', TokenFor(token', character, user, s', y.redis.now + y.joinTokenTTL));
            && PlaysAt(y', s, p, character) && PlaysAt(y', s', p', character)
            && y'.servers[s].phase.Idle? && y'.servers[s'].phase.Idle? && !Coherence.NoneOutlived(y', s)
  {
    var t := TokenFor(token', character, user, s', y.redis.now + y.joinTokenTTL);
    JoiningEnters(y, p', t);
    var y' := Joining(y, p', t);
    assert p in y'.servers[s].tickets && y'.servers[s].tickets[p].leaseEnd <= y'.redis.now;
  }

  /** From any initial state, for any two servers, equal or not, and any lock time to live: after a first join
      and one time to live, a second join of the same character succeeds, and the character is played twice.
      The first session has then outlived its lease. */
  lemma SecondJoinAfterLease(y: System, s: string, s': string, p: Peer, p': Peer, character: string, token: string, token': string, lockTTL: nat, interval: nat)
    returns (y': System)
    requires Init(y) && character in y.chars && y.joinTokenTTL > 0 && p != p' && token != token'
    ensures Reaches(y, y') && PlaysAt(y', s, p, character) && PlaysAt(y', s', p', character)
    ensures y'.servers[s].phase.Idle? && y'.servers[s'].phase.Idle? && !Coherence.NoneOutlived(y', s)
  {
    var user := y.chars[character].userID;
    var up := Started(y, s, s', lockTTL, interval);
    assert CharacterLock(character).CharacterLock?;
    FirstJoin(up, s, s', p, character, token, lockTTL, interval);
    var t := TokenFor(token, character, user, s, up.redis.now + up.joinTokenTTL);
    ReachesJoining(y, up, p, t);
    OneStepMore(y, Joining(up, p, t), Wait(lockTTL));
    var later := Next(Joining(up, p, t), Wait(lockTTL));
    SecondJoin(later, s, s', p, p', character, user, token, token');
    ReachesJoining(y, later, p', TokenFor(token', character, user, s', later.redis.now + later.joinTokenTTL));
    y' := Joining(later, p', TokenFor(token', character, user, s', later.redis.now + later.joinTokenTTL));
  }

  // ---- Two sessions of one entity ----

  function East(): Packet {
    Packet(Some(Vec2(1.0, 0.0)))
  }

  function West(): Packet {
    Packet(Some(Vec2(-1.0, 0.0)))
  }

  lemma PulledApart(g: Game, p: Peer, p': Peer, id: string, speed: real)
    requires p != p' && p in g.sessions && p' in g.sessions && id in g.entities && speed > 0.0
    requires g.sessions[p].entityID == id && g.sessions[p'].entityID == id
    ensures var g' := GameState.Receive(GameState.Receive(g, p, East()), p', West());
            !DrainOrder.OrderIrrelevant(g'.entities, g'.sessions, speed)
  {
    var g' := GameState.Receive(GameState.Receive(g, p, East()), p', West());
    assert DrainOrder.Moves(g'.entities, g'.sessions, p) && DrainOrder.MovesOn(g'.entities, g'.sessions, p', id);
    assert DrainOrder.Pull(g'.entities, g'.sessions, p, speed).x == speed;
    assert DrainOrder.Pull(g'.entities, g'.sessions, p', speed).x == -speed;
    DrainOrder.OrderIrrelevantIff(g'.entities, g'.sessions, speed);
  }

  lemma ReachesReceive(y: System, y': System, s: string, peer: Peer, packet: Packet)
    requires Reaches(y, y') && s in y'.servers && y'.servers[s].phase.Idle?
    ensures Reaches(y, With(y', s, y'.servers[s].(game := GameState.Receive(y'.servers[s].game, peer, packet))))
  {
    OneStepMore(y, y', Step.Receive(s, peer, packet));
  }

  /** So a run also reaches a server whose next tick depends on the order in which the map yields its sessions. */
  lemma OrderMattersAfterLease(y: System, s: string, p: Peer, p': Peer, character: string, token: string, token': string, lockTTL: nat, interval: nat, speed: real)
    returns (y': System)
    requires Init(y) && character in y.chars && y.joinTokenTTL > 0 && p != p' && token != token' && speed > 0.0
    ensures Reaches(y, y') && s in y'.servers
    ensures !DrainOrder.OrderIrrelevant(y'.servers[s].game.entities, y'.servers[s].game.sessions, speed)
  {
    var both := SecondJoinAfterLease(y, s, s, p, p', character, token, token', lockTTL, interval);
    PulledApart(both.servers[s].game, p, p', EntityID(character), speed);
    ReachesReceive(y, both, s, p, East());
    var one := With(both, s, both.servers[s].(game := GameState.Receive(both.servers[s].game, p, East())));
    ReachesReceive(y, one, s, p', West());
    y' := With(one, s, one.servers[s].(game := GameState.Receive(one.servers[s].game, p', West())));
  }
}
