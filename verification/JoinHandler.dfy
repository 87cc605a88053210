/** The join and disconnect handlers over the stores, the world and the sessions: internal/game/join.go. */
module JoinHandler {
  import opened Wrappers
  import opened Redis
  import opened Domain
  import opened GameState
  import opened World
  import opened Sessions
  import opened Join
  import CharacterLocks
  import JoinTokens

  class JoinHandler {
    const client: Client
    const tokens: JoinTokens.Store
    const locks: CharacterLocks.Store
    const world: World
    const sessions: SessionManager
    const lockTTL: nat
    const serverID: string

    ghost predicate Valid()
      reads this, world, sessions
    {
      tokens.client == client && locks.client == client && world.Valid() && sessions.Valid()
    }

    ghost function Game(): Game
      requires Valid()
      reads this, world, world.Repr, sessions, sessions.Repr
    {
      GameState.Game(world.Contents(), sessions.Contents(), world.tick)
    }

    /** Only new objects came under the world and the sessions. */
    twostate predicate Grown(entities: set<Entity>, registered: set<Session>)
      reads world, sessions
    {
      && (forall e | e in world.Repr :: e in entities || fresh(e))
      && (forall e | e in sessions.Repr :: e in registered || fresh(e))
    }

    ghost function Config(): Config {
      Join.Config(serverID, lockTTL, locks.lockTTL)
    }

    constructor (client: Client, tokens: JoinTokens.Store, locks: CharacterLocks.Store, world: World, sessions: SessionManager, lockTTL: nat, serverID: string)
      requires tokens.client == client && locks.client == client && world.Valid() && sessions.Valid()
      ensures Valid() && this.client == client && this.world == world && this.sessions == sessions
      ensures Config() == Join.Config(serverID, lockTTL, locks.lockTTL)
    {
      this.client := client;
      this.tokens := tokens;
      this.locks := locks;
      this.world := world;
      this.sessions := sessions;
      this.lockTTL := lockTTL;
      this.serverID := serverID;
    }

    /** Step 4: the entity. */
    method AddPlayer(character: Character)
      requires Valid()
      modifies world`entities, world`Repr
      ensures Valid() && Game() == old(Game()).(entities := old(world.Contents())[EntityID(character.id) := NewEntity(character)])
      ensures fresh(world.Repr - old(world.Repr))
    {
      var entityID := "char_" + character.id;
      var entity := new Entity(entityID, Player, character.position);
      world.AddEntity(entity);
    }

    /** Step 5: the session. */
    method Register(peer: Peer, userID: string, character: Character)
      requires Valid()
      modifies sessions
      ensures Valid() && Game() == old(Game()).(sessions := old(sessions.Contents())[peer := SessionVal(userID, character.id, EntityID(character.id), None)])
      ensures fresh(sessions.Repr - old(sessions.Repr))
    {
      var entityID := "char_" + character.id;
      var session := new Session(peer, userID, character.id, entityID);
      sessions.Add(session);
    }

    method ReleaseLock(characterID: string, up: bool)
      requires Valid()
      modifies client`db
      ensures Valid() && Game() == old(Game())
      ensures client.Space() == CharacterLocks.ReleaseEffect(old(client.Space()), characterID, serverID, up).0
    {
      var _ := locks.Release(characterID, serverID, up);
    }

    /** Steps 3 to 5, with the lock taken. */
    method LoadPlayer(peer: Peer, token: JoinTokens.JoinToken, chars: Characters, up: Reach) returns (outcome: Outcome)
      requires Valid()
      modifies client`db, world`entities, world`Repr, sessions
      ensures Valid() && Grown(old(world.Repr), old(sessions.Repr))
      ensures Reply(client.Space(), Game(), outcome) == LoadAndEnter(old(client.Space()), old(Game()), chars, Config(), peer, token, up)
    {
      if up.load && token.characterID in chars {
        AddPlayer(chars[token.characterID]);
        Register(peer, token.userID, chars[token.characterID]);
        outcome := Outcome.Joined;
      } else {
        ReleaseLock(token.characterID, up.release);
        outcome := LoadFailed;
      }
    }

    /** Steps 2 to 5, for a token that passed its checks. */
    method AdmitPlayer(peer: Peer, token: JoinTokens.JoinToken, chars: Characters, up: Reach) returns (outcome: Outcome)
      requires Valid()
      modifies client`db, world`entities, world`Repr, sessions
      ensures Valid() && Grown(old(world.Repr), old(sessions.Repr))
      ensures Reply(client.Space(), Game(), outcome) == Admit(old(client.Space()), old(Game()), chars, Config(), peer, token, up)
    {
      var locked := locks.Acquire(token.characterID, serverID, lockTTL, up.acquire);
      assert Game() == old(Game());
      if locked.Err? {
        outcome := LockError;
      } else if !locked.value {
        outcome := AlreadyLocked;
      } else {
        outcome := LoadPlayer(peer, token, chars, up);
      }
    }

    /** Step 1: consume the token and compare it with the request and this server. */
    method CheckToken(r: Request, up: bool) returns (verdict: Verdict)
      requires Valid()
      modifies client`db
      ensures (client.Space(), verdict) == Join.CheckToken(old(client.Space()), Config(), r, up)
    {
      var token := tokens.ConsumeJoinToken(r.token, up);
      if token.Err? {
        return Refuse(TokenRejected);
      }
      if token.value.characterID != r.characterID {
        return Refuse(CharacterMismatch);
      }
      if token.value.serverID != serverID {
        return Refuse(ServerMismatch);
      }
      verdict := Pass(token.value);
    }

    method HandleJoinRequest(peer: Peer, req: Option<Request>, chars: Characters, up: Reach) returns (outcome: Outcome)
      requires Valid()
      modifies client`db, world`entities, world`Repr, sessions
      ensures Valid() && Grown(old(world.Repr), old(sessions.Repr))
      ensures Reply(client.Space(), Game(), outcome) == HandleJoin(old(client.Space()), old(Game()), chars, Config(), peer, req, up)
    {
      if req.None? {
        outcome := BadRequest;
      } else {
        ghost var st, g := client.Space(), Game();
        var verdict := CheckToken(req.value, up.consume);
        assert Game() == g;
        if verdict.Refuse? {
          outcome := verdict.outcome;
        } else {
          ghost var st' := client.Space();
          outcome := AdmitPlayer(peer, verdict.token, chars, up);
          PassedIsAdmitted(st, st', g, chars, Config(), peer, req.value, up, verdict.token);
        }
      }
    }

    method RemoveEntity(id: string)
      requires Valid()
      modifies world`entities
      ensures Valid() && Game() == old(Game()).(entities := old(world.Contents()) - {id})
    {
      var entity := world.GetEntity(id);
      if entity != null {
        world.RemoveEntity(entity);
      } else {
        assert world.Contents() - {id} == world.Contents();
      }
    }

    /** The peer's session and its entity go. */
    method Drop(peer: Peer) returns (session: Session?)
      requires Valid()
      modifies world`entities, sessions`sessions
      ensures Valid() && Game() == Leave(old(Game()), peer)
      ensures session == null <==> peer !in old(Game()).sessions
      ensures session != null ==> session.characterID == old(Game()).sessions[peer].characterID
    {
      session := sessions.Remove(peer);
      if session == null {
        assert old(sessions.Contents()) - {peer} == old(sessions.Contents());
        return;
      }
      assert session.Value() == old(sessions.Contents())[peer];
      assert world.Contents() == old(world.Contents());
      if session.entityID != "" {
        RemoveEntity(session.entityID);
      }
    }

    method HandleDisconnect(peer: Peer, up: bool)
      requires Valid()
      modifies client`db, world`entities, sessions`sessions
      ensures Valid()
      ensures (client.Space(), Game()) == Join.HandleDisconnect(old(client.Space()), old(Game()), Config(), peer, up)
    {
      var session := Drop(peer);
      if session != null {
        ReleaseLock(session.characterID, up);
      }
    }
  }
}
