/** The join handler is the handoff protocol's consume, acquire, load and release steps run back to back,
    and so is the disconnect; what the protocol guarantees under interleaving covers the handlers. */
module JoinPhases {
  import opened Wrappers
  import opened Redis
  import opened Validate
  import opened Domain
  import opened GameState
  import opened Join
  import Keys
  import CharacterLocks
  import JoinTokens
  import Handoff
  import GameService
  import opened Base64
  import Shutdown

  /** Server s as the protocol sees it: up, idle and configured as c. */
  predicate Idles(y: Handoff.System, c: Config) {
    && c.serverID in y.servers && y.servers[c.serverID].phase.Idle?
    && y.servers[c.serverID].lockTTL == c.lockTTL
  }

  /** The three steps after consuming. */
  function ThreeSteps(y: Handoff.System, s: string, up: Reach): Handoff.System {
    Handoff.ReleaseStep(Handoff.LoadStep(Handoff.AcquireStep(y, s, up.acquire), s, up.load), s, up.release)
  }

  /** Lock, load and release from the state in which a token has been consumed. */
  lemma AdmitIsPhases(y: Handoff.System, s: string, peer: Peer, t: JoinTokens.JoinToken, at: nat, up: Reach)
    requires s in y.servers && y.servers[s].phase == Handoff.Consumed(peer, t, at)
    ensures var g := y.servers[s];
            var after := ThreeSteps(y, s, up);
            var r := AdmitNamed(y.redis, g.game, y.chars, peer, t, up, t.characterID, s, g.lockTTL);
            && s in after.servers && after.servers[s].phase.Idle? && after.servers[s].lockTTL == g.lockTTL
            && after.redis == r.redis && after.servers[s].game == r.game
  {
  }

  /** Whether the stored document reads back as a token. */
  predicate ReadsBack(st: State, token: string) {
    match Get(st, Keys.JoinToken(token))
    case Some(TokenDoc(p)) => JoinTokens.ValidPayload(p)
    case _ => false
  }

  /** Issued tokens name their character as validation leaves it. */
  predicate NormalizedInside(st: State, token: string) {
    match Get(st, Keys.JoinToken(token))
    case Some(TokenDoc(p)) => JoinTokens.ValidPayload(p) ==> Normalized(p.characterID)
    case _ => true
  }

  lemma ConsumeIsStep(y: Handoff.System, s: string, raw: string, character: string)
    requires RequiredID(raw).Ok?
    ensures var token := Name(raw);
            var (st', t) := JoinTokens.ConsumeEffect(y.redis, raw, true);
            && st' == JoinTokens.TakeToken(y.redis, token).0
            && Handoff.Accepted(y, s, token, character, ReadsBack(y.redis, token))
            == (if t.Ok? && t.value.characterID == character && t.value.serverID == s then Some(t.value) else None)
            && (t.Ok? && NormalizedInside(y.redis, token) ==> Normalized(t.value.characterID))
  {
  }

  lemma NormalizedName(id: string)
    requires Normalized(id)
    ensures RequiredID(id).Ok? && Name(id) == id
  {
  }

  lemma NoTokenNoStep(st: State, g: Game, chars: Characters, c: Config, peer: Peer, r: Request, up: Reach)
    requires RequiredID(r.token).Err? || !up.consume
    ensures HandleJoin(st, g, chars, c, peer, Some(r), up) == Reply(st, g, TokenRejected)
  {
  }

  lemma IdleStays(y: Handoff.System, s: string, up: Reach)
    requires s in y.servers && y.servers[s].phase.Idle?
    ensures ThreeSteps(y, s, up) == y
  {
  }

  /** The token the handler goes on with after its three checks. */
  function Passed(st: State, c: Config, r: Request): Option<JoinTokens.JoinToken> {
    match CheckToken(st, c, r, true).1
    case Pass(t) => Some(t)
    case Refuse(_) => None
  }

  lemma PassedDecides(st: State, g: Game, chars: Characters, c: Config, peer: Peer, r: Request, up: Reach)
    requires up.consume
    ensures var st', reply := JoinTokens.ConsumeEffect(st, r.token, true).0, HandleJoin(st, g, chars, c, peer, Some(r), up);
            match Passed(st, c, r)
            case Some(t) => reply == Admit(st', g, chars, c, peer, t, up)
            case None => reply.redis == st' && reply.game == g
  {
  }

  /** What a consume step does, given what it accepts. */
  lemma ConsumeByAccepted(y: Handoff.System, s: string, peer: Peer, token: string, character: string, valid: bool, accepted: Option<JoinTokens.JoinToken>)
    requires s in y.servers && y.servers[s].phase.Idle?
    requires Handoff.Accepted(y, s, token, character, valid) == accepted
    ensures var after := Handoff.ConsumeStep(y, s, peer, token, character, true, valid);
            && s in after.servers && after.chars == y.chars
            && after.redis == JoinTokens.TakeToken(y.redis, token).0
            && after.servers[s] == if accepted.Some? then y.servers[s].(phase := Handoff.Consumed(peer, accepted.value, y.redis.now))
                                   else y.servers[s]
  {
  }

  lemma PassedIsAccepted(y: Handoff.System, c: Config, peer: Peer, r: Request)
    requires Idles(y, c) && RequiredID(r.token).Ok?
    ensures var s, token := c.serverID, Name(r.token);
            var consumed := Handoff.ConsumeStep(y, s, peer, token, r.characterID, true, ReadsBack(y.redis, token));
            && s in consumed.servers && consumed.chars == y.chars
            && consumed.redis == JoinTokens.ConsumeEffect(y.redis, r.token, true).0
            && var passed := Passed(y.redis, c, r);
               consumed.servers[s] == if passed.Some? then y.servers[s].(phase := Handoff.Consumed(peer, passed.value, y.redis.now))
                                      else y.servers[s]
  {
    ConsumeIsStep(y, c.serverID, r.token, r.characterID);
    ConsumeByAccepted(y, c.serverID, peer, Name(r.token), r.characterID, ReadsBack(y.redis, Name(r.token)), Passed(y.redis, c, r));
  }

  lemma PassedIsNormalized(y: Handoff.System, c: Config, r: Request)
    requires RequiredID(r.token).Ok? && NormalizedInside(y.redis, Name(r.token)) && Passed(y.redis, c, r).Some?
    ensures Normalized(Passed(y.redis, c, r).value.characterID)
  {
    ConsumeIsStep(y, c.serverID, r.token, r.characterID);
  }

  /** Admit with normalized identifiers works on exactly those. */
  lemma AdmitNormalized(st: State, g: Game, chars: Characters, c: Config, peer: Peer, t: JoinTokens.JoinToken, up: Reach)
    requires Normalized(t.characterID) && Normalized(c.serverID) && c.lockTTL > 0
    ensures Admit(st, g, chars, c, peer, t, up) == AdmitNamed(st, g, chars, peer, t, up, t.characterID, c.serverID, c.lockTTL)
  {
  }

  /** The handler on a well-formed token is the protocol's four steps in a row. */
  lemma HandlerIsPhases(y: Handoff.System, c: Config, peer: Peer, r: Request, up: Reach)
    requires Idles(y, c) && Normalized(c.serverID) && c.lockTTL > 0
    requires RequiredID(r.token).Ok? && NormalizedInside(y.redis, Name(r.token))
    ensures var s, token := c.serverID, Name(r.token);
            var consumed := Handoff.ConsumeStep(y, s, peer, token, r.characterID, up.consume, ReadsBack(y.redis, token));
            var after := ThreeSteps(consumed, s, up);
            var reply := HandleJoin(y.redis, y.servers[s].game, y.chars, c, peer, Some(r), up);
            && Idles(after, c)
            && after.redis == reply.redis && after.servers[s].game == reply.game
  {
    var s, token, g := c.serverID, Name(r.token), y.servers[c.serverID].game;
    var consumed := Handoff.ConsumeStep(y, s, peer, token, r.characterID, up.consume, ReadsBack(y.redis, token));
    if !up.consume {
      NoTokenNoStep(y.redis, g, y.chars, c, peer, r, up);
      IdleStays(y, s, up);
    } else {
      PassedIsAccepted(y, c, peer, r);
      PassedDecides(y.redis, g, y.chars, c, peer, r, up);
      match Passed(y.redis, c, r)
      case None => IdleStays(consumed, s, up);
      case Some(t) =>
        PassedIsNormalized(y, c, r);
        AdmitNormalized(consumed.redis, g, y.chars, c, peer, t, up);
        AdmitIsPhases(consumed, s, peer, t, y.redis.now, up);
    }
  }

  /** A successful IssueJoinToken with a fresh token is the protocol's issue step, and the token it stores
      names its user and character as validation leaves them. */
  lemma IssueIsStep(y: Handoff.System, userID: string, characterID: string, serverID: string, order: GameService.Order,
      entropy: Option<seq<Byte>>, t: JoinTokens.JoinToken, upSelect: bool, upCreate: bool)
    requires GameService.Eligible(y.chars, userID, characterID, serverID) == Ok(order)
    requires GameService.Grants(y.redis, order, entropy, y.joinTokenTTL, upSelect, upCreate, Ok(t))
    requires t.token !in y.issued && y.joinTokenTTL > 0
    ensures Normalized(t.characterID) && Normalized(t.userID)
    ensures Handoff.IssueStep(y, t) == y.(redis := JoinTokens.PutToken(y.redis, t), issued := y.issued + {t.token})
  {
    GameService.EligibleIsNormalized(y.chars, userID, characterID, serverID, order);
    GameService.GrantedFor(y.redis, order, entropy, y.joinTokenTTL, upSelect, upCreate, t);
    OwnedIssue(y, t);
  }

  lemma OwnedIssue(y: Handoff.System, t: JoinTokens.JoinToken)
    requires t.characterID in y.chars && y.chars[t.characterID].userID == t.userID
    requires t.token !in y.issued && y.joinTokenTTL > 0 && t.expiresAt == y.redis.now + y.joinTokenTTL
    ensures Handoff.IssueStep(y, t) == y.(redis := JoinTokens.PutToken(y.redis, t), issued := y.issued + {t.token})
  {
  }

  /** Renewing a character's lock is the protocol's renew step: the operation's effect on Redis, and, exactly when
      it answers true, the later end of the lease of each session that plays the character. */
  lemma RenewIsStep(y: Handoff.System, s: string, character: string, fallback: nat)
    requires s in y.servers && y.servers[s].lockTTL > 0 && Normalized(character) && Normalized(s)
    ensures var g, y' := y.servers[s], Handoff.RenewStep(y, s, character);
            var (st', r) := CharacterLocks.RenewEffect(y.redis, character, s, g.lockTTL, fallback, true);
            && y'.redis == st' && r == Ok(CharacterLocks.Holder(y.redis, character) == Some(s))
            && (r == Ok(false) ==> y' == y)
            && (r == Ok(true) ==> y'.servers == y.servers[s := g.(tickets := Handoff.Extended(g, character, y.redis.now + g.lockTTL))])
  {
    NormalizedName(character);
    NormalizedName(s);
    CharacterLocks.OperationsAreSteps(y.redis, character, s, character, s, y.servers[s].lockTTL, fallback, true);
    CharacterLocks.RenewMeans(y.redis, character, s, y.servers[s].lockTTL);
  }

  /** The disconnect handler is the protocol's disconnect and release steps in a row. */
  lemma DisconnectIsPhases(y: Handoff.System, c: Config, peer: Peer, up: bool)
    requires Idles(y, c) && Normalized(c.serverID)
    requires var game := y.servers[c.serverID].game; peer in game.sessions ==> Normalized(game.sessions[peer].characterID)
    ensures var s := c.serverID;
            var after := Handoff.ReleaseStep(Handoff.DisconnectStep(y, s, peer), s, up);
            && Idles(after, c)
            && (after.redis, after.servers[s].game) == HandleDisconnect(y.redis, y.servers[s].game, c, peer, up)
  {
    var game := y.servers[c.serverID].game;
    if peer in game.sessions {
      NormalizedName(c.serverID);
      NormalizedName(game.sessions[peer].characterID);
      LockNames(game.sessions[peer].characterID, c.serverID);
    }
  }

  // ---- Shutting down ----

  lemma NormalizedRelease(st: State, character: string, owner: string, up: bool)
    requires Normalized(character) && Normalized(owner)
    ensures CharacterLocks.ReleaseEffect(st, character, owner, up).0
         == if up then CharacterLocks.ReleaseLock(st, character, owner).0 else st
  {
    NormalizedName(character);
    NormalizedName(owner);
    LockNames(character, owner);
  }

  /** One release step per flag. */
  function Releases(y: Handoff.System, s: string, ups: seq<bool>): Handoff.System {
    if ups == [] then y else Handoff.ReleaseStep(Releases(y, s, ups[..|ups| - 1]), s, ups[|ups| - 1])
  }

  function Characters(sessions: map<Peer, SessionVal>, order: seq<Peer>): seq<string>
    requires forall p | p in order :: p in sessions
  {
    seq(|order|, i requires 0 <= i < |order| => sessions[order[i]].characterID)
  }

  function Flags(order: seq<Peer>, up: Peer -> bool): seq<bool> {
    seq(|order|, i requires 0 <= i < |order| => up(order[i]))
  }

  /** What is left to release after k releases. */
  function Rest(todo: seq<string>, k: nat): Handoff.Phase
    requires k <= |todo|
  {
    if k == |todo| then Handoff.Stopped else Handoff.Releasing(todo[k..], Handoff.ShuttingDown)
  }

  lemma OneReleaseMore(y: Handoff.System, s: string, todo: seq<string>, k: nat, up: bool)
    requires s in y.servers && k < |todo| && y.servers[s].phase == Rest(todo, k)
    ensures var y' := Handoff.ReleaseStep(y, s, up);
            && y'.servers == y.servers[s := y.servers[s].(phase := Rest(todo, k + 1))]
            && y'.redis == if up then CharacterLocks.ReleaseLock(y.redis, todo[k], s).0 else y.redis
  {
    assert todo[k..][1..] == todo[k + 1..];
  }

  /** The releases by name. */
  function ReleaseNamed(st: State, names: seq<string>, owner: string, ups: seq<bool>): State
    requires |names| == |ups|
  {
    if names == [] then st
    else
      var last := |names| - 1;
      var before := ReleaseNamed(st, names[..last], owner, ups[..last]);
      if ups[last] then CharacterLocks.ReleaseLock(before, names[last], owner).0 else before
  }

  lemma ReleaseNamedMore(st: State, names: seq<string>, owner: string, ups: seq<bool>, k: nat)
    requires |names| == |ups| && k < |names|
    ensures var before := ReleaseNamed(st, names[..k], owner, ups[..k]);
            var after := ReleaseNamed(st, names[..k + 1], owner, ups[..k + 1]);
            after == if ups[k] then CharacterLocks.ReleaseLock(before, names[k], owner).0 else before
  {
    assert names[..k + 1][..k] == names[..k] && ups[..k + 1][..k] == ups[..k];
  }

  lemma {:induction false} StepsReleaseNamed(y: Handoff.System, s: string, todo: seq<string>, ups: seq<bool>, k: nat)
    requires s in y.servers && 0 < |todo| == |ups| && k <= |todo| && y.servers[s].phase == Rest(todo, 0)
    ensures var y' := Releases(y, s, ups[..k]);
            && y'.servers == y.servers[s := y.servers[s].(phase := Rest(todo, k))]
            && y'.redis == ReleaseNamed(y.redis, todo[..k], s, ups[..k])
  {
    if k == 0 {
      assert y.servers[s := y.servers[s]] == y.servers;
    } else {
      StepsReleaseNamed(y, s, todo, ups, k - 1);
      assert ups[..k][..k - 1] == ups[..k - 1];
      OneReleaseMore(Releases(y, s, ups[..k - 1]), s, todo, k - 1, ups[k - 1]);
      ReleaseNamedMore(y.redis, todo, s, ups, k - 1);
    }
  }

  lemma NormalizedOne(st: State, sessions: map<Peer, SessionVal>, p: Peer, owner: string, up: Peer -> bool)
    requires Normalized(owner) && p in sessions && Normalized(sessions[p].characterID)
    ensures Shutdown.ReleaseOne(st, sessions, p, owner, up)
         == if up(p) then CharacterLocks.ReleaseLock(st, sessions[p].characterID, owner).0 else st
  {
    NormalizedRelease(st, sessions[p].characterID, owner, up(p));
  }

  lemma {:induction false} LoopReleasesNamed(st: State, sessions: map<Peer, SessionVal>, order: seq<Peer>, owner: string, up: Peer -> bool, k: nat)
    requires Normalized(owner) && k <= |order|
    requires forall p | p in order :: p in sessions && Normalized(sessions[p].characterID)
    ensures Shutdown.ReleaseAll(st, sessions, order[..k], owner, up)
         == ReleaseNamed(st, Characters(sessions, order)[..k], owner, Flags(order, up)[..k])
  {
    if k > 0 {
      LoopReleasesNamed(st, sessions, order, owner, up, k - 1);
      Shutdown.ReleaseOneMore(st, sessions, order, k - 1, owner, up);
      NormalizedOne(Shutdown.ReleaseAll(st, sessions, order[..k - 1], owner, up), sessions, order[k - 1], owner, up);
      ReleaseNamedMore(st, Characters(sessions, order), owner, Flags(order, up), k - 1);
    }
  }

  /** With nobody connected a single release step, of nothing, stops the server. */
  lemma EmptyShutdown(y: Handoff.System, c: Config, up: bool)
    requires Idles(y, c) && y.servers[c.serverID].game.sessions == map[]
    ensures var s, after := c.serverID, Handoff.ReleaseStep(Handoff.ShutdownStep(y, c.serverID, []), c.serverID, up);
            s in after.servers && after.servers[s].phase.Stopped? && after.redis == y.redis
  {
  }

  /** The release loop of a shutdown is the protocol's shutdown step followed by one release step per session,
      in the order the map yields them, after which the server has stopped. */
  lemma ShutdownIsPhases(y: Handoff.System, c: Config, order: seq<Peer>, up: Peer -> bool)
    requires Idles(y, c) && Normalized(c.serverID) && order != []
    requires Enumerates(order, y.servers[c.serverID].game.sessions)
    requires forall p | p in y.servers[c.serverID].game.sessions :: Normalized(y.servers[c.serverID].game.sessions[p].characterID)
    ensures var s, sessions := c.serverID, y.servers[c.serverID].game.sessions;
            var after := Releases(Handoff.ShutdownStep(y, s, order), s, Flags(order, up));
            && s in after.servers && after.servers[s].phase.Stopped? && after.servers[s].game == y.servers[s].game
            && after.redis == Shutdown.ReleaseAll(y.redis, sessions, order, s, up)
  {
    var s, sessions := c.serverID, y.servers[c.serverID].game.sessions;
    var down := Handoff.ShutdownStep(y, s, order);
    assert Characters(sessions, order)[0..] == Characters(sessions, order);
    assert down.servers[s].phase == Rest(Characters(sessions, order), 0);
    StepsReleaseNamed(down, s, Characters(sessions, order), Flags(order, up), |order|);
    LoopReleasesNamed(y.redis, sessions, order, s, up, |order|);
    assert Flags(order, up)[..|order|] == Flags(order, up) && order[..|order|] == order;
  }
}
