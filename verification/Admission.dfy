/** A join token from the API's answer to the game server it names (internal/service/game.go, internal/game/join.go). */
module Admission {
  import opened Wrappers
  import opened Redis
  import opened Validate
  import opened Base64
  import Text
  import Handoff
  import GameService
  import GameServers
  import JoinTokens
  import Registry
  import TokenLife
  import Join

  lemma OneLeastListed(st: State, id: string, id': string)
    requires GameService.LeastListed(st, id) && GameService.LeastListed(st, id')
    ensures id == id'
  {
    Text.LessTotal(id, id');
  }

  /** Server `s` is the one a call with this server ID asks for: by name, or, when blank, the least listed. */
  ghost predicate AsksFor(st: State, serverID: string, s: string) {
    if Text.AllSpace(serverID) then GameService.LeastListed(st, s) else RequiredID(serverID) == Ok(s)
  }

  /** The issue step is a successful IssueJoinToken of this user, for this character and server ID. */
  ghost predicate IssuedBy(y: Handoff.System, userID: string, characterID: string, serverID: string, order: GameService.Order,
      entropy: Option<seq<Byte>>, upSelect: bool, upCreate: bool, t: JoinTokens.JoinToken) {
    && GameService.Drawn(entropy) && y.joinTokenTTL > 0 && t.token !in y.issued
    && GameService.Eligible(y.chars, userID, characterID, serverID) == Ok(order)
    && GameService.Grants(y.redis, order, entropy, y.joinTokenTTL, upSelect, upCreate, Ok(t))
  }

  lemma IssuedIsSound(y: Handoff.System, userID: string, characterID: string, serverID: string, order: GameService.Order,
      entropy: Option<seq<Byte>>, upSelect: bool, upCreate: bool, t: JoinTokens.JoinToken)
    requires IssuedBy(y, userID, characterID, serverID, order, entropy, upSelect, upCreate, t)
    ensures Handoff.CanIssue(y, t) && Normalized(t.token) && JoinTokens.ValidPayload(JoinTokens.Payload(t))
  {
    GameService.EligibleIsNormalized(y.chars, userID, characterID, serverID, order);
    GameService.GrantedFor(y.redis, order, entropy, y.joinTokenTTL, upSelect, upCreate, t);
    var server := GameService.IssuedNamesServer(y.redis, order, entropy, y.joinTokenTTL, upSelect, upCreate, t);
    PayloadOfIssued(t);
  }

  lemma PayloadOfIssued(t: JoinTokens.JoinToken)
    requires Normalized(t.userID) && Normalized(t.characterID) && RequiredID(t.serverID).Ok? && ServerAddress(t.serverAddr).Ok?
    ensures JoinTokens.ValidPayload(JoinTokens.Payload(t))
  {
  }

  lemma NamesTheServer(y: Handoff.System, st: State, ops: seq<Registry.Op>, serverTTL: nat, n: nat,
      userID: string, characterID: string, serverID: string, order: GameService.Order, entropy: Option<seq<Byte>>, upSelect: bool, upCreate: bool,
      t: JoinTokens.JoinToken, s: string)
    requires Registry.NoServers(st) && Registry.CallersValidate(ops) && n <= |ops| && y.redis == Registry.At(st, ops, serverTTL, n)
    requires IssuedBy(y, userID, characterID, serverID, order, entropy, upSelect, upCreate, t) && AsksFor(y.redis, serverID, s)
    ensures t.serverID == s
  {
    GameService.IssuedForServer(st, ops, serverTTL, n, y.chars, userID, characterID, serverID, order, entropy, y.joinTokenTTL, upSelect, upCreate, t);
    if Text.AllSpace(serverID) {
      OneLeastListed(y.redis, t.serverID, s);
    }
  }

  /** A token issued, with the registry in any state a run reaches, for a requested server, or for the least listed
      one when none was requested, admits its player there: at every later point of every run of the protocol,
      joining with it on that server succeeds if and only if no consume of it has reached Redis, it has not expired,
      the character exists and its lock is free. */
  lemma IssuedTokenAdmitsThere(y: Handoff.System, steps: seq<Handoff.Step>, i: nat, j: nat,
      st: State, ops: seq<Registry.Op>, serverTTL: nat, n: nat,
      userID: string, characterID: string, serverID: string, order: GameService.Order, entropy: Option<seq<Byte>>, upSelect: bool, upCreate: bool,
      t: JoinTokens.JoinToken, c: Join.Config)
    requires i < j <= |steps| && steps[i] == Handoff.Issue(t)
    requires Registry.NoServers(st) && Registry.CallersValidate(ops) && n <= |ops|
    requires Handoff.At(y, steps, i).redis == Registry.At(st, ops, serverTTL, n)
    requires IssuedBy(Handoff.At(y, steps, i), userID, characterID, serverID, order, entropy, upSelect, upCreate, t)
    requires AsksFor(Handoff.At(y, steps, i).redis, serverID, c.serverID)
    ensures var end, r := Handoff.At(y, steps, j), Join.Request(t.token, t.characterID);
            var v := Join.See(end.redis, c, r);
            Join.CanJoin(end.redis, end.chars, c, Some(r), Join.Reach(true, true, true, true), v) <==>
            && TokenLife.Untouched(y, steps, i, j, t.token) && end.redis.now < t.expiresAt
            && t.characterID in end.chars && !Live(end.redis, v.lock)
  {
    var issuing := Handoff.At(y, steps, i);
    IssuedIsSound(issuing, userID, characterID, serverID, order, entropy, upSelect, upCreate, t);
    NamesTheServer(issuing, st, ops, serverTTL, n, userID, characterID, serverID, order, entropy, upSelect, upCreate, t, c.serverID);
    TokenLife.IssuedTokenAdmits(y, steps, i, j, t, c);
  }
}
