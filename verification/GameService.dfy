/** The API side of the handoff: internal/service/game.go. */
module GameService {
  import opened Wrappers
  import opened Redis
  import opened Validate
  import opened Domain
  import opened GameServers
  import opened Registry
  import opened Base64
  import Text
  import Keys
  import Token
  import JoinTokens

  type Positive = n: nat | n > 0 witness 1

  const JOIN_TOKEN_BYTES: int := 32

  function FirstOf(listing: seq<GameServer>): Result<GameServer> {
    if listing == [] then Err(Unavailable) else Ok(listing[0])
  }

  /** What selectServer may answer: the requested server, or the first of a listing. */
  ghost predicate Selects(st: State, requested: string, up: bool, r: Result<GameServer>) {
    if requested != "" then r == GetByIDResult(st, requested, up)
    else if !up then r == Err(Unavailable)
    else
      || (exists listing, sources, found :: IsListing(st, listing, sources, found) && r == FirstOf(listing))
      || (r.Err? && exists m | m in SMembers(st, Keys.ServersIndex) :: Fails(Reader(st), m))
  }

  /** The token a successful IssueJoinToken stores. */
  function IssuedToken(token: string, userID: string, characterID: string, server: GameServer, now: nat, ttl: nat): JoinTokens.JoinToken {
    JoinTokens.JoinToken(token, userID, characterID, server.id, server.addr, now + ttl)
  }

  datatype Order = Order(userID: string, characterID: string, requested: string)

  /** Who may have a token for which character and server, before a server is looked up: well-formed
      identifiers, a character that exists, and a user who owns it; the first failing check decides. */
  function Eligible(chars: Characters, userID: string, characterID: string, serverID: string): (r: Result<Order>)
    ensures r.Ok? ==>
              && RequiredID(userID) == Ok(r.value.userID) && RequiredID(characterID) == Ok(r.value.characterID)
              && r.value.characterID in chars && chars[r.value.characterID].userID == r.value.userID
  {
    var user, character, requested := RequiredID(userID), RequiredID(characterID), OptionalGameServerID(serverID);
    if user.Err? then Err(user.error)
    else if character.Err? then Err(character.error)
    else if requested.Err? then Err(requested.error)
    else if character.value !in chars then Err(NotFound)
    else if chars[character.value].userID != user.value then Err(PermissionDenied)
    else Ok(Order(user.value, character.value, requested.value))
  }

  /** The answer to an eligible order: a selected server's error, or the token for that server, stored if
      Redis is reached. */
  ghost predicate Grants(st: State, order: Order, entropy: Option<seq<Byte>>, ttl: nat, upSelect: bool, upCreate: bool, r: Result<JoinTokens.JoinToken>) {
    exists server ::
      && Selects(st, order.requested, upSelect, server)
      && r == match server
              case Err(e) => Err(e)
              case Ok(s) => Minted(order, s, entropy, st.now, ttl, upCreate)
  }

  function Minted(order: Order, server: GameServer, entropy: Option<seq<Byte>>, now: nat, ttl: nat, upCreate: bool): Result<JoinTokens.JoinToken> {
    if entropy.None? then Err(Internal)
    else if !upCreate then Err(Unavailable)
    else Ok(IssuedToken(Encode(Url, entropy.value), order.userID, order.characterID, server, now, ttl))
  }

  /** The random source delivers the bytes asked for, or fails. */
  predicate Drawn(entropy: Option<seq<Byte>>) {
    entropy.Some? ==> |entropy.value| == JOIN_TOKEN_BYTES
  }

  class Service {
    const servers: GameServers.Store
    const tokens: JoinTokens.Store
    const joinTokenTTL: Positive

    constructor (servers: GameServers.Store, tokens: JoinTokens.Store, joinTokenTTL: Positive)
      ensures this.servers == servers && this.tokens == tokens && this.joinTokenTTL == joinTokenTTL
    {
      this.servers := servers;
      this.tokens := tokens;
      this.joinTokenTTL := joinTokenTTL;
    }

    method SelectServer(requested: string, up: bool) returns (r: Result<GameServer>)
      ensures Selects(servers.client.Space(), requested, up, r)
    {
      if requested != "" {
        r := servers.GetGameServerByID(requested, up);
        return;
      }
      var listing, sources, found := servers.ListGameServers(up);
      if listing.Err? {
        return Err(listing.error);
      }
      if |listing.value| == 0 {
        r := Err(Unavailable);
      } else {
        r := Ok(listing.value[0]);
      }
      assert IsListing(servers.client.Space(), listing.value, sources, found) && r == FirstOf(listing.value);
    }

    /** `entropy` is what the random source delivers for the token, if it does. A failed call changes nothing; a
        successful one stores exactly the token it returns. */
    method IssueJoinToken(chars: Characters, userID: string, characterID: string, serverID: string,
        entropy: Option<seq<Byte>>, upSelect: bool, upCreate: bool)
      returns (r: Result<JoinTokens.JoinToken>)
      requires servers.client == tokens.client && Drawn(entropy)
      modifies tokens.client`db
      ensures r.Err? ==> tokens.client.Space() == old(tokens.client.Space())
      ensures r.Ok? ==>
                && r.value.expiresAt == old(tokens.client.now) + joinTokenTTL
                && tokens.client.Space() == JoinTokens.PutToken(old(tokens.client.Space()), r.value)
      ensures match Eligible(chars, userID, characterID, serverID)
              case Err(e) => r == Err(e)
              case Ok(order) => Grants(old(tokens.client.Space()), order, entropy, joinTokenTTL, upSelect, upCreate, r)
    {
      var user := RequiredID(userID);
      if user.Err? {
        return Err(user.error);
      }
      var character := RequiredID(characterID);
      if character.Err? {
        return Err(character.error);
      }
      var requested := OptionalGameServerID(serverID);
      if requested.Err? {
        return Err(requested.error);
      }
      if character.value !in chars {
        return Err(NotFound);
      }
      if chars[character.value].userID != user.value {
        return Err(PermissionDenied);
      }
      r := Grant(Order(user.value, character.value, requested.value), entropy, upSelect, upCreate);
    }

    /** The second half of IssueJoinToken: select a server, mint the token, store it. */
    method Grant(order: Order, entropy: Option<seq<Byte>>, upSelect: bool, upCreate: bool) returns (r: Result<JoinTokens.JoinToken>)
      requires servers.client == tokens.client && Drawn(entropy)
      modifies tokens.client`db
      ensures r.Err? ==> tokens.client.Space() == old(tokens.client.Space())
      ensures r.Ok? ==>
                && r.value.expiresAt == old(tokens.client.now) + joinTokenTTL
                && tokens.client.Space() == JoinTokens.PutToken(old(tokens.client.Space()), r.value)
      ensures Grants(old(tokens.client.Space()), order, entropy, joinTokenTTL, upSelect, upCreate, r)
    {
      var server := SelectServer(order.requested, upSelect);
      if server.Err? {
        return Err(server.error);
      }
      r := Mint(order, server.value, entropy, upCreate);
      assert Selects(old(tokens.client.Space()), order.requested, upSelect, server);
    }

    /** Mints and stores the token for a selected server. */
    method Mint(order: Order, server: GameServer, entropy: Option<seq<Byte>>, upCreate: bool) returns (r: Result<JoinTokens.JoinToken>)
      requires Drawn(entropy)
      modifies tokens.client`db
      ensures r == Minted(order, server, entropy, old(tokens.client.now), joinTokenTTL, upCreate)
      ensures tokens.client.Space() == if r.Ok? then JoinTokens.PutToken(old(tokens.client.Space()), r.value) else old(tokens.client.Space())
    {
      var token := Token.NewOpaqueToken(JOIN_TOKEN_BYTES, entropy);
      if token.Err? {
        return Err(token.error);
      }
      Token.TokenIsIdentifier(entropy.value);
      var t := IssuedToken(token.value, order.userID, order.characterID, server, tokens.client.now, joinTokenTTL);
      var created := tokens.CreateJoinToken(t, upCreate);
      if created.Err? {
        return Err(created.error);
      }
      r := Ok(t);
    }
  }

  lemma AcceptedAs(raw: string, id: string)
    requires RequiredID(raw) == Ok(id)
    ensures Normalized(id)
  {
  }

  lemma EligibleIsNormalized(chars: Characters, userID: string, characterID: string, serverID: string, order: Order)
    requires Eligible(chars, userID, characterID, serverID) == Ok(order)
    ensures Normalized(order.userID) && Normalized(order.characterID)
  {
    AcceptedAs(userID, order.userID);
    AcceptedAs(characterID, order.characterID);
  }

  lemma GrantedFor(st: State, order: Order, entropy: Option<seq<Byte>>, ttl: nat, upSelect: bool, upCreate: bool, t: JoinTokens.JoinToken)
    requires Grants(st, order, entropy, ttl, upSelect, upCreate, Ok(t))
    ensures t.userID == order.userID && t.characterID == order.characterID && t.expiresAt == st.now + ttl
  {
  }

  /** The listed server with the least ID, or Unavailable exactly when no server is listed. */
  ghost predicate IsLeastListed(st: State, r: Result<GameServer>) {
    && (r.Err? ==> r == Err(Unavailable))
    && (r.Err? <==> forall id :: !Listed(st, id))
    && (r.Ok? ==>
          && Get(st, Keys.Server(r.value.id)) == Some(ServerDoc(Payload(r.value)))
          && Listed(st, r.value.id)
          && forall id | Listed(st, id) && id != r.value.id :: Text.Less(r.value.id, id))
  }

  /** The same among all live servers. */
  ghost predicate IsLeastLive(st: State, r: Result<GameServer>) {
    && (r.Err? ==> r == Err(Unavailable))
    && (r.Err? <==> forall id :: !Live(st, Keys.Server(id)))
    && (r.Ok? ==>
          && Get(st, Keys.Server(r.value.id)) == Some(ServerDoc(Payload(r.value)))
          && forall id | Live(st, Keys.Server(id)) && id != r.value.id :: Text.Less(r.value.id, id))
  }

  lemma FirstIsLeast(st: State, listing: seq<GameServer>)
    requires ListsIndexed(st, listing)
    ensures IsLeastListed(st, FirstOf(listing))
  {
    if listing != [] {
      assert listing[0] in listing && Shows(listing, listing[0].id);
    }
    forall id | Listed(st, id) ensures listing != [] && (id == listing[0].id || Text.Less(listing[0].id, id)) {
      assert Shows(listing, id);
    }
  }

  lemma AgreedSelection(st: State, r: Result<GameServer>)
    requires Agrees(st) && Selects(st, "", true, r)
    ensures IsLeastListed(st, r)
  {
    var listing, sources, found := SelectionIsListing(st, r);
    assert ListsIndexed(st, listing);
    FirstIsLeast(st, listing);
  }

  lemma SelectionIsListing(st: State, r: Result<GameServer>) returns (listing: seq<GameServer>, sources: seq<string>, found: seq<GameServer>)
    requires Selects(st, "", true, r)
    requires forall m | m in SMembers(st, Keys.ServersIndex) :: !Fails(Reader(st), m)
    ensures IsListing(st, listing, sources, found) && r == FirstOf(listing)
  {
    listing, sources, found :| IsListing(st, listing, sources, found) && r == FirstOf(listing);
  }

  /** Automatic selection, in every run of the registry, picks the listed server with the least ID, and is
      refused as unavailable exactly when none is listed. */
  lemma SelectsLeastListed(st: State, ops: seq<Op>, serverTTL: nat, n: nat, r: Result<GameServer>)
    requires NoServers(st) && CallersValidate(ops) && n <= |ops|
    requires Selects(At(st, ops, serverTTL, n), "", true, r)
    ensures IsLeastListed(At(st, ops, serverTTL, n), r)
  {
    ListingIsExact(st, ops, serverTTL, n);
    AgreedSelection(At(st, ops, serverTTL, n), r);
  }

  lemma LiveIsListed(st: State, serverTTL: nat, r: Result<GameServer>)
    requires IndexOutlives(st, serverTTL) && IsLeastListed(st, r)
    ensures IsLeastLive(st, r)
  {
    forall id | Live(st, Keys.Server(id)) ensures Listed(st, id) {
    }
  }

  /** In runs of whole registrations with leases up to serverTTL it is the live server with the least ID, and unavailable exactly when
      none is live. */
  lemma SelectsLeastLive(st: State, ops: seq<Op>, serverTTL: nat, n: nat, r: Result<GameServer>)
    requires NoServers(st) && CallersValidate(ops) && Whole(ops) && BoundedLeases(st, ops, serverTTL) && n <= |ops|
    requires Selects(At(st, ops, serverTTL, n), "", true, r)
    ensures IsLeastLive(At(st, ops, serverTTL, n), r)
  {
    SelectsLeastListed(st, ops, serverTTL, n, r);
    IndexAlwaysOutlives(st, ops, serverTTL, n);
    LiveIsListed(At(st, ops, serverTTL, n), serverTTL, r);
  }

  // ---- Which server the token names ----

  /** An order is eligible exactly for identifiers that validation accepts, or no server ID at all, and a character
      that exists and belongs to the user. */
  lemma EligibleIff(chars: Characters, userID: string, characterID: string, serverID: string, order: Order)
    ensures Eligible(chars, userID, characterID, serverID) == Ok(order) <==>
            && RequiredID(userID) == Ok(order.userID) && RequiredID(characterID) == Ok(order.characterID)
            && (if Text.AllSpace(serverID) then order.requested == "" else RequiredID(serverID) == Ok(order.requested))
            && order.characterID in chars && chars[order.characterID].userID == order.userID
  {
    OptionalIsRequired(serverID);
  }

  lemma RecordIsVisible(v: Option<Value>, s: GameServer)
    requires ReadRecord(v) == Ok(s)
    ensures v == Some(ServerDoc(Payload(s))) && Visible(Payload(s))
  {
  }

  lemma ReadIsRecord(st: State, id: string, s: GameServer)
    requires ReadServer(st, id) == Ok(s)
    ensures ReadRecord(Get(st, Keys.Server(id))) == Ok(s)
  {
  }

  lemma ReadIsVisible(st: State, id: string, s: GameServer)
    requires ReadServer(st, id) == Ok(s)
    ensures RequiredID(s.id).Ok? && ServerAddress(s.addr).Ok?
    ensures Get(st, Keys.Server(id)) == Some(ServerDoc(Payload(s)))
  {
    ReadIsRecord(st, id, s);
    RecordIsVisible(Get(st, Keys.Server(id)), s);
    assert Visible(Payload(s));
  }

  lemma ListedIsVisible(st: State, listing: seq<GameServer>, sources: seq<string>, found: seq<GameServer>, s: GameServer)
    requires IsListing(st, listing, sources, found) && s in listing
    ensures RequiredID(s.id).Ok? && ServerAddress(s.addr).Ok?
  {
    assert s in multiset(listing) && s in multiset(found);
    var i :| 0 <= i < |found| && found[i] == s;
    assert Reader(st)(sources[i]) == Ok(s) && Contribution(st, sources[i]) == Ok(s);
    ReadIsVisible(st, RequiredID(sources[i]).value, s);
  }

  /** Whatever server is selected, its ID and address pass validation. */
  lemma SelectedIsVisible(st: State, requested: string, up: bool, s: GameServer)
    requires Selects(st, requested, up, Ok(s))
    ensures RequiredID(s.id).Ok? && ServerAddress(s.addr).Ok?
  {
    if requested != "" {
      ReadIsVisible(st, RequiredID(requested).value, s);
    } else {
      var listing, sources, found :| IsListing(st, listing, sources, found) && Ok(s) == FirstOf(listing);
      ListedIsVisible(st, listing, sources, found, s);
    }
  }

  /** The token carries the ID and the address of the selected server, and 43 characters of the random source. */
  lemma IssuedNamesServer(st: State, order: Order, entropy: Option<seq<Byte>>, ttl: nat, upSelect: bool, upCreate: bool, t: JoinTokens.JoinToken)
    returns (s: GameServer)
    requires Grants(st, order, entropy, ttl, upSelect, upCreate, Ok(t)) && Drawn(entropy)
    ensures Selects(st, order.requested, upSelect, Ok(s)) && t.serverID == s.id && t.serverAddr == s.addr
    ensures RequiredID(s.id).Ok? && ServerAddress(s.addr).Ok?
    ensures |t.token| == 43 && Normalized(t.token)
  {
    var server :| Selects(st, order.requested, upSelect, server)
      && Ok(t) == match server case Err(e) => Err(e) case Ok(s) => Minted(order, s, entropy, st.now, ttl, upCreate);
    s := server.value;
    SelectedIsVisible(st, order.requested, upSelect, s);
    Token.TokenIsIdentifier(entropy.value);
  }

  /** The listed server with the least ID. */
  ghost predicate LeastListed(st: State, id: string) {
    Listed(st, id) && forall other | Listed(st, other) && other != id :: Text.Less(id, other)
  }

  /** A live record stands under the server ID that the token carries, with that ID and the token's address. */
  ghost predicate RecordBehind(st: State, t: JoinTokens.JoinToken) {
    exists expiresAt :: Get(st, Keys.Server(t.serverID)) == Some(ServerDoc(ServerPayload(t.serverID, t.serverAddr, expiresAt)))
  }

  lemma RequestedIsRead(st: State, requested: string, up: bool, s: GameServer)
    requires Shaped(st) && Normalized(requested) && Selects(st, requested, up, Ok(s))
    ensures s.id == requested && Get(st, Keys.Server(s.id)) == Some(ServerDoc(Payload(s)))
  {
    ReadIsVisible(st, requested, s);
  }

  lemma RequestedNormalized(serverID: string, requested: string)
    requires if Text.AllSpace(serverID) then requested == "" else RequiredID(serverID) == Ok(requested)
    ensures requested == "" <==> Text.AllSpace(serverID)
    ensures requested != "" ==> Normalized(requested)
  {
    if !Text.AllSpace(serverID) {
      AcceptedIsNormalized(serverID);
    }
  }

  /** In every run of the registry the token of a successful IssueJoinToken carries the ID and address of a live
      record: of the requested server, or of the listed server with the least ID when none was requested. */
  lemma IssuedForServer(st: State, ops: seq<Op>, serverTTL: nat, n: nat, chars: Characters, userID: string, characterID: string, serverID: string,
      order: Order, entropy: Option<seq<Byte>>, ttl: nat, upSelect: bool, upCreate: bool, t: JoinTokens.JoinToken)
    requires NoServers(st) && CallersValidate(ops) && n <= |ops| && Drawn(entropy)
    requires Eligible(chars, userID, characterID, serverID) == Ok(order)
    requires Grants(At(st, ops, serverTTL, n), order, entropy, ttl, upSelect, upCreate, Ok(t))
    ensures RecordBehind(At(st, ops, serverTTL, n), t)
    ensures if Text.AllSpace(serverID) then LeastListed(At(st, ops, serverTTL, n), t.serverID) else RequiredID(serverID) == Ok(t.serverID)
  {
    EligibleIff(chars, userID, characterID, serverID, order);
    RequestedNormalized(serverID, order.requested);
    var s := IssuedNamesServer(At(st, ops, serverTTL, n), order, entropy, ttl, upSelect, upCreate, t);
    if order.requested == "" {
      SelectsLeastListed(st, ops, serverTTL, n, Ok(s));
    } else {
      AlwaysShaped(st, ops, serverTTL, n);
      RequestedIsRead(At(st, ops, serverTTL, n), order.requested, upSelect, s);
    }
    assert Payload(s) == ServerPayload(t.serverID, t.serverAddr, s.expiresAt);
  }

  // ---- When a call succeeds ----

  /** What an order that is not eligible is told: a bad identifier first, then a missing character, then one of
      somebody else. */
  lemma RefusedAs(chars: Characters, userID: string, characterID: string, serverID: string)
    ensures var r := Eligible(chars, userID, characterID, serverID);
            var named := RequiredID(userID).Ok? && RequiredID(characterID).Ok? && (Text.AllSpace(serverID) || RequiredID(serverID).Ok?);
            && (r == Err(InvalidArgument) <==> !named)
            && (r == Err(NotFound) <==> named && RequiredID(characterID).value !in chars)
            && (r == Err(PermissionDenied) <==>
                  named && RequiredID(characterID).value in chars && chars[RequiredID(characterID).value].userID != RequiredID(userID).value)
  {
    OptionalIsRequired(serverID);
    InvalidIsArgument(userID);
    InvalidIsArgument(characterID);
    InvalidIsArgument(serverID);
  }

  lemma InvalidIsArgument(raw: string)
    ensures RequiredID(raw).Err? ==> RequiredID(raw) == Err(InvalidArgument)
  {
  }

  lemma GrantedIff(st: State, order: Order, entropy: Option<seq<Byte>>, ttl: nat, upSelect: bool, upCreate: bool, r: Result<JoinTokens.JoinToken>)
    returns (server: Result<GameServer>)
    requires Grants(st, order, entropy, ttl, upSelect, upCreate, r)
    ensures Selects(st, order.requested, upSelect, server)
    ensures r.Ok? <==> server.Ok? && entropy.Some? && upCreate
  {
    server :| Selects(st, order.requested, upSelect, server)
      && r == match server case Err(e) => Err(e) case Ok(s) => Minted(order, s, entropy, st.now, ttl, upCreate);
  }

  /** Some server is there to be selected: the requested one is live, or, when none was requested, one is listed. */
  ghost predicate Available(st: State, serverID: string) {
    if Text.AllSpace(serverID) then exists id :: Listed(st, id)
    else RequiredID(serverID).Ok? && Live(st, Keys.Server(RequiredID(serverID).value))
  }

  lemma SelectedIff(st: State, ops: seq<Op>, serverTTL: nat, n: nat, serverID: string, requested: string, server: Result<GameServer>)
    requires NoServers(st) && CallersValidate(ops) && n <= |ops|
    requires if Text.AllSpace(serverID) then requested == "" else RequiredID(serverID) == Ok(requested)
    requires Selects(At(st, ops, serverTTL, n), requested, true, server)
    ensures server.Ok? <==> Available(At(st, ops, serverTTL, n), serverID)
  {
    RequestedNormalized(serverID, requested);
    if requested == "" {
      SelectsLeastListed(st, ops, serverTTL, n, server);
    } else {
      LookupIsRecord(st, ops, serverTTL, n, requested, requested);
    }
  }

  /** In every run of the registry an eligible order gets a token if and only if a server is there to be selected, the
      random source delivers and the write reaches Redis. */
  lemma IssueSucceedsIff(st: State, ops: seq<Op>, serverTTL: nat, n: nat, chars: Characters, userID: string, characterID: string, serverID: string,
      order: Order, entropy: Option<seq<Byte>>, ttl: nat, upCreate: bool, r: Result<JoinTokens.JoinToken>)
    requires NoServers(st) && CallersValidate(ops) && n <= |ops|
    requires Eligible(chars, userID, characterID, serverID) == Ok(order)
    requires Grants(At(st, ops, serverTTL, n), order, entropy, ttl, true, upCreate, r)
    ensures r.Ok? <==> Available(At(st, ops, serverTTL, n), serverID) && entropy.Some? && upCreate
  {
    EligibleIff(chars, userID, characterID, serverID, order);
    var server := GrantedIff(At(st, ops, serverTTL, n), order, entropy, ttl, true, upCreate, r);
    SelectedIff(st, ops, serverTTL, n, serverID, order.requested, server);
  }
}
