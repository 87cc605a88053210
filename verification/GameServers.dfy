/** The game server registry: internal/store/redis/game_servers.go. */
module GameServers {
  import opened Wrappers
  import opened Text
  import opened Redis
  import opened Validate
  import Keys

  datatype GameServer = GameServer(id: string, addr: string, expiresAt: int)

  function Payload(s: GameServer): ServerPayload {
    ServerPayload(s.id, s.addr, s.expiresAt)
  }

  // ---- Registration: SET, SADD, EXPIRE ----

  function PutServer(st: State, s: GameServer): State
    requires st.now < s.expiresAt
  {
    Set(st, Keys.Server(s.id), ServerDoc(Payload(s)), s.expiresAt - st.now)
  }

  function AddToIndex(st: State, id: string): State {
    SAdd(st, Keys.ServersIndex, id)
  }

  function ExtendIndex(st: State, serverTTL: nat): State {
    Expire(st, Keys.ServersIndex, serverTTL).0
  }

  /** The three commands with nothing in between. */
  function Registered(st: State, s: GameServer, serverTTL: nat): State
    requires st.now < s.expiresAt
  {
    ExtendIndex(AddToIndex(PutServer(st, s), s.id), serverTTL)
  }

  /** Each flag says whether that command reaches Redis. */
  function RegisterEffect(st: State, s: GameServer, serverTTL: nat, upSet: bool, upAdd: bool, upExpire: bool): (State, Result<()>) {
    if !Keys.ValidSegment(s.id) then (st, Err(InvalidArgument))
    else if s.expiresAt <= st.now then (st, Err(InvalidArgument))
    else if !upSet then (st, Err(Unavailable))
    else if !upAdd then (PutServer(st, s), Err(Unavailable))
    else if !upExpire then (AddToIndex(PutServer(st, s), s.id), Err(Unavailable))
    else (Registered(st, s, serverTTL), Ok(()))
  }

  function Deregistered(st: State, id: string): State {
    Del(st, Keys.Server(id))
  }

  function DeregisterEffect(st: State, raw: string, up: bool): (State, Result<()>) {
    match RequiredID(raw)
    case Err(e) => (st, Err(e))
    case Ok(id) => if up then (Deregistered(st, id), Ok(())) else (st, Err(Unavailable))
  }

  // ---- Reading ----

  /** A record with an identifier or address that validation refuses is treated as absent. */
  predicate Visible(p: ServerPayload) {
    RequiredID(p.id).Ok? && ServerAddress(p.addr).Ok?
  }

  function ReadRecord(v: Option<Value>): Result<GameServer> {
    match v
    case None => Err(NotFound)
    case Some(ServerDoc(p)) => if Visible(p) then Ok(GameServer(p.id, p.addr, p.expiresAt)) else Err(NotFound)
    case Some(_) => Err(Unavailable)
  }

  /** getGameServer. */
  function ReadServer(st: State, id: string): Result<GameServer> {
    if Keys.ValidSegment(id) then ReadRecord(Get(st, Keys.Server(id))) else Err(InvalidArgument)
  }

  function GetByIDResult(st: State, raw: string, up: bool): Result<GameServer> {
    match RequiredID(raw)
    case Err(e) => Err(e)
    case Ok(id) => if up then ReadServer(st, id) else Err(Unavailable)
  }

  /** What one member of the index contributes to the listing. */
  function Contribution(st: State, member: string): Result<GameServer> {
    match RequiredID(member)
    case Err(_) => Err(NotFound)
    case Ok(id) => ReadServer(st, id)
  }

  function Reader(st: State): string -> Result<GameServer> {
    member => Contribution(st, member)
  }

  predicate SortedByID(servers: seq<GameServer>) {
    forall i, j | 0 <= i < j < |servers| :: !Less(servers[j].id, servers[i].id)
  }

  function InsertByID(s: GameServer, sorted: seq<GameServer>): (r: seq<GameServer>)
    requires SortedByID(sorted)
    ensures SortedByID(r) && multiset(r) == multiset(sorted) + multiset{s}
  {
    if sorted == [] then [s]
    else if !Less(sorted[0].id, s.id) then
      FirstIsLeast(s, sorted);
      assert multiset([s] + sorted) == multiset{s} + multiset(sorted);
      [s] + sorted
    else
      var rest := InsertByID(s, sorted[1..]);
      InsertedAfter(sorted[0], s, sorted[1..], rest);
      assert sorted == [sorted[0]] + sorted[1..];
      [sorted[0]] + rest
  }

  lemma FirstIsLeast(s: GameServer, sorted: seq<GameServer>)
    requires SortedByID(sorted) && sorted != [] && !Less(sorted[0].id, s.id)
    ensures SortedByID([s] + sorted)
  {
    forall j | 0 <= j < |sorted| ensures !Less(sorted[j].id, s.id) {
      if Less(sorted[j].id, s.id) {
        LessTotal(sorted[0].id, sorted[j].id);
        LessTotal(sorted[0].id, s.id);
        if Less(sorted[0].id, sorted[j].id) {
          LessTransitive(sorted[0].id, sorted[j].id, s.id);
        }
      }
    }
  }

  lemma InsertedAfter(first: GameServer, s: GameServer, old_: seq<GameServer>, rest: seq<GameServer>)
    requires SortedByID([first] + old_) && SortedByID(rest) && Less(first.id, s.id)
    requires multiset(rest) == multiset(old_) + multiset{s}
    ensures SortedByID([first] + rest)
  {
    forall j | 0 <= j < |rest| ensures !Less(rest[j].id, first.id) {
      assert rest[j] in multiset(rest);
      if rest[j] == s {
        LessTotal(first.id, s.id);
      } else {
        assert rest[j] in multiset(old_);
        var k :| 0 <= k < |old_| && old_[k] == rest[j];
        assert ([first] + old_)[k + 1] == rest[j] && ([first] + old_)[0] == first;
      }
    }
  }

  class Store {
    const client: Client
    const serverTTL: nat

    constructor (client: Client, serverTTL: nat)
      requires serverTTL > 0
      ensures this.client == client && this.serverTTL == serverTTL
    {
      this.client := client;
      this.serverTTL := serverTTL;
    }

    method RegisterGameServer(s: GameServer, upSet: bool, upAdd: bool, upExpire: bool) returns (r: Result<()>)
      modifies client`db
      ensures (client.Space(), r) == RegisterEffect(old(client.Space()), s, serverTTL, upSet, upAdd, upExpire)
    {
      if !Keys.ValidSegment(s.id) {
        return Err(InvalidArgument);
      }
      var ttl := s.expiresAt - client.now;
      if ttl <= 0 {
        return Err(InvalidArgument);
      }
      if !upSet {
        return Err(Unavailable);
      }
      client.SetValue(Keys.Server(s.id), ServerDoc(Payload(s)), ttl);
      if !upAdd {
        return Err(Unavailable);
      }
      client.AddMember(Keys.ServersIndex, s.id);
      if !upExpire {
        return Err(Unavailable);
      }
      var _ := client.ExpireIn(Keys.ServersIndex, serverTTL);
      r := Ok(());
    }

    method DeregisterGameServer(raw: string, up: bool) returns (r: Result<()>)
      modifies client`db
      ensures (client.Space(), r) == DeregisterEffect(old(client.Space()), raw, up)
    {
      var id := RequiredID(raw);
      if id.Err? {
        return Err(id.error);
      }
      if !up {
        return Err(Unavailable);
      }
      client.Delete(Keys.Server(id.value));
      r := Ok(());
    }

    method GetGameServer(id: string) returns (r: Result<GameServer>)
      ensures r == ReadServer(client.Space(), id)
    {
      if !Keys.ValidSegment(id) {
        return Err(InvalidArgument);
      }
      var v := client.GetValue(Keys.Server(id));
      r := ReadRecord(v);
    }

    method GetGameServerByID(raw: string, up: bool) returns (r: Result<GameServer>)
      ensures r == GetByIDResult(client.Space(), raw, up)
    {
      var id := RequiredID(raw);
      if id.Err? {
        return Err(id.error);
      }
      if !up {
        return Err(Unavailable);
      }
      r := GetGameServer(id.value);
    }

    /** Reads every member of the index and sorts what was found. `sources[i]` is the member that
        contributed found[i]. */
    method ListGameServers(up: bool) returns (r: Result<seq<GameServer>>, ghost sources: seq<string>, ghost found: seq<GameServer>)
      ensures r.Err? <==> !up || exists m | m in SMembers(client.Space(), Keys.ServersIndex) :: Fails(Reader(client.Space()), m)
      ensures !up ==> r == Err(Unavailable)
      ensures r.Ok? ==> IsListing(client.Space(), r.value, sources, found)
    {
      sources, found := [], [];
      if !up {
        return Err(Unavailable), [], [];
      }
      var ids := client.MembersOf(Keys.ServersIndex);
      var servers;
      servers, sources := ReadMembers(ids);
      if servers.Err? {
        return Err(servers.error), [], [];
      }
      found := servers.value;
      var sorted := SortByID(servers.value);
      r := Ok(sorted);
    }

    /** The loop over the members, in whatever order the set yields them; absent servers are skipped. */
    method ReadMembers(ids: set<string>) returns (r: Result<seq<GameServer>>, ghost sources: seq<string>)
      ensures r.Err? <==> exists m | m in ids :: Fails(Reader(client.Space()), m)
      ensures r.Ok? ==> Collected(Reader(client.Space()), ids, sources, r.value)
    {
      sources := [];
      var todo := ids;
      ghost var read := Reader(client.Space());
      var servers: seq<GameServer> := [];
      while todo != {}
        invariant todo <= ids
        invariant Scanned(read, ids - todo, sources, servers)
        decreases |todo|
      {
        var member :| member in todo;
        var server := ReadMember(member);
        if server.Err? && server.error != NotFound {
          assert Fails(read, member);
          return Err(server.error), sources;
        }
        ScannedMore(read, ids - todo, sources, servers, member);
        assert ids - (todo - {member}) == (ids - todo) + {member};
        if server.Ok? {
          servers, sources := servers + [server.value], sources + [member];
        }
        todo := todo - {member};
      }
      assert ids - todo == ids;
      r := Ok(servers);
    }

    /** One turn of the listing loop: the server a member of the index stands for. */
    method ReadMember(member: string) returns (r: Result<GameServer>)
      ensures r == Contribution(client.Space(), member)
    {
      var id := RequiredID(member);
      if id.Err? {
        return Err(NotFound);
      }
      r := GetGameServer(id.value);
    }
  }

  /** sort.Slice by ID. */
  method SortByID(servers: seq<GameServer>) returns (sorted: seq<GameServer>)
    ensures SortedByID(sorted) && multiset(sorted) == multiset(servers)
  {
    sorted := [];
    var i := 0;
    while i < |servers|
      invariant 0 <= i <= |servers|
      invariant SortedByID(sorted) && multiset(sorted) == multiset(servers[..i])
    {
      sorted := InsertByID(servers[i], sorted);
      assert servers[..i + 1] == servers[..i] + [servers[i]];
      i := i + 1;
    }
    assert servers[..i] == servers;
  }

  predicate Fails(read: string -> Result<GameServer>, member: string) {
    read(member).Err? && read(member).error != NotFound
  }

  /** The members scanned so far: none of them failed, and what they yielded is collected. */
  ghost predicate Scanned(read: string -> Result<GameServer>, members: set<string>, sources: seq<string>, found: seq<GameServer>) {
    Collected(read, members, sources, found) && forall m | m in members :: !Fails(read, m)
  }

  lemma ScannedMore(read: string -> Result<GameServer>, members: set<string>, sources: seq<string>, found: seq<GameServer>, member: string)
    requires Scanned(read, members, sources, found) && member !in members && !Fails(read, member)
    ensures read(member).Ok? ==>
              Scanned(read, members + {member}, sources + [member], found + [read(member).value])
    ensures read(member).Err? ==> Scanned(read, members + {member}, sources, found)
  {
  }

  /** found lists, once each, the servers that the readable members yield. */
  ghost predicate Collected(read: string -> Result<GameServer>, members: set<string>, sources: seq<string>, found: seq<GameServer>) {
    && |sources| == |found|
    && (forall i | 0 <= i < |sources| :: sources[i] in members && read(sources[i]) == Ok(found[i]))
    && (forall i, j | 0 <= i < j < |sources| :: sources[i] != sources[j])
    && (forall m | m in members && read(m).Ok? :: m in sources)
  }

  ghost predicate IsListing(st: State, servers: seq<GameServer>, sources: seq<string>, found: seq<GameServer>) {
    && SortedByID(servers)
    && multiset(servers) == multiset(found)
    && Collected(Reader(st), SMembers(st, Keys.ServersIndex), sources, found)
  }
}
