/** Single-use game handoff tokens: internal/store/redis/join_tokens.go. */
module JoinTokens {
  import opened Wrappers
  import opened Redis
  import opened Validate
  import Keys

  datatype JoinToken = JoinToken(token: string, userID: string, characterID: string, serverID: string, serverAddr: string, expiresAt: int)

  function Payload(t: JoinToken): TokenPayload {
    TokenPayload(t.userID, t.characterID, t.serverID, t.serverAddr, t.expiresAt)
  }

  function FromPayload(token: string, p: TokenPayload): JoinToken {
    JoinToken(token, p.userID, p.characterID, p.serverID, p.serverAddr, p.expiresAt)
  }

  predicate ValidPayload(p: TokenPayload) {
    && RequiredID(p.userID).Ok?
    && RequiredID(p.characterID).Ok?
    && RequiredID(p.serverID).Ok?
    && ServerAddress(p.serverAddr).Ok?
  }

  // ---- The two commands, on a validated token; each one atomic step ----

  function PutToken(st: State, t: JoinToken): State
    requires st.now < t.expiresAt
  {
    Set(st, Keys.JoinToken(t.token), TokenDoc(Payload(t)), t.expiresAt - st.now)
  }

  /** GETDEL: the payload, when the token is live, and the key space without it. */
  function TakeToken(st: State, token: string): (State, Option<Value>) {
    GetDel(st, Keys.JoinToken(token))
  }

  // ---- The operations ----

  function CreateEffect(st: State, t: JoinToken, up: bool): (State, Result<()>) {
    if !Keys.ValidSegment(t.token) then (st, Err(InvalidArgument))
    else if t.expiresAt <= st.now then (st, Err(InvalidArgument))
    else if !up then (st, Err(Unavailable))
    else (PutToken(st, t), Ok(()))
  }

  /** A found document is read back as a token; anything else is refused although it was deleted. */
  function ReadToken(token: string, found: Option<Value>): Result<JoinToken> {
    match found
    case Some(TokenDoc(p)) => if ValidPayload(p) then Ok(FromPayload(token, p)) else Err(Unauthenticated)
    case _ => Err(Unauthenticated)
  }

  function ConsumeEffect(st: State, raw: string, up: bool): (State, Result<JoinToken>) {
    match RequiredID(raw)
    case Err(e) => (st, Err(e))
    case Ok(token) =>
      if !up then (st, Err(Unavailable))
      else
        var r := TakeToken(st, token);
        (r.0, ReadToken(token, r.1))
  }

  class Store {
    const client: Client

    constructor (client: Client)
      ensures this.client == client
    {
      this.client := client;
    }

    method CreateJoinToken(t: JoinToken, up: bool) returns (r: Result<()>)
      modifies client`db
      ensures (client.Space(), r) == CreateEffect(old(client.Space()), t, up)
    {
      if !Keys.ValidSegment(t.token) {
        return Err(InvalidArgument);
      }
      var ttl := t.expiresAt - client.now;
      if ttl <= 0 {
        return Err(InvalidArgument);
      }
      if !up {
        return Err(Unavailable);
      }
      client.SetValue(Keys.JoinToken(t.token), TokenDoc(Payload(t)), ttl);
      r := Ok(());
    }

    method ConsumeJoinToken(raw: string, up: bool) returns (r: Result<JoinToken>)
      modifies client`db
      ensures (client.Space(), r) == ConsumeEffect(old(client.Space()), raw, up)
    {
      var token := RequiredID(raw);
      if token.Err? {
        return Err(token.error);
      }
      if !up {
        return Err(Unavailable);
      }
      var found := client.GetAndDelete(Keys.JoinToken(token.value));
      r := ReadToken(token.value, found);
    }
  }

  /** Whatever else happened in between, the token stands in `later` as it was created in st. */
  predicate StandsAsPut(st: State, t: JoinToken, later: State)
    requires st.now < t.expiresAt
  {
    Keys.JoinToken(t.token) in later.db && later.db[Keys.JoinToken(t.token)] == PutToken(st, t).db[Keys.JoinToken(t.token)]
  }

  lemma TakenAsPut(st: State, t: JoinToken, later: State)
    requires st.now < t.expiresAt && StandsAsPut(st, t, later)
    ensures TakeToken(later, t.token).1 == if later.now < t.expiresAt then Some(TokenDoc(Payload(t))) else None
    ensures Keys.JoinToken(t.token) !in TakeToken(later, t.token).0.db
  {
  }

  lemma ConsumeTakes(st: State, token: string)
    requires Normalized(token)
    ensures ConsumeEffect(st, token, true) == (TakeToken(st, token).0, ReadToken(token, TakeToken(st, token).1))
  {
  }

  /** What consuming makes of a token that stands, valid inside or not. */
  lemma StandingIsRead(st: State, t: JoinToken, later: State)
    requires Normalized(t.token) && st.now < t.expiresAt && StandsAsPut(st, t, later)
    ensures ConsumeEffect(later, t.token, true).1 == if later.now < t.expiresAt && ValidPayload(Payload(t)) then Ok(t) else Err(Unauthenticated)
  {
    TakenAsPut(st, t, later);
    ConsumeTakes(later, t.token);
  }

  lemma AbsentIsRefused(st: State, token: string)
    requires Normalized(token) && Keys.JoinToken(token) !in st.db
    ensures ConsumeEffect(st, token, true).1 == Err(Unauthenticated)
  {
    ConsumeTakes(st, token);
  }

  /** Creating succeeds exactly for a valid token segment and an expiry in the future when Redis is reached; then the
      token stands until it expires, and otherwise nothing changes. */
  lemma CreateStores(st: State, t: JoinToken, up: bool)
    ensures var (st', r) := CreateEffect(st, t, up);
            && (r.Ok? <==> Keys.ValidSegment(t.token) && st.now < t.expiresAt && up)
            && (r.Err? ==> st' == st)
            && (r.Ok? ==>
                  && StandsAsPut(st, t, st') && st'.now == st.now
                  && st'.db - {Keys.JoinToken(t.token)} == st.db - {Keys.JoinToken(t.token)}
                  && st'.db[Keys.JoinToken(t.token)] == Entry(TokenDoc(Payload(t)), Some(t.expiresAt)))
  {
    if Keys.ValidSegment(t.token) && st.now < t.expiresAt && up {
      PutAlone(st, t);
    }
  }

  lemma PutAlone(st: State, t: JoinToken)
    requires st.now < t.expiresAt
    ensures var st', k := PutToken(st, t), Keys.JoinToken(t.token);
            && st'.now == st.now && st'.db - {k} == st.db - {k}
            && k in st'.db && st'.db[k] == Entry(TokenDoc(Payload(t)), Some(t.expiresAt))
  {
  }

  /** Creating does not look inside the token, consuming does. A created token is consumed whole, once: the first
      consume answers it if and only if it has not expired and its identifiers and address pass validation, and any
      consume after that is refused. */
  lemma CreatedIsConsumedOnce(st: State, t: JoinToken, d: nat, later: nat)
    requires Normalized(t.token) && CreateEffect(st, t, true).1.Ok?
    ensures var first := ConsumeEffect(Advance(CreateEffect(st, t, true).0, d), t.token, true);
            && (first.1 == Ok(t) <==>
                  && st.now + d < t.expiresAt
                  && RequiredID(t.userID).Ok? && RequiredID(t.characterID).Ok? && RequiredID(t.serverID).Ok? && ServerAddress(t.serverAddr).Ok?)
            && (first.1 == Ok(t) || first.1 == Err(Unauthenticated))
            && ConsumeEffect(Advance(first.0, later), t.token, true).1 == Err(Unauthenticated)
  {
    CreateStores(st, t, true);
    var created := Advance(CreateEffect(st, t, true).0, d);
    StandingIsRead(st, t, created);
    TakenAsPut(st, t, created);
    ConsumeTakes(created, t.token);
    AbsentIsRefused(Advance(TakeToken(created, t.token).0, later), t.token);
  }
}
