/** Authenticated sessions and their per-user index: internal/store/redis/sessions.go. */
module SessionStore {
  import opened Wrappers
  import opened Redis
  import opened Keys
  import opened Validate
  import Strings = Text

  // ---- The three scripts, each one atomic step ----

  function CreateScript(st: State, sid: string, uid: string, ttl: nat): State {
    var st1 := Set(st, Session(sid), Text(uid), ttl);
    var st2 := SAdd(st1, UserSessions(uid), sid);
    Expire(st2, UserSessions(uid), ttl).0
  }

  function DeleteScript(st: State, sid: string, uid: string): State {
    if Get(st, Session(sid)).None? then st
    else SRem(Del(st, Session(sid)), UserSessions(uid), sid)
  }

  function DeleteUserScript(st: State, uid: string): State {
    var ids := SMembers(st, UserSessions(uid));
    st.(db := st.db - SessionKeys(ids) - {UserSessions(uid)})
  }

  function SessionKeys(ids: set<string>): (ks: set<Key>)
    ensures forall k :: k in ks <==> k.Session? && k.id in ids
  {
    set id | id in ids :: Session(id)
  }

  // ---- The operations; `up` says whether the Redis call reaches the server ----

  function CreateEffect(st: State, sid: string, uid: string, ttl: nat, up: bool): (State, Result<()>) {
    if !ValidSegment(sid) || !ValidSegment(uid) then (st, Err(InvalidArgument))
    else if !up then (st, Err(Unavailable))
    else (CreateScript(st, sid, uid, ttl), Ok(()))
  }

  function LookupResult(st: State, sid: string, up: bool): Result<string> {
    match RequiredID(sid)
    case Err(e) => Err(e)
    case Ok(id) =>
      if !up then Err(Unavailable)
      else
        match Get(st, Session(id))
        case None => Err(Unauthenticated)
        case Some(Text(uid)) => if RequiredID(uid).Ok? then RequiredID(uid) else Err(Unauthenticated)
        case Some(_) => Err(Unavailable)
  }

  /** A GET to learn the user, then the script on that user's set. */
  function DeleteEffect(st: State, sid: string, up: bool, upScript: bool): (State, Result<()>) {
    match RequiredID(sid)
    case Err(e) => (st, Err(e))
    case Ok(id) =>
      match LookupResult(st, id, up)
      case Err(Unauthenticated) => (st, Ok(()))
      case Err(e) => (st, Err(e))
      case Ok(uid) => if upScript then (DeleteScript(st, id, uid), Ok(())) else (st, Err(Unavailable))
  }

  function DeleteUserEffect(st: State, uid: string, up: bool): (State, Result<()>) {
    match RequiredID(uid)
    case Err(e) => (st, Err(e))
    case Ok(id) => if up then (DeleteUserScript(st, id), Ok(())) else (st, Err(Unavailable))
  }

  lemma AcceptedIsSegment(raw: string)
    requires RequiredID(raw).Ok?
    ensures ValidSegment(RequiredID(raw).value)
  {
    AcceptedIsNormalized(raw);
    NormalizedIsSegment(RequiredID(raw).value);
  }

  lemma NormalizedIsSegment(id: string)
    requires Normalized(id)
    ensures ValidSegment(id)
  {
  }

  class Store {
    const client: Client
    const ttl: nat

    constructor (client: Client, ttl: nat)
      requires ttl > 0
      ensures this.client == client && this.ttl == ttl
    {
      this.client := client;
      this.ttl := ttl;
    }

    method CreateSession(sid: string, uid: string, up: bool) returns (r: Result<()>)
      modifies client`db
      ensures (client.Space(), r) == CreateEffect(old(client.Space()), sid, uid, ttl, up)
    {
      if !ValidSegment(sid) || !ValidSegment(uid) {
        return Err(InvalidArgument);
      }
      if !up {
        return Err(Unavailable);
      }
      client.SetValue(Session(sid), Text(uid), ttl);
      client.AddMember(UserSessions(uid), sid);
      var _ := client.ExpireIn(UserSessions(uid), ttl);
      r := Ok(());
    }

    method GetSessionUserID(sid: string, up: bool) returns (r: Result<string>)
      ensures r == LookupResult(client.Space(), sid, up)
    {
      var id := RequiredID(sid);
      if id.Err? {
        return Err(id.error);
      }
      if !up {
        return Err(Unavailable);
      }
      var v := client.GetValue(Session(id.value));
      if v.None? {
        return Err(Unauthenticated);
      }
      if !v.value.Text? {
        return Err(Unavailable);
      }
      r := RequiredID(v.value.text);
      if r.Err? {
        r := Err(Unauthenticated);
      }
    }

    method DeleteSession(sid: string, up: bool, upScript: bool) returns (r: Result<()>)
      modifies client`db
      ensures (client.Space(), r) == DeleteEffect(old(client.Space()), sid, up, upScript)
    {
      var id := RequiredID(sid);
      if id.Err? {
        return Err(id.error);
      }
      var uid := GetSessionUserID(id.value, up);
      if uid == Err(Unauthenticated) {
        return Ok(());
      }
      if uid.Err? {
        return Err(uid.error);
      }
      if !upScript {
        return Err(Unavailable);
      }
      var owner := client.GetValue(Session(id.value));
      if owner.Some? {
        client.Delete(Session(id.value));
        client.RemoveMember(UserSessions(uid.value), id.value);
      }
      r := Ok(());
    }

    method DeleteUserSessions(uid: string, up: bool) returns (r: Result<()>)
      modifies client`db
      ensures (client.Space(), r) == DeleteUserEffect(old(client.Space()), uid, up)
    {
      var id := RequiredID(uid);
      if id.Err? {
        return Err(id.error);
      }
      if !up {
        return Err(Unavailable);
      }
      var ids := client.MembersOf(UserSessions(id.value));
      var todo := ids;
      while todo != {}
        invariant todo <= ids
        invariant client.now == old(client.now)
        invariant client.db == old(client.db) - SessionKeys(ids - todo)
        decreases |todo|
      {
        var sid :| sid in todo;
        client.Delete(Session(sid));
        todo := todo - {sid};
      }
      assert ids - todo == ids;
      client.Delete(UserSessions(id.value));
      r := Ok(());
    }
  }

  // ---- Runs: any interleaving of the scripts, the clock, and traffic on other keys ----

  datatype Op =
    | Create(sid: string, uid: string)
    /** The delete script; `uid` is whatever an earlier GET returned. */
    | Delete(sid: string, uid: string)
    | DeleteUser(uid: string)
    | Wait(d: nat)
    | Traffic(db: map<Key, Entry>)

  predicate IndexKey(k: Key) {
    k.Session? || k.UserSessions?
  }

  ghost predicate AgreeOnIndex(a: map<Key, Entry>, b: map<Key, Entry>) {
    forall k | IndexKey(k) :: (k in a <==> k in b) && (k in a ==> a[k] == b[k])
  }

  ghost predicate Enabled(st: State, op: Op) {
    match op
    case Traffic(db) => AgreeOnIndex(st.db, db)
    case _ => true
  }

  /** A step that is not enabled does nothing. */
  ghost function Next(st: State, op: Op, ttl: nat): State {
    if !Enabled(st, op) then st
    else
      match op
      case Create(sid, uid) => CreateScript(st, sid, uid, ttl)
      case Delete(sid, uid) => DeleteScript(st, sid, uid)
      case DeleteUser(uid) => DeleteUserScript(st, uid)
      case Wait(d) => Advance(st, d)
      case Traffic(db) => st.(db := db)
  }

  ghost function At(st: State, ops: seq<Op>, ttl: nat, n: nat): State
    requires n <= |ops|
  {
    if n == 0 then st else Next(At(st, ops, ttl, n - 1), ops[n - 1], ttl)
  }

  ghost predicate NoSessions(st: State) {
    forall k | IndexKey(k) :: k !in st.db
  }

  // ---- Index completeness ----

  ghost predicate Shaped(st: State, ttl: nat) {
    && (forall sid | Session(sid) in st.db :: SessionEntry(st.db[Session(sid)], st.now + ttl))
    && (forall uid | UserSessions(uid) in st.db :: SetEntry(st.db[UserSessions(uid)], st.now + ttl))
  }

  predicate SessionEntry(e: Entry, latest: nat) {
    e.value.Text? && e.expiry.Some? && e.expiry.value <= latest
  }

  predicate SetEntry(e: Entry, latest: nat) {
    e.value.Members? && e.expiry.Some? && e.expiry.value <= latest
  }

  /** The session is in its user's set, and the set lives at least as long. */
  predicate InIndex(st: State, sid: string)
    requires Session(sid) in st.db && st.db[Session(sid)].value.Text? && st.db[Session(sid)].expiry.Some?
  {
    var e := st.db[Session(sid)];
    var userSet := UserSessions(e.value.text);
    && userSet in st.db && st.db[userSet].value.Members? && st.db[userSet].expiry.Some?
    && sid in st.db[userSet].value.ids
    && e.expiry.value <= st.db[userSet].expiry.value
  }

  ghost predicate Indexed(st: State, ttl: nat) {
    && Shaped(st, ttl)
    && forall sid | Live(st, Session(sid)) :: InIndex(st, sid)
  }

  lemma CreateKeepsIndex(st: State, sid: string, uid: string, ttl: nat)
    requires Indexed(st, ttl) && ttl > 0
    ensures Indexed(CreateScript(st, sid, uid, ttl), ttl)
  {
  }

  lemma DeleteKeepsIndex(st: State, sid: string, uid: string, ttl: nat)
    requires Indexed(st, ttl)
    ensures Indexed(DeleteScript(st, sid, uid), ttl)
  {
    var st' := DeleteScript(st, sid, uid);
    forall s | Live(st', Session(s)) ensures InIndex(st', s) {
      assert Live(st, Session(s)) && InIndex(st, s);
      assert st' != st ==> s in st.db[UserSessions(st.db[Session(s)].value.text)].value.ids - {sid};
    }
  }

  lemma DeleteUserKeepsIndex(st: State, uid: string, ttl: nat)
    requires Indexed(st, ttl)
    ensures Indexed(DeleteUserScript(st, uid), ttl)
  {
  }

  lemma TrafficKeepsIndex(st: State, db: map<Key, Entry>, ttl: nat)
    requires Indexed(st, ttl) && AgreeOnIndex(st.db, db)
    ensures Indexed(st.(db := db), ttl)
  {
  }

  /** Index completeness: under every interleaving, each live session of user u is in u's live set, which
      expires no earlier than the session. */
  lemma {:induction false} IndexComplete(st: State, ops: seq<Op>, ttl: nat, n: nat)
    requires NoSessions(st) && ttl > 0 && n <= |ops|
    ensures Indexed(At(st, ops, ttl, n), ttl)
  {
    if n == 0 {
      assert forall sid :: IndexKey(Session(sid));
      assert forall uid :: IndexKey(UserSessions(uid));
    } else {
      IndexComplete(st, ops, ttl, n - 1);
      var before := At(st, ops, ttl, n - 1);
      match ops[n - 1]
      case Create(sid, uid) => CreateKeepsIndex(before, sid, uid, ttl);
      case Delete(sid, uid) => DeleteKeepsIndex(before, sid, uid, ttl);
      case DeleteUser(uid) => DeleteUserKeepsIndex(before, uid, ttl);
      case Wait(d) =>
        forall s | Live(Advance(before, d), Session(s)) ensures InIndex(before, s) {
          assert Live(before, Session(s));
        }
      case Traffic(db) => if Enabled(before, ops[n - 1]) { TrafficKeepsIndex(before, db, ttl); }
    }
  }

  /** Bulk revocation: right after DeleteUserSessions(u), in any run, no session resolves to u. */
  lemma BulkDeleteRevokes(st: State, ops: seq<Op>, ttl: nat, n: nat, uid: string, sid: string)
    requires NoSessions(st) && ttl > 0 && n <= |ops|
    requires Normalized(uid)
    ensures var after := DeleteUserEffect(At(st, ops, ttl, n), uid, true).0;
            Get(after, Session(sid)) != Some(Text(uid))
  {
    IndexComplete(st, ops, ttl, n);
    var before := At(st, ops, ttl, n);
    if Live(before, Session(sid)) {
      assert InIndex(before, sid);
    }
  }

  /** Bulk deletion of one user leaves exactly the other users' live sessions, if and only if no other
      user's live session is a (stale) member of that user's set. */
  lemma BulkDeleteExactIff(st: State, ttl: nat, uid: string)
    requires Indexed(st, ttl)
    ensures var after := DeleteUserScript(st, uid);
            (forall sid :: Get(after, Session(sid)) ==
               if Get(st, Session(sid)) == Some(Text(uid)) then None else Get(st, Session(sid)))
            <==>
            (forall sid | sid in SMembers(st, UserSessions(uid)) ::
               Get(st, Session(sid)) == None || Get(st, Session(sid)) == Some(Text(uid)))
  {
    var after := DeleteUserScript(st, uid);
    var ids := SMembers(st, UserSessions(uid));
    forall sid
      ensures Get(after, Session(sid)) == if sid in ids then None else Get(st, Session(sid))
      ensures Get(st, Session(sid)) == Some(Text(uid)) ==> sid in ids
    {
      if Live(st, Session(sid)) {
        assert InIndex(st, sid);
      }
    }
  }

  lemma CreatedTwice(st: State, sid: string, uid: string, uid': string, ttl: nat)
    requires UserSessions(uid) !in st.db && ttl > 0 && uid != uid'
    ensures var twice := CreateScript(CreateScript(st, sid, uid, ttl), sid, uid', ttl);
            Get(twice, Session(sid)) == Some(Text(uid')) && sid in SMembers(twice, UserSessions(uid))
  {
  }

  /** The failing run: an ID reused for a second user is still in the first user's set, so the first user's
      bulk deletion ends the second user's session. */
  lemma ReusedIDLosesSession(st: State, sid: string, uid: string, uid': string, ttl: nat)
    requires NoSessions(st) && ttl > 0 && uid != uid'
    ensures var ops := [Create(sid, uid), Create(sid, uid'), DeleteUser(uid)];
            && Get(At(st, ops, ttl, 2), Session(sid)) == Some(Text(uid'))
            && Get(At(st, ops, ttl, 3), Session(sid)) == None
  {
    var ops := [Create(sid, uid), Create(sid, uid'), DeleteUser(uid)];
    assert IndexKey(UserSessions(uid));
    CreatedTwice(st, sid, uid, uid', ttl);
    assert At(st, ops, ttl, 0) == st;
    assert At(st, ops, ttl, 1) == CreateScript(st, sid, uid, ttl);
    assert At(st, ops, ttl, 2) == CreateScript(CreateScript(st, sid, uid, ttl), sid, uid', ttl);
  }

  // ---- Refinement of a plain timed map from session to user ----

  datatype Record = Record(user: string, expiry: nat)

  /** `m` holds exactly the live sessions of the key space. */
  ghost predicate Shows(st: State, m: map<string, Record>) {
    forall sid ::
      && (sid in m <==> Live(st, Session(sid)))
      && (sid in m ==> st.db[Session(sid)] == Entry(Text(m[sid].user), Some(m[sid].expiry)))
  }

  /** The specification: no index, no scripts. */
  ghost function PlainNext(m: map<string, Record>, now: nat, op: Op, ttl: nat): map<string, Record> {
    match op
    case Create(sid, uid) => m[sid := Record(uid, now + ttl)]
    case Delete(sid, _) => m - {sid}
    case DeleteUser(uid) => map sid | sid in m && m[sid].user != uid :: m[sid]
    case Wait(d) => map sid | sid in m && now + d < m[sid].expiry :: m[sid]
    case Traffic(_) => m
  }

  ghost function PlainAt(st: State, ops: seq<Op>, ttl: nat, n: nat): map<string, Record>
    requires n <= |ops|
  {
    if n == 0 then map[]
    else PlainNext(PlainAt(st, ops, ttl, n - 1), At(st, ops, ttl, n - 1).now, ops[n - 1], ttl)
  }

  /** Session identifiers are minted fresh. */
  ghost predicate FreshIDs(ops: seq<Op>) {
    forall i, j | 0 <= i < j < |ops| && ops[i].Create? && ops[j].Create? :: ops[i].sid != ops[j].sid
  }

  ghost predicate Created(ops: seq<Op>, n: nat, sid: string, uid: string)
    requires n <= |ops|
  {
    exists i | 0 <= i < n :: ops[i] == Create(sid, uid)
  }

  /** Set members and session values come from the one create of that session. */
  ghost predicate Traced(st: State, ops: seq<Op>, n: nat)
    requires n <= |ops|
  {
    && (forall sid | Session(sid) in st.db && st.db[Session(sid)].value.Text? ::
          Created(ops, n, sid, st.db[Session(sid)].value.text))
    && (forall uid | UserSessions(uid) in st.db && st.db[UserSessions(uid)].value.Members? ::
          forall sid | sid in st.db[UserSessions(uid)].value.ids :: Created(ops, n, sid, uid))
  }

  lemma TracedLater(st: State, ops: seq<Op>, n: nat)
    requires n < |ops| && Traced(st, ops, n)
    ensures Traced(st, ops, n + 1)
  {
  }

  lemma CreateTraced(st: State, ops: seq<Op>, ttl: nat, n: nat, sid: string, uid: string)
    requires n <= |ops| && Traced(st, ops, n) && Created(ops, n, sid, uid)
    ensures Traced(CreateScript(st, sid, uid, ttl), ops, n)
  {
  }

  lemma DeletesTraced(st: State, ops: seq<Op>, n: nat, sid: string, uid: string)
    requires n <= |ops| && Traced(st, ops, n)
    ensures Traced(DeleteScript(st, sid, uid), ops, n)
    ensures Traced(DeleteUserScript(st, uid), ops, n)
  {
  }

  lemma StepTraced(st: State, ops: seq<Op>, ttl: nat, n: nat)
    requires n < |ops| && Traced(st, ops, n + 1)
    ensures Traced(Next(st, ops[n], ttl), ops, n + 1)
  {
    match ops[n]
    case Create(sid, uid) => CreateTraced(st, ops, ttl, n + 1, sid, uid);
    case Delete(sid, uid) => DeletesTraced(st, ops, n + 1, sid, uid);
    case DeleteUser(uid) => DeletesTraced(st, ops, n + 1, "", uid);
    case Wait(d) =>
    case Traffic(db) =>
      assert forall sid :: IndexKey(Session(sid));
      assert forall uid :: IndexKey(UserSessions(uid));
  }

  lemma {:induction false} AlwaysTraced(st: State, ops: seq<Op>, ttl: nat, n: nat)
    requires NoSessions(st) && n <= |ops|
    ensures Traced(At(st, ops, ttl, n), ops, n)
  {
    if n == 0 {
      assert forall sid :: IndexKey(Session(sid));
      assert forall uid :: IndexKey(UserSessions(uid));
    } else {
      AlwaysTraced(st, ops, ttl, n - 1);
      TracedLater(At(st, ops, ttl, n - 1), ops, n - 1);
      StepTraced(At(st, ops, ttl, n - 1), ops, ttl, n - 1);
    }
  }

  /** With fresh IDs the live members of a user's set are exactly that user's live sessions. */
  lemma MembersAreOwn(st: State, ops: seq<Op>, ttl: nat, n: nat, uid: string, sid: string)
    requires FreshIDs(ops) && n <= |ops| && Indexed(st, ttl) && Traced(st, ops, n) && Live(st, Session(sid))
    ensures sid in SMembers(st, UserSessions(uid)) <==> st.db[Session(sid)].value.text == uid
  {
    if sid in SMembers(st, UserSessions(uid)) {
      assert Created(ops, n, sid, uid) && Created(ops, n, sid, st.db[Session(sid)].value.text);
    }
    assert InIndex(st, sid);
  }

  lemma DeleteUserIsPlain(st: State, ops: seq<Op>, ttl: nat, n: nat, uid: string, m: map<string, Record>)
    requires FreshIDs(ops) && n <= |ops| && Indexed(st, ttl) && Traced(st, ops, n) && Shows(st, m)
    ensures Shows(DeleteUserScript(st, uid), map sid | sid in m && m[sid].user != uid :: m[sid])
  {
    forall sid | Live(st, Session(sid))
      ensures sid in SMembers(st, UserSessions(uid)) <==> st.db[Session(sid)].value.text == uid
    {
      MembersAreOwn(st, ops, ttl, n, uid, sid);
    }
  }

  lemma CreateIsPlain(st: State, sid: string, uid: string, ttl: nat, m: map<string, Record>)
    requires Shows(st, m) && ttl > 0
    ensures Shows(CreateScript(st, sid, uid, ttl), m[sid := Record(uid, st.now + ttl)])
  {
  }

  lemma OtherStepsArePlain(st: State, op: Op, ttl: nat, m: map<string, Record>)
    requires Shaped(st, ttl) && Shows(st, m) && ttl > 0 && !op.DeleteUser?
    ensures Shows(Next(st, op, ttl), PlainNext(m, st.now, op, ttl))
  {
    match op
    case Create(sid, uid) => CreateIsPlain(st, sid, uid, ttl, m);
    case Traffic(db) => assert forall sid :: IndexKey(Session(sid));
    case _ =>
  }

  lemma StepIsPlain(st: State, ops: seq<Op>, ttl: nat, n: nat, m: map<string, Record>)
    requires FreshIDs(ops) && n < |ops| && ttl > 0
    requires Indexed(st, ttl) && Traced(st, ops, n) && Shows(st, m)
    ensures Shows(Next(st, ops[n], ttl), PlainNext(m, st.now, ops[n], ttl))
  {
    if ops[n].DeleteUser? {
      DeleteUserIsPlain(st, ops, ttl, n, ops[n].uid, m);
    } else {
      OtherStepsArePlain(st, ops[n], ttl, m);
    }
  }

  lemma RunStepIsPlain(st: State, ops: seq<Op>, ttl: nat, n: nat)
    requires NoSessions(st) && FreshIDs(ops) && ttl > 0 && n < |ops|
    requires Shows(At(st, ops, ttl, n), PlainAt(st, ops, ttl, n))
    ensures Shows(Next(At(st, ops, ttl, n), ops[n], ttl),
                  PlainNext(PlainAt(st, ops, ttl, n), At(st, ops, ttl, n).now, ops[n], ttl))
  {
    IndexComplete(st, ops, ttl, n);
    AlwaysTraced(st, ops, ttl, n);
    StepIsPlain(At(st, ops, ttl, n), ops, ttl, n, PlainAt(st, ops, ttl, n));
  }

  /** With fresh session identifiers the store is, at every point of every run, a plain timed map: creating
      binds, deleting unbinds one, and bulk deletion unbinds exactly that user's sessions, whatever stale
      members its set still holds. */
  lemma {:induction false} StoreRefinesMap(st: State, ops: seq<Op>, ttl: nat, n: nat)
    requires NoSessions(st) && FreshIDs(ops) && ttl > 0 && n <= |ops|
    ensures Shows(At(st, ops, ttl, n), PlainAt(st, ops, ttl, n))
  {
    if n == 0 {
      assert forall sid :: IndexKey(Session(sid));
    } else {
      StoreRefinesMap(st, ops, ttl, n - 1);
      RunStepIsPlain(st, ops, ttl, n - 1);
    }
  }

  /** What the comment on CreateSession demands: callers pass identifiers that validation accepts. */
  ghost predicate CallersValidate(ops: seq<Op>) {
    forall i | 0 <= i < |ops| && ops[i].Create? :: Normalized(ops[i].sid) && Normalized(ops[i].uid)
  }

  /** In every run a lookup answers from that map. */
  lemma LookupAnswersFromMap(st: State, ops: seq<Op>, ttl: nat, n: nat, raw: string)
    requires NoSessions(st) && FreshIDs(ops) && CallersValidate(ops) && ttl > 0 && n <= |ops|
    requires RequiredID(raw).Ok?
    ensures var id, m := RequiredID(raw).value, PlainAt(st, ops, ttl, n);
            LookupResult(At(st, ops, ttl, n), raw, true) ==
            if id in m then Ok(m[id].user) else Err(Unauthenticated)
  {
    StoreRefinesMap(st, ops, ttl, n);
    var id, m := RequiredID(raw).value, PlainAt(st, ops, ttl, n);
    LookupOnMap(At(st, ops, ttl, n), m, id, raw);
    if id in m {
      AlwaysTraced(st, ops, ttl, n);
      UserNormalized(At(st, ops, ttl, n), ops, n, m, id);
    }
  }

  lemma LookupOnMap(st: State, m: map<string, Record>, id: string, raw: string)
    requires Shows(st, m) && RequiredID(raw) == Ok(id)
    ensures id !in m ==> LookupResult(st, raw, true) == Err(Unauthenticated)
    ensures id in m && Normalized(m[id].user) ==> LookupResult(st, raw, true) == Ok(m[id].user)
  {
  }

  lemma UserNormalized(st: State, ops: seq<Op>, n: nat, m: map<string, Record>, id: string)
    requires n <= |ops| && Traced(st, ops, n) && CallersValidate(ops) && Shows(st, m) && id in m
    ensures Normalized(m[id].user)
  {
  }

  // ---- What the three changing operations do, told without scripts ----

  lemma ScriptBinds(st: State, sid: string, uid: string, ttl: nat)
    requires ttl > 0
    ensures var after := CreateScript(st, sid, uid, ttl);
            && Session(sid) in after.db && after.db[Session(sid)] == Entry(Text(uid), Some(st.now + ttl))
            && sid in SMembers(after, UserSessions(uid))
            && forall other | other != sid :: Get(after, Session(other)) == Get(st, Session(other))
  {
  }

  /** Creating succeeds exactly for valid segments when Redis is reached. Then the session belongs to its user for
      ttl from now and stands in the user's set, and every other session reads as before; otherwise nothing changes. */
  lemma CreateBinds(st: State, sid: string, uid: string, ttl: nat, up: bool)
    requires ttl > 0
    ensures var (after, r) := CreateEffect(st, sid, uid, ttl, up);
            && (r.Ok? <==> ValidSegment(sid) && ValidSegment(uid) && up)
            && (r.Err? ==> after == st)
            && (r.Ok? ==>
                  && Session(sid) in after.db && after.db[Session(sid)] == Entry(Text(uid), Some(st.now + ttl))
                  && sid in SMembers(after, UserSessions(uid))
                  && forall other | other != sid :: Get(after, Session(other)) == Get(st, Session(other)))
  {
    ScriptBinds(st, sid, uid, ttl);
    CreateByScript(st, sid, uid, ttl, up, CreateScript(st, sid, uid, ttl), ValidSegment(sid) && ValidSegment(uid));
  }

  lemma CreateByScript(st: State, sid: string, uid: string, ttl: nat, up: bool, after: State, valid: bool)
    requires after == CreateScript(st, sid, uid, ttl) && valid == (ValidSegment(sid) && ValidSegment(uid))
    ensures CreateEffect(st, sid, uid, ttl, up) ==
            if !valid then (st, Err(InvalidArgument)) else if !up then (st, Err(Unavailable)) else (after, Ok(()))
  {
  }

  /** The user to whom the session reads as belonging, if any. */
  function Owner(st: State, id: string): Option<string> {
    match Get(st, Session(id))
    case Some(Text(uid)) => if RequiredID(uid).Ok? then Some(RequiredID(uid).value) else None
    case _ => None
  }

  lemma LookupIsOwner(st: State, id: string, up: bool)
    requires Normalized(id) && (Live(st, Session(id)) ==> st.db[Session(id)].value.Text?)
    ensures LookupResult(st, id, up) == if !up then Err(Unavailable) else if Owner(st, id).Some? then Ok(Owner(st, id).value) else Err(Unauthenticated)
  {
  }

  /** The script on the session's own key and its owner's set, and nothing else. */
  lemma ScriptUnbinds(st: State, id: string, uid: string)
    ensures var after := DeleteScript(st, id, uid);
            && Get(after, Session(id)) == None
            && (Live(st, Session(id)) ==> id !in SMembers(after, UserSessions(uid)))
            && (forall other | other != id :: Get(after, Session(other)) == Get(st, Session(other)))
            && (forall uid', other | uid' != uid || other != id ::
                  other in SMembers(after, UserSessions(uid')) <==> other in SMembers(st, UserSessions(uid')))
  {
  }

  lemma DeleteById(st: State, raw: string, id: string, up: bool, upScript: bool)
    requires RequiredID(raw) == Ok(id)
    requires Live(st, Session(id)) ==> st.db[Session(id)].value.Text?
    ensures DeleteEffect(st, raw, up, upScript) ==
            if !up then (st, Err(Unavailable))
            else if Owner(st, id).None? then (st, Ok(()))
            else if !upScript then (st, Err(Unavailable))
            else (DeleteScript(st, id, Owner(st, id).value), Ok(()))
  {
    AcceptedIsNormalized(raw);
    LookupIsOwner(st, id, up);
  }

  /** Deleting succeeds exactly when both calls that are needed reach Redis. Then the session is out of its owner's
      set, everything else reads as before, and the session is gone if and only if what it stored is a user ID that
      validation accepts; otherwise nothing changes. */
  lemma DeleteUnbindsIff(st: State, raw: string, id: string, up: bool, upScript: bool)
    requires RequiredID(raw) == Ok(id)
    requires Live(st, Session(id)) ==> st.db[Session(id)].value.Text?
    ensures var (after, r) := DeleteEffect(st, raw, up, upScript);
            && (r.Ok? <==> up && (Owner(st, id).Some? ==> upScript))
            && (r.Err? ==> after == st)
            && (r.Ok? ==>
                  && (Get(after, Session(id)) == None <==> (Live(st, Session(id)) ==> Owner(st, id).Some?))
                  && (Owner(st, id).Some? ==> id !in SMembers(after, UserSessions(Owner(st, id).value)))
                  && (forall other | other != id :: Get(after, Session(other)) == Get(st, Session(other)))
                  && (forall uid, other | other != id :: other in SMembers(after, UserSessions(uid)) <==> other in SMembers(st, UserSessions(uid))))
  {
    DeleteById(st, raw, id, up, upScript);
    if Owner(st, id).Some? {
      ScriptUnbinds(st, id, Owner(st, id).value);
    }
  }

  /** A user ID of 65 letters: a valid segment, and too long for validation. */
  function LongUserID(): string {
    seq(65, i => 'a')
  }

  lemma LongIsRefused()
    ensures ValidSegment(LongUserID()) && RequiredID(LongUserID()).Err?
  {
    var uid := LongUserID();
    assert Plain(uid);
    PlainIsValid(uid);
    Strings.TrimSpaceTrims(uid);
    Strings.AsciiByteLen(uid);
  }

  /** The failing run: a session that CreateSession accepted for a user ID that validation refuses, such as one of 65
      bytes, is still there after DeleteSession has answered Ok. */
  lemma DeletedSessionStays(st: State, sid: string, uid: string, ttl: nat)
    requires ttl > 0 && Normalized(sid) && ValidSegment(uid) && RequiredID(uid).Err?
    ensures var (created, r) := CreateEffect(st, sid, uid, ttl, true);
            && r.Ok? && Get(created, Session(sid)) == Some(Text(uid))
            && DeleteEffect(created, sid, true, true) == (created, Ok(()))
  {
    NormalizedIsSegment(sid);
    CreateBinds(st, sid, uid, ttl, true);
    OwnerlessStays(CreateEffect(st, sid, uid, ttl, true).0, sid, uid);
  }

  lemma OwnerlessStays(st: State, sid: string, uid: string)
    requires Normalized(sid) && RequiredID(uid).Err? && Get(st, Session(sid)) == Some(Text(uid))
    ensures DeleteEffect(st, sid, true, true) == (st, Ok(()))
  {
    DeleteById(st, sid, sid, true, true);
  }

  /** What the store holds at a point of a run of validated callers with fresh IDs. */
  ghost predicate InRun(st: State, m: map<string, Record>, ttl: nat) {
    && Indexed(st, ttl) && Shows(st, m)
    && forall id | id in m :: Normalized(m[id].user)
  }

  lemma RunPoint(st: State, ops: seq<Op>, ttl: nat, n: nat)
    requires NoSessions(st) && FreshIDs(ops) && CallersValidate(ops) && ttl > 0 && n <= |ops|
    ensures InRun(At(st, ops, ttl, n), PlainAt(st, ops, ttl, n), ttl)
  {
    IndexComplete(st, ops, ttl, n);
    StoreRefinesMap(st, ops, ttl, n);
    AlwaysTraced(st, ops, ttl, n);
    forall id | id in PlainAt(st, ops, ttl, n) ensures Normalized(PlainAt(st, ops, ttl, n)[id].user) {
      UserNormalized(At(st, ops, ttl, n), ops, n, PlainAt(st, ops, ttl, n), id);
    }
  }

  lemma OwnerInMap(st: State, m: map<string, Record>, ttl: nat, id: string)
    requires InRun(st, m, ttl)
    ensures Owner(st, id) == if id in m then Some(m[id].user) else None
    ensures Live(st, Session(id)) ==> st.db[Session(id)].value.Text?
  {
  }

  lemma UnboundShows(st: State, after: State, m: map<string, Record>, id: string, uid: string)
    requires Shows(st, m) && after == DeleteScript(st, id, uid)
    ensures Shows(after, m - {id})
  {
  }

  /** In every run, DeleteSession answers Ok exactly when it reaches Redis, with the script too if the session is
      there; then the store shows the map without the session, and the session is out of its user's set. */
  lemma DeletedIsUnbound(st: State, ops: seq<Op>, ttl: nat, n: nat, raw: string, id: string, up: bool, upScript: bool)
    requires NoSessions(st) && FreshIDs(ops) && CallersValidate(ops) && ttl > 0 && n <= |ops|
    requires RequiredID(raw) == Ok(id)
    ensures var before, m := At(st, ops, ttl, n), PlainAt(st, ops, ttl, n);
            var (after, r) := DeleteEffect(before, raw, up, upScript);
            && (r.Ok? <==> up && (id in m ==> upScript))
            && (r.Err? ==> after == before)
            && (r.Ok? ==> Shows(after, m - {id}) && (id in m ==> id !in SMembers(after, UserSessions(m[id].user))))
  {
    var before, m := At(st, ops, ttl, n), PlainAt(st, ops, ttl, n);
    RunPoint(st, ops, ttl, n);
    OwnerInMap(before, m, ttl, id);
    DeleteById(before, raw, id, up, upScript);
    if id in m {
      ScriptUnbinds(before, id, m[id].user);
      UnboundShows(before, DeleteScript(before, id, m[id].user), m, id, m[id].user);
    } else {
      assert m - {id} == m;
    }
  }

  /** Creating succeeds exactly when Redis is reached; then the store shows the map with the session bound to its user
      for ttl from now, and a lookup of it answers that user; otherwise nothing changes. */
  ghost predicate Binds(st: State, m: map<string, Record>, sid: string, uid: string, ttl: nat, up: bool) {
    var (after, r) := CreateEffect(st, sid, uid, ttl, up);
    && (r.Ok? <==> up)
    && (r.Err? ==> after == st)
    && (r.Ok? ==> Shows(after, m[sid := Record(uid, st.now + ttl)]) && LookupResult(after, sid, true) == Ok(uid))
  }

  lemma CreateShows(st: State, m: map<string, Record>, sid: string, uid: string, ttl: nat, up: bool)
    requires Shows(st, m) && ttl > 0 && Normalized(sid) && Normalized(uid)
    ensures Binds(st, m, sid, uid, ttl, up)
  {
    NormalizedIsSegment(sid);
    NormalizedIsSegment(uid);
    CreateIsPlain(st, sid, uid, ttl, m);
    var script := CreateScript(st, sid, uid, ttl);
    CreateByScript(st, sid, uid, ttl, up, script, true);
    BoundLookup(script, m[sid := Record(uid, st.now + ttl)], sid, uid);
  }

  /** In every run, creating a session binds it in the map that the store shows. */
  lemma CreatedIsBound(st: State, ops: seq<Op>, ttl: nat, n: nat, sid: string, uid: string, up: bool)
    requires NoSessions(st) && FreshIDs(ops) && ttl > 0 && n <= |ops|
    requires Normalized(sid) && Normalized(uid)
    ensures Binds(At(st, ops, ttl, n), PlainAt(st, ops, ttl, n), sid, uid, ttl, up)
  {
    StoreRefinesMap(st, ops, ttl, n);
    CreateShows(At(st, ops, ttl, n), PlainAt(st, ops, ttl, n), sid, uid, ttl, up);
  }

  lemma BoundLookup(st: State, m: map<string, Record>, sid: string, uid: string)
    requires Shows(st, m) && sid in m && m[sid].user == uid && Normalized(sid) && Normalized(uid)
    ensures LookupResult(st, sid, true) == Ok(uid)
  {
    LookupOnMap(st, m, sid, sid);
  }

  /** In every run a successful DeleteUserSessions shows the map without exactly that user's sessions. */
  lemma UserDeletedIsUnbound(st: State, ops: seq<Op>, ttl: nat, n: nat, raw: string, uid: string, up: bool)
    requires NoSessions(st) && FreshIDs(ops) && CallersValidate(ops) && ttl > 0 && n <= |ops|
    requires RequiredID(raw) == Ok(uid)
    ensures var before, m := At(st, ops, ttl, n), PlainAt(st, ops, ttl, n);
            var (after, r) := DeleteUserEffect(before, raw, up);
            && (r.Ok? <==> up)
            && (r.Err? ==> after == before)
            && (r.Ok? ==> Shows(after, map sid | sid in m && m[sid].user != uid :: m[sid]))
  {
    var before, m := At(st, ops, ttl, n), PlainAt(st, ops, ttl, n);
    RunPoint(st, ops, ttl, n);
    AlwaysTraced(st, ops, ttl, n);
    DeleteUserIsPlain(before, ops, ttl, n, uid, m);
  }

  // ---- The operations as steps of the runs ----

  lemma StepScripts(st: State, id: string, uid: string, ttl: nat)
    ensures Next(st, Create(id, uid), ttl) == CreateScript(st, id, uid, ttl)
    ensures Next(st, Delete(id, uid), ttl) == DeleteScript(st, id, uid)
    ensures Next(st, DeleteUser(uid), ttl) == DeleteUserScript(st, uid)
  {
  }

  lemma CreateIsStep(st: State, sid: string, uid: string, ttl: nat, up: bool)
    ensures CreateEffect(st, sid, uid, ttl, up).0
         == if up && ValidSegment(sid) && ValidSegment(uid) then Next(st, Create(sid, uid), ttl) else st
  {
    StepScripts(st, sid, uid, ttl);
    CreateByScript(st, sid, uid, ttl, up, CreateScript(st, sid, uid, ttl), ValidSegment(sid) && ValidSegment(uid));
  }

  /** The set that the script works on is the one of the user that the GET before it returned. */
  lemma DeleteIsStep(st: State, raw: string, id: string, ttl: nat, up: bool, upScript: bool)
    requires RequiredID(raw) == Ok(id)
    requires Live(st, Session(id)) ==> st.db[Session(id)].value.Text?
    ensures DeleteEffect(st, raw, up, upScript).0
         == if up && upScript && Owner(st, id).Some? then Next(st, Delete(id, Owner(st, id).value), ttl) else st
  {
    DeleteById(st, raw, id, up, upScript);
    StepScripts(st, id, if Owner(st, id).Some? then Owner(st, id).value else "", ttl);
  }

  lemma DeleteUserIsStep(st: State, raw: string, uid: string, ttl: nat, up: bool)
    requires RequiredID(raw) == Ok(uid)
    ensures DeleteUserEffect(st, raw, up).0 == if up then Next(st, DeleteUser(uid), ttl) else st
  {
    StepScripts(st, "", uid, ttl);
  }
}
