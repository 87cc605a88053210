/** The shared timed key space: a clock, and a map from key to value and expiry.
    A key is live until the clock reaches its expiry; a dead key reads as absent. */
module Redis {
  import opened Wrappers
  import opened Keys

  /** The JSON payload of a join token (join_tokens.go). */
  datatype TokenPayload = TokenPayload(userID: string, characterID: string, serverID: string, serverAddr: string, expiresAt: int)

  /** The JSON payload of a game server record (game_servers.go). */
  datatype ServerPayload = ServerPayload(id: string, addr: string, expiresAt: int)

  datatype Value =
    | Text(text: string)
    | Count(count: nat)
    | Members(ids: set<string>)
    | TokenDoc(token: TokenPayload)
    | ServerDoc(server: ServerPayload)

  /** `expiry` is None for a key without a time to live. */
  datatype Entry = Entry(value: Value, expiry: Option<nat>)

  datatype State = State(now: nat, db: map<Key, Entry>)

  predicate Alive(e: Entry, now: nat) {
    e.expiry.None? || now < e.expiry.value
  }

  predicate Live(st: State, k: Key) {
    k in st.db && Alive(st.db[k], st.now)
  }

  function Get(st: State, k: Key): Option<Value> {
    if Live(st, k) then Some(st.db[k].value) else None
  }

  /** SET key value PX ttl. */
  function Set(st: State, k: Key, v: Value, ttl: nat): State {
    st.(db := st.db[k := Entry(v, Some(st.now + ttl))])
  }

  /** SET key value NX PX ttl. */
  function SetNX(st: State, k: Key, v: Value, ttl: nat): (State, bool) {
    if Live(st, k) then (st, false) else (Set(st, k, v, ttl), true)
  }

  function Del(st: State, k: Key): State {
    st.(db := st.db - {k})
  }

  function GetDel(st: State, k: Key): (State, Option<Value>) {
    (Del(st, k), Get(st, k))
  }

  /** PEXPIRE; false when the key is absent. */
  function Expire(st: State, k: Key, ttl: nat): (State, bool) {
    if Live(st, k) then (st.(db := st.db[k := st.db[k].(expiry := Some(st.now + ttl))]), true) else (st, false)
  }

  /** INCR: a new counter starts at 1 without a time to live; an existing one keeps its expiry. */
  function Incr(st: State, k: Key): (State, nat) {
    if Live(st, k) && st.db[k].value.Count? then
      var n := st.db[k].value.count + 1;
      (st.(db := st.db[k := st.db[k].(value := Count(n))]), n)
    else (st.(db := st.db[k := Entry(Count(1), None)]), 1)
  }

  function SMembers(st: State, k: Key): set<string> {
    if Live(st, k) && st.db[k].value.Members? then st.db[k].value.ids else {}
  }

  /** SADD: a new set has no time to live; an existing one keeps its expiry. */
  function SAdd(st: State, k: Key, id: string): State {
    var expiry := if Live(st, k) && st.db[k].value.Members? then st.db[k].expiry else None;
    st.(db := st.db[k := Entry(Members(SMembers(st, k) + {id}), expiry)])
  }

  /** SREM: a set left empty is removed. */
  function SRem(st: State, k: Key, id: string): State {
    if Live(st, k) && st.db[k].value.Members? then
      var rest := st.db[k].value.ids - {id};
      if rest == {} then Del(st, k) else st.(db := st.db[k := st.db[k].(value := Members(rest))])
    else st
  }

  function Advance(st: State, d: nat): State {
    st.(now := st.now + d)
  }

  /** The server process that holds the key space. Each method is one atomic command. */
  class Client {
    var now: nat
    var db: map<Key, Entry>

    constructor (start: nat)
      ensures Space() == State(start, map[])
    {
      now := start;
      db := map[];
    }

    function Space(): State
      reads this
    {
      State(now, db)
    }

    method GetValue(k: Key) returns (v: Option<Value>)
      ensures v == Get(Space(), k)
    {
      if k in db && (db[k].expiry.None? || now < db[k].expiry.value) {
        v := Some(db[k].value);
      } else {
        v := None;
      }
    }

    method SetValue(k: Key, v: Value, ttl: nat)
      modifies this`db
      ensures Space() == Set(old(Space()), k, v, ttl)
    {
      db := db[k := Entry(v, Some(now + ttl))];
    }

    method SetIfAbsent(k: Key, v: Value, ttl: nat) returns (stored: bool)
      modifies this`db
      ensures (Space(), stored) == SetNX(old(Space()), k, v, ttl)
    {
      var current := GetValue(k);
      if current.None? {
        SetValue(k, v, ttl);
      }
      stored := current.None?;
    }

    method Delete(k: Key)
      modifies this`db
      ensures Space() == Del(old(Space()), k)
    {
      db := db - {k};
    }

    method GetAndDelete(k: Key) returns (v: Option<Value>)
      modifies this`db
      ensures (Space(), v) == GetDel(old(Space()), k)
    {
      v := GetValue(k);
      db := db - {k};
    }

    method ExpireIn(k: Key, ttl: nat) returns (found: bool)
      modifies this`db
      ensures (Space(), found) == Expire(old(Space()), k, ttl)
    {
      var current := GetValue(k);
      found := current.Some?;
      if found {
        db := db[k := Entry(current.value, Some(now + ttl))];
      }
    }

    method Increment(k: Key) returns (n: nat)
      modifies this`db
      ensures (Space(), n) == Incr(old(Space()), k)
    {
      var current := GetValue(k);
      if current.Some? && current.value.Count? {
        n := current.value.count + 1;
        db := db[k := Entry(Count(n), db[k].expiry)];
      } else {
        n := 1;
        db := db[k := Entry(Count(1), None)];
      }
    }

    method MembersOf(k: Key) returns (ids: set<string>)
      ensures ids == SMembers(Space(), k)
    {
      var current := GetValue(k);
      ids := if current.Some? && current.value.Members? then current.value.ids else {};
    }

    method AddMember(k: Key, id: string)
      modifies this`db
      ensures Space() == SAdd(old(Space()), k, id)
    {
      var current := GetValue(k);
      var present := current.Some? && current.value.Members?;
      var ids := if present then current.value.ids else {};
      db := db[k := Entry(Members(ids + {id}), if present then db[k].expiry else None)];
    }

    method RemoveMember(k: Key, id: string)
      modifies this`db
      ensures Space() == SRem(old(Space()), k, id)
    {
      var current := GetValue(k);
      if current.Some? && current.value.Members? {
        var rest := current.value.ids - {id};
        if rest == {} {
          db := db - {k};
        } else {
          db := db[k := Entry(Members(rest), db[k].expiry)];
        }
      }
    }
  }

  // ---- The key space as text keys ----

  /** `text` is the key space as the real server stores it, with every key replaced by its name. */
  ghost predicate Represents(name: Key -> Result<string>, text: map<string, Entry>, st: State) {
    && (forall k | k in st.db :: name(k).Ok? && name(k).value in text && text[name(k).value] == st.db[k])
    && (forall s | s in text :: exists k :: k in st.db && name(k) == Ok(s))
  }

  ghost predicate InjectiveNames(name: Key -> Result<string>) {
    forall k, k' | name(k).Ok? && name(k) == name(k') :: k == k'
  }

  lemma NamedUpdate(name: Key -> Result<string>, text: map<string, Entry>, st: State, k: Key, e: Entry)
    requires InjectiveNames(name) && Represents(name, text, st) && name(k).Ok?
    ensures var s := name(k).value;
            && (s in text <==> k in st.db)
            && (k in st.db ==> text[s] == st.db[k])
            && Represents(name, text[s := e], st.(db := st.db[k := e]))
            && Represents(name, text - {s}, st.(db := st.db - {k}))
  {
    var s := name(k).value;
    forall s' | s' in text[s := e]
      ensures exists k' :: k' in st.db[k := e] && name(k') == Ok(s')
    {
      if s' == s {
        assert k in st.db[k := e];
      } else {
        var k' :| k' in st.db && name(k') == Ok(s');
        assert k' in st.db[k := e];
      }
    }
    forall s' | s' in text - {s}
      ensures exists k' :: k' in st.db - {k} && name(k') == Ok(s')
    {
      var k' :| k' in st.db && name(k') == Ok(s');
      assert k' in st.db - {k};
    }
  }

  /** Because rendering is injective, writing and deleting under the rendered key is writing and deleting
      under the key: no command on one key touches another key's entry. */
  lemma TextKeysFaithful(app: string, env: string, text: map<string, Entry>, st: State, k: Key, e: Entry)
    requires NewKeyBuilder(app, env).Ok?
    requires var name := (k: Key) => Render(NewKeyBuilder(app, env).value, k);
             Represents(name, text, st) && name(k).Ok?
    ensures var name := (k: Key) => Render(NewKeyBuilder(app, env).value, k);
            && (name(k).value in text <==> k in st.db)
            && (k in st.db ==> text[name(k).value] == st.db[k])
            && Represents(name, text[name(k).value := e], st.(db := st.db[k := e]))
            && Represents(name, text - {name(k).value}, st.(db := st.db - {k}))
  {
    var kb := NewKeyBuilder(app, env).value;
    var name := (k: Key) => Render(kb, k);
    forall k, k' | name(k).Ok? && name(k) == name(k') ensures k == k' {
      RenderInjective(app, env, k, app, env, k');
    }
    NamedUpdate(name, text, st, k, e);
  }
}
