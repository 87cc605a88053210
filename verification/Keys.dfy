/** Redis key construction of internal/cache/keys.go: {app}:{env}:{kind}:{segments}. */
module Keys {
  import opened Wrappers
  import opened Text

  const SEPARATOR: char := ':'

  /** validateSegment. */
  predicate ValidSegment(seg: string) {
    TrimSpace(seg) != "" && SEPARATOR !in seg && !ContainsAny(seg, " \t\r\n")
  }

  datatype KeyBuilder = KeyBuilder(prefix: string)

  function NewKeyBuilder(app: string, env: string): Result<KeyBuilder> {
    if !ValidSegment(app) then Err(InvalidArgument)
    else if !ValidSegment(env) then Err(InvalidArgument)
    else Ok(KeyBuilder(app + [SEPARATOR] + env))
  }

  predicate AllValid(parts: seq<string>) {
    forall i | 0 <= i < |parts| :: ValidSegment(parts[i])
  }

  function Build(kb: KeyBuilder, parts: seq<string>): Result<string> {
    if kb.prefix == "" then Err(Unavailable)
    else if parts == [] then Err(InvalidArgument)
    else if !AllValid(parts) then Err(InvalidArgument)
    else Ok(kb.prefix + [SEPARATOR] + Join(parts, SEPARATOR))
  }

  /** The keys the builder's methods name, before they are rendered to text. */
  datatype Key =
    | JoinToken(id: string)
    | Session(id: string)
    | UserSessions(id: string)
    | Server(id: string)
    | ServerSessions(id: string)
    | ServersIndex
    | CharacterLock(id: string)
    | RateLimit(parts: seq<string>)

  function Segments(k: Key): (parts: seq<string>)
    ensures parts != []
  {
    match k
    case JoinToken(id) => ["join_token", id]
    case Session(id) => ["session", id]
    case UserSessions(id) => ["user_sessions", id]
    case Server(id) => ["server", id]
    case ServerSessions(id) => ["server_sessions", id]
    case ServersIndex => ["servers"]
    case CharacterLock(id) => ["character_lock", id]
    case RateLimit(parts) => ["rate_limit"] + parts
  }

  function Render(kb: KeyBuilder, k: Key): Result<string> {
    Build(kb, Segments(k))
  }

  /** SessionPrefix. */
  function SessionPrefix(kb: KeyBuilder): Result<string> {
    match Build(kb, ["session"])
    case Ok(base) => Ok(base + [SEPARATOR])
    case Err(e) => Err(e)
  }

  lemma JoinNamespace(app: string, env: string, parts: seq<string>)
    requires parts != []
    ensures Join([app, env] + parts, SEPARATOR)
         == app + [SEPARATOR] + env + [SEPARATOR] + Join(parts, SEPARATOR)
  {
    var sep, tail := [SEPARATOR], Join(parts, SEPARATOR);
    assert [app, env] + parts == [app] + ([env] + parts);
    JoinCons(app, [env] + parts, SEPARATOR);
    JoinCons(env, parts, SEPARATOR);
    Assoc(env, sep, tail);
    Assoc(app + sep, env, sep + tail);
    Assoc(app + sep + env, sep, tail);
  }

  lemma ValidHasNoSeparator(parts: seq<string>)
    requires AllValid(parts)
    ensures forall p | p in parts :: SEPARATOR !in p
  {
  }

  /** A built key splits back into exactly the namespace and the segments it was built from. */
  lemma BuildSplits(app: string, env: string, parts: seq<string>)
    requires NewKeyBuilder(app, env).Ok?
    requires Build(NewKeyBuilder(app, env).value, parts).Ok?
    ensures Split(Build(NewKeyBuilder(app, env).value, parts).value, SEPARATOR) == [app, env] + parts
  {
    JoinNamespace(app, env, parts);
    var all := [app, env] + parts;
    ValidHasNoSeparator(parts);
    assert forall p | p in all :: p == app || p == env || p in parts;
    SplitJoin(all, SEPARATOR);
  }

  lemma SegmentsInjective(a: Key, b: Key)
    requires Segments(a) == Segments(b)
    ensures a == b
  {
    assert Segments(a)[0] == Segments(b)[0];
    assert "session"[3] == 's' && "servers"[3] == 'v';
    assert a.RateLimit? ==> Segments(a)[1..] == a.parts;
    assert b.RateLimit? ==> Segments(b)[1..] == b.parts;
    if !a.RateLimit? && !a.ServersIndex? && Segments(a)[0] == Segments(b)[0] && !b.RateLimit? && !b.ServersIndex? {
      assert Segments(a)[1] == a.id && Segments(b)[1] == b.id;
    }
  }

  /** Two rendered keys are equal only when application, environment, kind and identifiers all are. */
  lemma RenderInjective(app: string, env: string, k: Key, app': string, env': string, k': Key)
    requires NewKeyBuilder(app, env).Ok? && NewKeyBuilder(app', env').Ok?
    requires Render(NewKeyBuilder(app, env).value, k).Ok?
    requires Render(NewKeyBuilder(app, env).value, k) == Render(NewKeyBuilder(app', env').value, k')
    ensures app == app' && env == env' && k == k'
  {
    BuildSplits(app, env, Segments(k));
    BuildSplits(app', env', Segments(k'));
    var all := [app, env] + Segments(k);
    var all' := [app', env'] + Segments(k');
    assert all[0] == app && all[1] == env && all[2..] == Segments(k);
    assert all'[0] == app' && all'[1] == env' && all'[2..] == Segments(k');
    SegmentsInjective(k, k');
  }

  /** Visible ASCII other than the separator. */
  predicate Plain(s: string) {
    s != "" && forall i | 0 <= i < |s| :: '!' <= s[i] <= '~' && s[i] != SEPARATOR
  }

  lemma CleanIsValid(s: string)
    requires s != "" && !IsSpace(s[0])
    requires forall i | 0 <= i < |s| :: s[i] !in " \t\r\n" && s[i] != SEPARATOR
    ensures ValidSegment(s)
  {
  }

  lemma PlainIsValid(s: string)
    requires Plain(s)
    ensures ValidSegment(s) && Trimmed(s)
  {
    assert !IsSpace(s[0]) && !IsSpace(s[|s| - 1]);
    TrimSpaceTrims(s);
  }

  /** Rendering fails only for a bad identifier, never for the kind. */
  lemma RenderOkIff(kb: KeyBuilder, k: Key)
    requires kb.prefix != ""
    ensures Render(kb, k).Ok? <==> AllValid(Segments(k)[1..])
  {
    KindValid(k);
    AllValidSplit(Segments(k));
  }

  lemma KindValid(k: Key)
    ensures ValidSegment(Segments(k)[0])
  {
    KindPlain(k);
    PlainIsValid(Segments(k)[0]);
  }

  lemma KindPlain(k: Key)
    ensures Plain(Segments(k)[0])
  {
  }

  lemma JoinTwo(kind: string, id: string)
    ensures Join([kind, id], SEPARATOR) == kind + ":" + id
  {
    assert [kind, id] == [kind] + [id];
    JoinCons(kind, [id], SEPARATOR);
  }

  lemma BuildTwo(kb: KeyBuilder, kind: string, id: string)
    requires kb.prefix != "" && AllValid([kind, id])
    ensures Build(kb, [kind, id]) == Ok(kb.prefix + ":" + (kind + ":" + id))
  {
    JoinTwo(kind, id);
  }

  lemma KeyText(kb: KeyBuilder, kind: string, id: string, k: Key)
    requires kb.prefix != "" && ValidSegment(id) && Segments(k) == [kind, id]
    ensures Render(kb, k) == Ok(kb.prefix + ":" + (kind + ":" + id))
  {
    KindValid(k);
    AllValidSplit([kind, id]);
    AllValidSplit([id]);
    BuildTwo(kb, kind, id);
  }

  lemma PrefixText(app: string, env: string)
    requires ValidSegment(app) && ValidSegment(env)
    ensures NewKeyBuilder(app, env) == Ok(KeyBuilder(app + ":" + env))
  {
  }

  /** The text of every key that names one identifier: {app}:{env}:{kind}:{id}. */
  lemma KeyTexts(app: string, env: string, id: string)
    requires ValidSegment(app) && ValidSegment(env) && ValidSegment(id)
    ensures var kb, prefix := NewKeyBuilder(app, env).value, app + ":" + env + ":";
            && Render(kb, JoinToken(id)) == Ok(prefix + ("join_token" + ":" + id))
            && Render(kb, Session(id)) == Ok(prefix + ("session" + ":" + id))
            && Render(kb, UserSessions(id)) == Ok(prefix + ("user_sessions" + ":" + id))
            && Render(kb, Server(id)) == Ok(prefix + ("server" + ":" + id))
            && Render(kb, CharacterLock(id)) == Ok(prefix + ("character_lock" + ":" + id))
  {
    PrefixText(app, env);
    var kb := KeyBuilder(app + ":" + env);
    KeyText(kb, "join_token", id, JoinToken(id));
    KeyText(kb, "session", id, Session(id));
    KeyText(kb, "user_sessions", id, UserSessions(id));
    KeyText(kb, "server", id, Server(id));
    KeyText(kb, "character_lock", id, CharacterLock(id));
  }

  lemma AllValidSplit(parts: seq<string>)
    requires parts != []
    ensures AllValid(parts) <==> ValidSegment(parts[0]) && AllValid(parts[1..])
  {
  }

  lemma BuildExtends(kb: KeyBuilder, kind: string, id: string)
    requires ValidSegment(kind) && ValidSegment(id)
    ensures Build(kb, [kind]).Ok? <==> Build(kb, [kind, id]).Ok?
    ensures Build(kb, [kind]).Ok? ==>
              Build(kb, [kind]).value + [SEPARATOR] + id == Build(kb, [kind, id]).value
  {
    JoinCons(kind, [id], SEPARATOR);
    assert [kind] + [id] == [kind, id];
    assert AllValid([kind, id]) && AllValid([kind]);
    var base, sep := kb.prefix + [SEPARATOR], [SEPARATOR];
    Assoc(base, kind, sep);
    Assoc(base, kind + sep, id);
  }

  /** The bulk-delete script's `prefix .. id` is the key under which the session was created. */
  lemma SessionPrefixKey(kb: KeyBuilder, id: string)
    requires ValidSegment(id)
    ensures SessionPrefix(kb).Ok? <==> Render(kb, Session(id)).Ok?
    ensures SessionPrefix(kb).Ok? ==> SessionPrefix(kb).value + id == Render(kb, Session(id)).value
  {
    KindValid(Session(id));
    BuildExtends(kb, Segments(Session(id))[0], id);
  }
}
