/** The rate limiter as its callers see it: which raw keys share a counter, and what Allow answers over runs of
    calls with raw keys (internal/store/redis/rate_limit.go). */
module RateLimitKeys {
  import opened Wrappers
  import opened Text
  import opened Redis
  import opened RateLimit

  // ---- What a raw key becomes ----

  predicate Separates(c: char) {
    c == ':' || c == ' ' || c == '\t' || c == '\n' || c == '\r'
  }

  /** r is t with every separating character, and no other, turned into an underscore. */
  predicate Underscored(t: string, r: string) {
    |r| == |t| && forall i | 0 <= i < |t| :: r[i] == if Separates(t[i]) then '_' else t[i]
  }

  lemma ReplacedText(k: string)
    ensures var r := ReplaceAll(ReplaceAll(ReplaceAll(ReplaceAll(ReplaceAll(k, ':', '_'), ' ', '_'), '\t', '_'), '\n', '_'), '\r', '_');
            Underscored(k, r)
  {
  }

  /** The counter's key is the lower-cased, trimmed key with its separating characters turned into underscores at
      the same positions, or "unknown" when nothing is left of it. */
  lemma LimitKeyText(lower: string -> string, key: string)
    ensures var t := TrimSpace(lower(key));
            if t == "" then LimitKey(lower, key) == "unknown" else Underscored(t, LimitKey(lower, key))
  {
    ReplacedText(TrimSpace(lower(key)));
  }

  /** A lower-case key without separating characters and without white space at its ends is its own counter key. */
  lemma CleanKeyStays(lower: string -> string, key: string)
    requires lower(key) == key && key != "" && Trimmed(key) && forall i | 0 <= i < |key| :: !Separates(key[i])
    ensures LimitKey(lower, key) == key
  {
    TrimSpaceTrims(key);
    LimitKeyText(lower, key);
    assert LimitKey(lower, key) == key;
  }

  /** The text that decides which counter a raw key has. */
  function Subject(lower: string -> string, key: string): string {
    var t := TrimSpace(lower(key));
    if t == "" then "unknown" else t
  }

  predicate SameUnderscored(c: char, d: char) {
    c == d || ((Separates(c) || c == '_') && (Separates(d) || d == '_'))
  }

  /** Equal up to which of the separating characters or the underscore stands at a position. */
  predicate Alike(a: string, b: string) {
    |a| == |b| && forall i | 0 <= i < |a| :: SameUnderscored(a[i], b[i])
  }

  predicate Share(lower: string -> string, key: string, key': string) {
    Alike(Subject(lower, key), Subject(lower, key'))
  }

  lemma SubjectUnderscored(lower: string -> string, key: string)
    ensures Underscored(Subject(lower, key), LimitKey(lower, key))
  {
    LimitKeyText(lower, key);
    UnknownStays();
  }

  lemma UnknownStays()
    ensures Underscored("unknown", "unknown")
  {
    var u := "unknown";
    assert u[0] == 'u' && u[1] == 'n' && u[2] == 'k' && u[3] == 'n' && u[4] == 'o' && u[5] == 'w' && u[6] == 'n';
  }

  lemma UnderscoredAlike(a: string, r: string, b: string, r': string)
    requires Underscored(a, r) && Underscored(b, r')
    ensures r == r' <==> Alike(a, b)
  {
    if r == r' {
      forall i | 0 <= i < |a| ensures SameUnderscored(a[i], b[i]) {
        assert r[i] == r'[i];
      }
    }
  }

  /** Two raw keys have one counter if and only if, lower-cased and trimmed, they are equal up to separating
      characters and underscores; a blank key counts as "unknown". */
  lemma ShareIff(lower: string -> string, key: string, bucket: nat, key': string, bucket': nat)
    ensures CounterKey(LimitKey(lower, key), bucket) == CounterKey(LimitKey(lower, key'), bucket')
       <==> Share(lower, key, key') && bucket == bucket'
  {
    SubjectUnderscored(lower, key);
    SubjectUnderscored(lower, key');
    UnderscoredAlike(Subject(lower, key), LimitKey(lower, key), Subject(lower, key'), LimitKey(lower, key'));
    CounterKeysDistinct();
  }

  // ---- Runs of calls with raw keys, whatever cleans them ----

  ghost function RawNext(clean: string -> string, st: State, op: Op, c: Config): State
    requires ValidConfig(c)
  {
    match op
    case Allow(key, incrUp, expireUp) => AllowEffect(st, c, clean(key), incrUp, expireUp).0
    case _ => Next(st, op, c)
  }

  ghost function RawAt(clean: string -> string, st: State, ops: seq<Op>, c: Config, n: nat): State
    requires ValidConfig(c) && n <= |ops|
  {
    if n == 0 then st else RawNext(clean, RawAt(clean, st, ops, c, n - 1), ops[n - 1], c)
  }

  /** What the n-th call answers. */
  ghost function RawAnswer(clean: string -> string, st: State, ops: seq<Op>, c: Config, n: nat): Result<bool>
    requires ValidConfig(c) && n < |ops| && ops[n].Allow?
  {
    AllowEffect(RawAt(clean, st, ops, c, n), c, clean(ops[n].key), ops[n].incrUp, ops[n].expireUp).1
  }

  /** Step n is a call for one of the keys, counted in `bucket`. */
  ghost predicate CountedAt(clean: string -> string, st: State, ops: seq<Op>, c: Config, n: nat, ours: string -> bool, bucket: nat)
    requires ValidConfig(c) && n < |ops|
  {
    ops[n].Allow? && ops[n].incrUp && ours(ops[n].key) && Bucket(RawAt(clean, st, ops, c, n).now, c) == bucket
  }

  /** How many of the first n steps were calls for one of the keys, counted in `bucket`. */
  ghost function Counted(clean: string -> string, st: State, ops: seq<Op>, c: Config, n: nat, ours: string -> bool, bucket: nat): nat
    requires ValidConfig(c) && n <= |ops|
  {
    if n == 0 then 0
    else Counted(clean, st, ops, c, n - 1, ours, bucket) + if CountedAt(clean, st, ops, c, n - 1, ours, bucket) then 1 else 0
  }

  /** Step n is an allowed call for one of the keys, at a time in [from, until). */
  ghost predicate GrantedAt(clean: string -> string, st: State, ops: seq<Op>, c: Config, n: nat, ours: string -> bool, from: nat, until: nat)
    requires ValidConfig(c) && n < |ops|
  {
    && ops[n].Allow? && ours(ops[n].key) && RawAnswer(clean, st, ops, c, n) == Ok(true)
    && from <= RawAt(clean, st, ops, c, n).now < until
  }

  ghost function Granted(clean: string -> string, st: State, ops: seq<Op>, c: Config, n: nat, ours: string -> bool, from: nat, until: nat): nat
    requires ValidConfig(c) && n <= |ops|
  {
    if n == 0 then 0
    else Granted(clean, st, ops, c, n - 1, ours, from, until) + if GrantedAt(clean, st, ops, c, n - 1, ours, from, until) then 1 else 0
  }

  // ---- They are runs of calls with counter keys ----

  function CleanedOp(clean: string -> string, op: Op): Op {
    match op
    case Allow(key, incrUp, expireUp) => Allow(clean(key), incrUp, expireUp)
    case _ => op
  }

  function Cleaned(clean: string -> string, ops: seq<Op>): (r: seq<Op>)
    ensures |r| == |ops| && forall i | 0 <= i < |ops| :: r[i] == CleanedOp(clean, ops[i])
  {
    seq(|ops|, i requires 0 <= i < |ops| => CleanedOp(clean, ops[i]))
  }

  lemma CleanedStep(clean: string -> string, st: State, op: Op, c: Config)
    requires ValidConfig(c)
    ensures RawNext(clean, st, op, c) == Next(st, CleanedOp(clean, op), c)
  {
  }

  lemma {:induction false} RawRunIsRun(clean: string -> string, st: State, ops: seq<Op>, c: Config, n: nat)
    requires ValidConfig(c) && n <= |ops|
    ensures RawAt(clean, st, ops, c, n) == At(st, Cleaned(clean, ops), c, n)
  {
    if n > 0 {
      RawRunIsRun(clean, st, ops, c, n - 1);
      CleanedStep(clean, RawAt(clean, st, ops, c, n - 1), ops[n - 1], c);
    }
  }

  /** The keys are those that have the counter key `key`. */
  ghost predicate Gathers(clean: string -> string, ours: string -> bool, key: string) {
    forall k :: ours(k) <==> clean(k) == key
  }

  lemma {:induction false} CountedIsHits(clean: string -> string, st: State, ops: seq<Op>, c: Config, n: nat, ours: string -> bool, key: string, bucket: nat)
    requires ValidConfig(c) && n <= |ops| && Gathers(clean, ours, key)
    ensures Counted(clean, st, ops, c, n, ours, bucket) == Hits(st, Cleaned(clean, ops), c, n, key, bucket)
  {
    if n > 0 {
      CountedIsHits(clean, st, ops, c, n - 1, ours, key, bucket);
      RawRunIsRun(clean, st, ops, c, n - 1);
    }
  }

  lemma SameAnswer(clean: string -> string, st: State, ops: seq<Op>, c: Config, n: nat)
    requires ValidConfig(c) && n < |ops| && ops[n].Allow?
    ensures Cleaned(clean, ops)[n].Allow?
    ensures RawAnswer(clean, st, ops, c, n) == Answer(st, Cleaned(clean, ops), c, n)
  {
    RawRunIsRun(clean, st, ops, c, n);
  }

  lemma {:induction false} GrantedIsAllowed(clean: string -> string, st: State, ops: seq<Op>, c: Config, n: nat, ours: string -> bool, key: string, from: nat, until: nat)
    requires ValidConfig(c) && n <= |ops| && Gathers(clean, ours, key)
    ensures Granted(clean, st, ops, c, n, ours, from, until) == AllowedWithin(st, Cleaned(clean, ops), c, n, key, from, until)
  {
    if n > 0 {
      GrantedIsAllowed(clean, st, ops, c, n - 1, ours, key, from, until);
      GrantedIsAllowedAt(clean, st, ops, c, n - 1, ours, key, from, until);
    }
  }

  lemma GrantedIsAllowedAt(clean: string -> string, st: State, ops: seq<Op>, c: Config, n: nat, ours: string -> bool, key: string, from: nat, until: nat)
    requires ValidConfig(c) && n < |ops| && Gathers(clean, ours, key)
    ensures GrantedAt(clean, st, ops, c, n, ours, from, until) <==>
            AllowedAt(st, Cleaned(clean, ops), c, n, key) && from <= At(st, Cleaned(clean, ops), c, n).now < until
  {
    RawRunIsRun(clean, st, ops, c, n);
    if ops[n].Allow? {
      SameAnswer(clean, st, ops, c, n);
    }
  }

  lemma CleanAllowedExactly(clean: string -> string, st: State, ops: seq<Op>, c: Config, n: nat, ours: string -> bool)
    requires ValidConfig(c) && NoCounters(st) && n < |ops| && ops[n].Allow? && Gathers(clean, ours, clean(ops[n].key))
    ensures var rank := Counted(clean, st, ops, c, n, ours, Bucket(RawAt(clean, st, ops, c, n).now, c));
            RawAnswer(clean, st, ops, c, n) == Ok(true) <==> rank < c.limit && ops[n].incrUp && (rank == 0 ==> ops[n].expireUp)
  {
    RawRunIsRun(clean, st, ops, c, n);
    SameAnswer(clean, st, ops, c, n);
    CountedIsHits(clean, st, ops, c, n, ours, clean(ops[n].key), Bucket(RawAt(clean, st, ops, c, n).now, c));
    AllowedExactly(st, Cleaned(clean, ops), c, n);
  }

  // ---- With the limiter's own cleaning ----

  /** The key under which Allow counts a raw key. */
  function Cleaner(lower: string -> string): string -> string {
    key => LimitKey(lower, key)
  }

  function Sharing(lower: string -> string, key: string): string -> bool {
    key' => Share(lower, key, key')
  }

  lemma SharingGathers(lower: string -> string, key: string)
    ensures Gathers(Cleaner(lower), Sharing(lower, key), Cleaner(lower)(key))
  {
    forall key' ensures Sharing(lower, key)(key') <==> Cleaner(lower)(key') == Cleaner(lower)(key) {
      ShareIff(lower, key, 0, key', 0);
      CounterKeysDistinct();
    }
  }

  /** Exactness over raw keys: a call is allowed if and only if fewer than `limit` calls, for keys that share its
      counter and in its bucket, were counted before it, and its own commands reach Redis. */
  lemma RawAllowedExactly(lower: string -> string, st: State, ops: seq<Op>, c: Config, n: nat)
    requires ValidConfig(c) && NoCounters(st) && n < |ops| && ops[n].Allow?
    ensures var clean, sharing := Cleaner(lower), Sharing(lower, ops[n].key);
            var rank := Counted(clean, st, ops, c, n, sharing, Bucket(RawAt(clean, st, ops, c, n).now, c));
            RawAnswer(clean, st, ops, c, n) == Ok(true) <==> rank < c.limit && ops[n].incrUp && (rank == 0 ==> ops[n].expireUp)
  {
    SharingGathers(lower, ops[n].key);
    CleanAllowedExactly(Cleaner(lower), st, ops, c, n, Sharing(lower, ops[n].key));
  }

  /** Burst bound over raw keys: of all calls whose keys share a counter at most (k + 1) * limit are allowed in any
      half-open stretch of k windows. */
  lemma RawBurstBound(lower: string -> string, st: State, ops: seq<Op>, c: Config, n: nat, key: string, from: nat, k: nat)
    requires ValidConfig(c) && NoCounters(st) && n <= |ops|
    ensures Granted(Cleaner(lower), st, ops, c, n, Sharing(lower, key), from, from + k * c.window) <= (k + 1) * c.limit
  {
    SharingGathers(lower, key);
    CleanBurstBound(Cleaner(lower), st, ops, c, n, Sharing(lower, key), Cleaner(lower)(key), from, k);
  }

  lemma CleanBurstBound(clean: string -> string, st: State, ops: seq<Op>, c: Config, n: nat, ours: string -> bool, key: string, from: nat, k: nat)
    requires ValidConfig(c) && NoCounters(st) && n <= |ops| && Gathers(clean, ours, key)
    ensures Granted(clean, st, ops, c, n, ours, from, from + k * c.window) <= (k + 1) * c.limit
  {
    GrantedIsAllowed(clean, st, ops, c, n, ours, key, from, from + k * c.window);
    BurstBound(st, Cleaned(clean, ops), c, n, key, from, k);
  }
}
