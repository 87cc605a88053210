/** The fixed-window rate limiter: internal/store/redis/rate_limit.go. */
module RateLimit {
  import opened Wrappers
  import opened Text
  import opened Redis
  import Keys

  // ---- Key text ----

  function ReplaceAll(s: string, from: char, to: char): (r: string)
    ensures |r| == |s| && forall i | 0 <= i < |s| :: r[i] == if s[i] == from then to else s[i]
  {
    seq(|s|, i requires 0 <= i < |s| => if s[i] == from then to else s[i])
  }

  /** sanitizeRateLimitKey. `lower` stands for strings.ToLower; nothing is assumed about it. */
  function Sanitize(lower: string -> string, key: string): string {
    var k0 := TrimSpace(lower(key));
    var k1 := ReplaceAll(k0, ':', '_');
    var k2 := ReplaceAll(k1, ' ', '_');
    var k3 := ReplaceAll(k2, '\t', '_');
    var k4 := ReplaceAll(k3, '\n', '_');
    ReplaceAll(k4, '\r', '_')
  }

  function LimitKey(lower: string -> string, key: string): string {
    if Sanitize(lower, key) == "" then "unknown" else Sanitize(lower, key)
  }

  function CounterKey(key: string, bucket: nat): Keys.Key {
    Keys.RateLimit(["auth", key, FormatNat(bucket)])
  }

  lemma ReplacedAll(k: string)
    ensures var r := ReplaceAll(ReplaceAll(ReplaceAll(ReplaceAll(ReplaceAll(k, ':', '_'), ' ', '_'), '\t', '_'), '\n', '_'), '\r', '_');
            && |r| == |k|
            && forall i | 0 <= i < |k| :: r[i] !in " \t\r\n" && r[i] != ':' && (r[i] == k[i] || r[i] == '_')
  {
  }

  lemma SanitizedIsSegment(lower: string -> string, key: string)
    ensures Keys.ValidSegment(LimitKey(lower, key))
  {
    TrimSpaceTrims(lower(key));
    ReplacedAll(TrimSpace(lower(key)));
    if Sanitize(lower, key) == "" {
      UnknownIsSegment();
    } else {
      Keys.CleanIsValid(Sanitize(lower, key));
    }
  }

  lemma UnknownIsSegment()
    ensures Keys.ValidSegment("unknown") && Keys.ValidSegment("auth")
  {
    assert Keys.Plain("unknown") && Keys.Plain("auth");
    Keys.PlainIsValid("unknown");
    Keys.PlainIsValid("auth");
  }

  /** Every caller key, after sanitizing, renders to a Redis key: Allow never fails on its key. */
  lemma CounterKeyRenders(kb: Keys.KeyBuilder, lower: string -> string, key: string, bucket: nat)
    requires kb.prefix != ""
    ensures Keys.Render(kb, CounterKey(LimitKey(lower, key), bucket)).Ok?
  {
    SanitizedIsSegment(lower, key);
    PartsRender(kb, LimitKey(lower, key), bucket);
  }

  lemma PartsRender(kb: Keys.KeyBuilder, key: string, bucket: nat)
    requires kb.prefix != "" && Keys.ValidSegment(key)
    ensures Keys.Render(kb, CounterKey(key, bucket)).Ok?
  {
    UnknownIsSegment();
    NumberIsSegment(bucket);
    ThreeValid("auth", key, FormatNat(bucket));
    var parts := CounterKey(key, bucket).parts;
    assert Keys.Segments(Keys.RateLimit(parts))[1..] == parts;
    Keys.RenderOkIff(kb, Keys.RateLimit(parts));
  }

  lemma NumberIsSegment(n: nat)
    ensures Keys.ValidSegment(FormatNat(n))
  {
    DigitsArePlain(FormatNat(n));
    Keys.PlainIsValid(FormatNat(n));
  }

  lemma DigitsArePlain(s: string)
    requires s != "" && AllDigits(s)
    ensures Keys.Plain(s)
  {
  }

  lemma ThreeValid(a: string, b: string, c: string)
    requires Keys.ValidSegment(a) && Keys.ValidSegment(b) && Keys.ValidSegment(c)
    ensures Keys.AllValid([a, b, c])
  {
  }

  lemma CounterKeysDistinct()
    ensures forall key, bucket, key', bucket' | CounterKey(key, bucket) == CounterKey(key', bucket') ::
              key == key' && bucket == bucket'
  {
    forall key, bucket, key', bucket' | CounterKey(key, bucket) == CounterKey(key', bucket')
      ensures key == key' && bucket == bucket'
    {
      var a, b := CounterKey(key, bucket).parts, CounterKey(key', bucket').parts;
      assert a[1] == b[1] && a[2] == b[2];
      FormatNatInjective(bucket, bucket');
    }
  }

  // ---- Allow: INCR, then EXPIRE when the counter is new ----

  datatype Config = Config(window: nat, limit: nat)

  predicate ValidConfig(c: Config) {
    c.window > 0 && c.limit > 0
  }

  function Bucket(now: nat, c: Config): nat
    requires ValidConfig(c)
  {
    now / c.window
  }

  /** `incrUp` and `expireUp` say whether each command reaches Redis. */
  function AllowEffect(st: State, c: Config, key: string, incrUp: bool, expireUp: bool): (State, Result<bool>)
    requires ValidConfig(c)
  {
    var k := CounterKey(key, Bucket(st.now, c));
    if !incrUp then (st, Err(Unavailable))
    else
      var r := Incr(st, k);
      if r.1 == 1 && !expireUp then (r.0, Err(Unavailable))
      else (if r.1 == 1 then Expire(r.0, k, c.window).0 else r.0, Ok(r.1 <= c.limit))
  }

  class Limiter {
    const client: Client
    const config: Config
    const lower: string -> string

    constructor (client: Client, config: Config, lower: string -> string)
      requires ValidConfig(config)
      ensures this.client == client && this.config == config && this.lower == lower
    {
      this.client := client;
      this.config := config;
      this.lower := lower;
    }

    method Allow(key: string, incrUp: bool, expireUp: bool) returns (r: Result<bool>)
      requires ValidConfig(config)
      modifies client`db
      ensures (client.Space(), r) == AllowEffect(old(client.Space()), config, LimitKey(lower, key), incrUp, expireUp)
    {
      var clean := Sanitize(lower, key);
      if clean == "" {
        clean := "unknown";
      }
      var k := CounterKey(clean, Bucket(client.now, config));
      if !incrUp {
        return Err(Unavailable);
      }
      var count := client.Increment(k);
      if count == 1 {
        if !expireUp {
          return Err(Unavailable);
        }
        var _ := client.ExpireIn(k, config.window);
      }
      r := Ok(count <= config.limit);
    }
  }

  // ---- Runs ----

  datatype Op =
    | Allow(key: string, incrUp: bool, expireUp: bool)
    | Wait(d: nat)
    | Traffic(db: map<Keys.Key, Entry>)

  ghost predicate AgreeOnCounters(a: map<Keys.Key, Entry>, b: map<Keys.Key, Entry>) {
    forall k: Keys.Key | k.RateLimit? :: (k in a <==> k in b) && (k in a ==> a[k] == b[k])
  }

  ghost function Next(st: State, op: Op, c: Config): State
    requires ValidConfig(c)
  {
    match op
    case Allow(key, incrUp, expireUp) => AllowEffect(st, c, key, incrUp, expireUp).0
    case Wait(d) => Advance(st, d)
    case Traffic(db) => if AgreeOnCounters(st.db, db) then st.(db := db) else st
  }

  ghost function At(st: State, ops: seq<Op>, c: Config, n: nat): State
    requires ValidConfig(c) && n <= |ops|
  {
    if n == 0 then st else Next(At(st, ops, c, n - 1), ops[n - 1], c)
  }

  /** What the n-th step answered. */
  ghost function Answer(st: State, ops: seq<Op>, c: Config, n: nat): Result<bool>
    requires ValidConfig(c) && n < |ops| && ops[n].Allow?
  {
    AllowEffect(At(st, ops, c, n), c, ops[n].key, ops[n].incrUp, ops[n].expireUp).1
  }

  ghost predicate HitAt(st: State, ops: seq<Op>, c: Config, n: nat, key: string, bucket: nat)
    requires ValidConfig(c) && n < |ops|
  {
    ops[n].Allow? && ops[n].incrUp && ops[n].key == key && Bucket(At(st, ops, c, n).now, c) == bucket
  }

  /** How many of the first n steps were counted calls for `key` inside `bucket`. */
  ghost function Hits(st: State, ops: seq<Op>, c: Config, n: nat, key: string, bucket: nat): nat
    requires ValidConfig(c) && n <= |ops|
  {
    if n == 0 then 0
    else Hits(st, ops, c, n - 1, key, bucket) + if HitAt(st, ops, c, n - 1, key, bucket) then 1 else 0
  }

  ghost predicate NoCounters(st: State) {
    forall k: Keys.Key | k.RateLimit? :: k !in st.db
  }

  /** First instant after a bucket. */
  function BucketEnd(bucket: nat, c: Config): nat {
    (bucket + 1) * c.window
  }

  lemma BucketBounds(now: nat, c: Config)
    requires ValidConfig(c)
    ensures now < BucketEnd(Bucket(now, c), c) <= now + c.window
  {
  }

  /** A counter of the current or a later bucket holds `hits` and outlasts its bucket. */
  predicate Holds(st: State, c: Config, key: string, bucket: nat, hits: nat) {
    var k := CounterKey(key, bucket);
    if hits == 0 then k !in st.db
    else k in st.db && st.db[k].value == Count(hits) && (st.db[k].expiry.None? || st.db[k].expiry.value >= BucketEnd(bucket, c))
  }

  lemma CallHolds(st: State, c: Config, key: string, incrUp: bool, expireUp: bool, key': string, bucket': nat, hits: nat)
    requires ValidConfig(c) && bucket' >= Bucket(st.now, c) && Holds(st, c, key', bucket', hits)
    ensures var hit := incrUp && key == key' && Bucket(st.now, c) == bucket';
            Holds(AllowEffect(st, c, key, incrUp, expireUp).0, c, key', bucket', hits + if hit then 1 else 0)
    ensures key == key' && Bucket(st.now, c) == bucket' ==>
              AllowEffect(st, c, key, incrUp, expireUp).1 ==
              if !incrUp || (hits == 0 && !expireUp) then Err(Unavailable) else Ok(hits < c.limit)
  {
    BucketBounds(st.now, c);
    CounterKeysDistinct();
  }

  lemma Scaled(a: nat, b: nat, w: nat)
    ensures a <= b ==> a * w <= b * w
  {
  }

  lemma BucketMonotone(a: nat, b: nat, c: Config)
    requires ValidConfig(c) && a <= b
    ensures Bucket(a, c) <= Bucket(b, c)
  {
    BucketBounds(a, c);
    BucketBounds(b, c);
    Scaled(Bucket(b, c) + 1, Bucket(a, c), c.window);
  }

  /** No counter resets inside its own bucket. */
  lemma {:induction false} CountersRight(st: State, ops: seq<Op>, c: Config, n: nat, key: string, bucket: nat)
    requires ValidConfig(c) && NoCounters(st) && n <= |ops|
    requires bucket >= Bucket(At(st, ops, c, n).now, c)
    ensures Holds(At(st, ops, c, n), c, key, bucket, Hits(st, ops, c, n, key, bucket))
  {
    if n == 0 {
      assert CounterKey(key, bucket).RateLimit?;
    } else {
      var before := At(st, ops, c, n - 1);
      BucketMonotone(before.now, At(st, ops, c, n).now, c);
      CountersRight(st, ops, c, n - 1, key, bucket);
      match ops[n - 1]
      case Allow(k, incrUp, expireUp) =>
        CallHolds(before, c, k, incrUp, expireUp, key, bucket, Hits(st, ops, c, n - 1, key, bucket));
      case Wait(d) =>
      case Traffic(db) => assert CounterKey(key, bucket).RateLimit?;
    }
  }

  /** Exactness: a call is allowed if and only if fewer than `limit` calls were counted before it for its
      key in its bucket and its own commands reach Redis. Without errors these are exactly the first
      min(calls, limit) calls of the bucket. */
  lemma AllowedExactly(st: State, ops: seq<Op>, c: Config, n: nat)
    requires ValidConfig(c) && NoCounters(st) && n < |ops| && ops[n].Allow?
    ensures var rank := Hits(st, ops, c, n, ops[n].key, Bucket(At(st, ops, c, n).now, c));
            Answer(st, ops, c, n) == Ok(true) <==>
            rank < c.limit && ops[n].incrUp && (rank == 0 ==> ops[n].expireUp)
  {
    var before := At(st, ops, c, n);
    var bucket := Bucket(before.now, c);
    CountersRight(st, ops, c, n, ops[n].key, bucket);
    CallHolds(before, c, ops[n].key, ops[n].incrUp, ops[n].expireUp, ops[n].key, bucket,
              Hits(st, ops, c, n, ops[n].key, bucket));
  }

  // ---- Burst bound ----

  ghost predicate AllowedAt(st: State, ops: seq<Op>, c: Config, n: nat, key: string)
    requires ValidConfig(c) && n < |ops|
  {
    ops[n].Allow? && ops[n].key == key && Answer(st, ops, c, n) == Ok(true)
  }

  /** How many of the first n steps were allowed calls for `key` at a time in [from, until). */
  ghost function AllowedWithin(st: State, ops: seq<Op>, c: Config, n: nat, key: string, from: nat, until: nat): nat
    requires ValidConfig(c) && n <= |ops|
  {
    if n == 0 then 0
    else
      AllowedWithin(st, ops, c, n - 1, key, from, until)
      + if AllowedAt(st, ops, c, n - 1, key) && from <= At(st, ops, c, n - 1).now < until then 1 else 0
  }

  ghost function AllowedInBucket(st: State, ops: seq<Op>, c: Config, n: nat, key: string, bucket: nat): nat
    requires ValidConfig(c) && n <= |ops|
  {
    if n == 0 then 0
    else
      AllowedInBucket(st, ops, c, n - 1, key, bucket)
      + if AllowedAt(st, ops, c, n - 1, key) && Bucket(At(st, ops, c, n - 1).now, c) == bucket then 1 else 0
  }

  lemma {:induction false} BucketLimit(st: State, ops: seq<Op>, c: Config, n: nat, key: string, bucket: nat)
    requires ValidConfig(c) && NoCounters(st) && n <= |ops|
    ensures AllowedInBucket(st, ops, c, n, key, bucket) <= Hits(st, ops, c, n, key, bucket)
    ensures AllowedInBucket(st, ops, c, n, key, bucket) <= c.limit
  {
    if n > 0 {
      BucketLimit(st, ops, c, n - 1, key, bucket);
      if AllowedAt(st, ops, c, n - 1, key) && Bucket(At(st, ops, c, n - 1).now, c) == bucket {
        AllowedExactly(st, ops, c, n - 1);
        assert HitAt(st, ops, c, n - 1, key, bucket);
      }
    }
  }

  /** Allowed calls in the buckets first, ..., first + count - 1. */
  ghost function AllowedInBuckets(st: State, ops: seq<Op>, c: Config, n: nat, key: string, first: nat, count: nat): nat
    requires ValidConfig(c) && n <= |ops|
  {
    if count == 0 then 0
    else AllowedInBuckets(st, ops, c, n, key, first, count - 1) + AllowedInBucket(st, ops, c, n, key, first + count - 1)
  }

  lemma {:induction false} BucketsLimit(st: State, ops: seq<Op>, c: Config, n: nat, key: string, first: nat, count: nat)
    requires ValidConfig(c) && NoCounters(st) && n <= |ops|
    ensures AllowedInBuckets(st, ops, c, n, key, first, count) <= count * c.limit
  {
    if count > 0 {
      BucketsLimit(st, ops, c, n, key, first, count - 1);
      BucketLimit(st, ops, c, n, key, first + count - 1);
      assert count * c.limit == (count - 1) * c.limit + c.limit;
    }
  }

  /** One more allowed call raises the sum of the buckets by one exactly when its bucket is among them. */
  lemma {:induction false} BucketsStep(st: State, ops: seq<Op>, c: Config, n: nat, key: string, first: nat, count: nat)
    requires ValidConfig(c) && n < |ops|
    ensures AllowedInBuckets(st, ops, c, n + 1, key, first, count)
         == AllowedInBuckets(st, ops, c, n, key, first, count)
          + if AllowedAt(st, ops, c, n, key) && first <= Bucket(At(st, ops, c, n).now, c) < first + count then 1 else 0
  {
    if count > 0 {
      BucketsStep(st, ops, c, n, key, first, count - 1);
    }
  }

  lemma {:induction false} BucketsStart(st: State, ops: seq<Op>, c: Config, key: string, first: nat, count: nat)
    requires ValidConfig(c)
    ensures AllowedInBuckets(st, ops, c, 0, key, first, count) == 0
  {
    if count > 0 {
      BucketsStart(st, ops, c, key, first, count - 1);
    }
  }

  /** k windows of time touch at most k + 1 buckets. */
  lemma StretchBuckets(t: nat, from: nat, k: nat, c: Config)
    requires ValidConfig(c) && from <= t < from + k * c.window
    ensures Bucket(from, c) <= Bucket(t, c) <= Bucket(from, c) + k
  {
    BucketMonotone(from, t, c);
    BucketBounds(from, c);
    BucketBounds(t, c);
    var b, f := Bucket(t, c), Bucket(from, c);
    Scaled(f + k + 1, b, c.window);
    assert (f + k + 1) * c.window == (f + 1) * c.window + k * c.window;
  }

  lemma {:induction false} StretchCovered(st: State, ops: seq<Op>, c: Config, n: nat, key: string, from: nat, k: nat)
    requires ValidConfig(c) && n <= |ops|
    ensures AllowedWithin(st, ops, c, n, key, from, from + k * c.window)
         <= AllowedInBuckets(st, ops, c, n, key, Bucket(from, c), k + 1)
  {
    if n == 0 {
      BucketsStart(st, ops, c, key, Bucket(from, c), k + 1);
    } else {
      StretchCovered(st, ops, c, n - 1, key, from, k);
      BucketsStep(st, ops, c, n - 1, key, Bucket(from, c), k + 1);
      var t := At(st, ops, c, n - 1).now;
      if from <= t < from + k * c.window {
        StretchBuckets(t, from, k, c);
      }
    }
  }

  /** Burst bound: at most (k + 1) * limit calls per key are allowed in any half-open stretch of k windows,
      whatever fails. */
  lemma BurstBound(st: State, ops: seq<Op>, c: Config, n: nat, key: string, from: nat, k: nat)
    requires ValidConfig(c) && NoCounters(st) && n <= |ops|
    ensures AllowedWithin(st, ops, c, n, key, from, from + k * c.window) <= (k + 1) * c.limit
  {
    StretchCovered(st, ops, c, n, key, from, k);
    BucketsLimit(st, ops, c, n, key, Bucket(from, c), k + 1);
  }

  // ---- How long a counter stays ----

  /** The first counted call of a key and bucket: when it came, and whether its EXPIRE got through. */
  datatype Origin = Origin(at: nat, expireUp: bool)

  ghost function FirstCall(st: State, ops: seq<Op>, c: Config, n: nat, key: string, bucket: nat): Option<Origin>
    requires ValidConfig(c) && n <= |ops|
  {
    if n == 0 then None
    else
      var earlier := FirstCall(st, ops, c, n - 1, key, bucket);
      if earlier.Some? then earlier
      else if HitAt(st, ops, c, n - 1, key, bucket) then Some(Origin(At(st, ops, c, n - 1).now, ops[n - 1].expireUp))
      else None
  }

  /** A counter has the expiry its first call gave it, or none when that call's EXPIRE failed; without a
      counted call there is no counter. */
  predicate Stands(st: State, c: Config, k: Keys.Key, bucket: nat, origin: Option<Origin>)
    requires ValidConfig(c)
  {
    match origin
    case None => k !in st.db
    case Some(o) =>
      && k in st.db && st.db[k].value.Count? && st.db[k].value.count > 0
      && st.db[k].expiry == (if o.expireUp then Some(o.at + c.window) else None)
      && Bucket(o.at, c) == bucket && o.at <= st.now
  }

  /** Within its bucket a counter is live. */
  lemma StandsIsLive(st: State, c: Config, k: Keys.Key, bucket: nat, o: Origin)
    requires ValidConfig(c) && Stands(st, c, k, bucket, Some(o)) && Bucket(st.now, c) == bucket
    ensures Live(st, k)
  {
    BucketBounds(st.now, c);
    BucketBounds(o.at, c);
  }

  lemma CallStands(st: State, c: Config, key: string, incrUp: bool, expireUp: bool, key': string, bucket: nat, origin: Option<Origin>)
    requires ValidConfig(c) && Stands(st, c, CounterKey(key', bucket), bucket, origin)
    ensures var hit := incrUp && key == key' && Bucket(st.now, c) == bucket;
            Stands(AllowEffect(st, c, key, incrUp, expireUp).0, c, CounterKey(key', bucket), bucket,
                   if origin.None? && hit then Some(Origin(st.now, expireUp)) else origin)
  {
    CounterKeysDistinct();
    if origin.Some? && Bucket(st.now, c) == bucket {
      StandsIsLive(st, c, CounterKey(key', bucket), bucket, origin.value);
    }
  }

  lemma {:induction false} CountersStand(st: State, ops: seq<Op>, c: Config, n: nat, key: string, bucket: nat)
    requires ValidConfig(c) && NoCounters(st) && n <= |ops|
    ensures Stands(At(st, ops, c, n), c, CounterKey(key, bucket), bucket, FirstCall(st, ops, c, n, key, bucket))
  {
    assert CounterKey(key, bucket).RateLimit?;
    if n > 0 {
      CountersStand(st, ops, c, n - 1, key, bucket);
      var before := At(st, ops, c, n - 1);
      match ops[n - 1]
      case Allow(k, incrUp, expireUp) =>
        CallStands(before, c, k, incrUp, expireUp, key, bucket, FirstCall(st, ops, c, n - 1, key, bucket));
      case Wait(d) =>
      case Traffic(db) =>
    }
  }

  /** At every point of every run a counter is live exactly when it was called for, and either the first
      call's EXPIRE failed or less than a window has passed since that call. */
  lemma CounterLiveIff(st: State, ops: seq<Op>, c: Config, n: nat, key: string, bucket: nat)
    requires ValidConfig(c) && NoCounters(st) && n <= |ops|
    ensures var first := FirstCall(st, ops, c, n, key, bucket);
            Live(At(st, ops, c, n), CounterKey(key, bucket)) <==>
            first.Some? && (!first.value.expireUp || At(st, ops, c, n).now < first.value.at + c.window)
  {
    CountersStand(st, ops, c, n, key, bucket);
  }

  lemma Multiples(w: nat, a: int, b: int)
    requires a <= b
    ensures w * a <= w * b
  {
  }

  lemma Quotient(a: nat, w: nat)
    requires w > 0
    ensures w * (a / w) <= a < w * (a / w) + w
  {
    assert a == w * (a / w) + a % w;
  }

  /** Two numbers less than w apart lie in the same or in neighbouring multiples of w. */
  lemma Neighbours(w: nat, q: int, r: int, a: int, b: int)
    requires w * q <= a < w * q + w && w * r <= b < w * r + w && a <= b < a + w
    ensures q <= r <= q + 1
  {
    if r < q {
      Multiples(w, r + 1, q);
    }
    if r > q + 1 {
      Multiples(w, q + 2, r);
    }
  }

  /** Less than a window after a call it is still its bucket or the next. */
  lemma WindowIsOneBucket(at: nat, now: nat, w: nat)
    requires w > 0 && at <= now < at + w
    ensures at / w <= now / w <= at / w + 1
  {
    Quotient(at, w);
    Quotient(now, w);
    Neighbours(w, at / w, now / w, at, now);
  }

  /** A counter of any other bucket than the current one and the one before is live if and only if the first
      counted call of its key and bucket had its EXPIRE fail; then it stays live for ever. */
  lemma StaleCounterIff(st: State, ops: seq<Op>, c: Config, n: nat, key: string, bucket: nat)
    requires ValidConfig(c) && NoCounters(st) && n <= |ops|
    requires !(bucket <= Bucket(At(st, ops, c, n).now, c) <= bucket + 1)
    ensures var first := FirstCall(st, ops, c, n, key, bucket);
            Live(At(st, ops, c, n), CounterKey(key, bucket)) <==> first.Some? && !first.value.expireUp
  {
    CounterLiveIff(st, ops, c, n, key, bucket);
    CountersStand(st, ops, c, n, key, bucket);
    var first, now := FirstCall(st, ops, c, n, key, bucket), At(st, ops, c, n).now;
    if first.Some? && now < first.value.at + c.window {
      WindowIsOneBucket(first.value.at, now, c.window);
    }
  }

  /** So, when the first call's EXPIRE got through, a counter is live in at most two buckets: its own and the next. */
  lemma TwoBucketsLive(st: State, ops: seq<Op>, c: Config, n: nat, key: string, bucket: nat)
    requires ValidConfig(c) && NoCounters(st) && n <= |ops|
    requires Live(At(st, ops, c, n), CounterKey(key, bucket))
    ensures var first := FirstCall(st, ops, c, n, key, bucket);
            first.Some? && (first.value.expireUp ==> bucket <= Bucket(At(st, ops, c, n).now, c) <= bucket + 1)
  {
    CounterLiveIff(st, ops, c, n, key, bucket);
    if !(bucket <= Bucket(At(st, ops, c, n).now, c) <= bucket + 1) {
      StaleCounterIff(st, ops, c, n, key, bucket);
    }
  }

  /** The failing input: a first call whose INCR gets through and whose EXPIRE does not leaves a counter that
      no delay ends. */
  lemma FailedExpireStays(st: State, c: Config, key: string, d: nat)
    requires ValidConfig(c) && CounterKey(key, Bucket(st.now, c)) !in st.db
    ensures Live(Advance(AllowEffect(st, c, key, true, false).0, d), CounterKey(key, Bucket(st.now, c)))
  {
  }
}
