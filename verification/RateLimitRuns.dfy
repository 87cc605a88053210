/** The rate limiter with its parts at different moments: a call picks its bucket, its INCR reaches Redis later,
    and the EXPIRE of a first call later still or never (internal/store/redis/rate_limit.go). */
module RateLimitRuns {
  import opened Wrappers
  import opened Redis
  import opened RateLimit
  import Keys

  /** A command names the bucket its call picked; anything may happen between a call's commands. */
  datatype Command =
    | Increment(key: string, bucket: nat)
    | ExpireAfter(key: string, bucket: nat)
    | Pass(d: nat)
    | Others(db: map<Keys.Key, Entry>)

  ghost function Then(st: State, op: Command, c: Config): State {
    match op
    case Increment(key, bucket) => Incr(st, CounterKey(key, bucket)).0
    case ExpireAfter(key, bucket) => Expire(st, CounterKey(key, bucket), c.window).0
    case Pass(d) => Advance(st, d)
    case Others(db) => if AgreeOnCounters(st.db, db) then st.(db := db) else st
  }

  ghost function After(st: State, ops: seq<Command>, c: Config, n: nat): State
    requires n <= |ops|
  {
    if n == 0 then st else Then(After(st, ops, c, n - 1), ops[n - 1], c)
  }

  /** Allow is its commands, all at the moment at which the bucket was picked. */
  lemma AllowIsCommands(st: State, c: Config, key: string, incrUp: bool, expireUp: bool)
    requires ValidConfig(c)
    ensures var bucket := Bucket(st.now, c);
            var counted := Then(st, Increment(key, bucket), c);
            AllowEffect(st, c, key, incrUp, expireUp).0 ==
            if !incrUp then st
            else if Incr(st, CounterKey(key, bucket)).1 == 1 && expireUp then Then(counted, ExpireAfter(key, bucket), c)
            else counted
  {
  }

  predicate IsHit(op: Command, key: string, bucket: nat) {
    op == Increment(key, bucket)
  }

  /** How many of the first n commands were increments of this counter. */
  function Total(ops: seq<Command>, n: nat, key: string, bucket: nat): nat
    requires n <= |ops|
  {
    if n == 0 then 0 else Total(ops, n - 1, key, bucket) + if IsHit(ops[n - 1], key, bucket) then 1 else 0
  }

  // ---- Any delays: a counter counts since it last lapsed ----

  /** Increments since the counter was last absent. */
  ghost function Since(st: State, ops: seq<Command>, c: Config, n: nat, key: string, bucket: nat): nat
    requires n <= |ops|
  {
    if n == 0 then 0
    else if IsHit(ops[n - 1], key, bucket) then Since(st, ops, c, n - 1, key, bucket) + 1
    else if Live(After(st, ops, c, n), CounterKey(key, bucket)) then Since(st, ops, c, n - 1, key, bucket)
    else 0
  }

  predicate Counts(st: State, k: Keys.Key, n: nat) {
    if Live(st, k) then n > 0 && st.db[k].value == Count(n) else n == 0
  }

  lemma StepCounts(st: State, op: Command, c: Config, key: string, bucket: nat, n: nat)
    requires Counts(st, CounterKey(key, bucket), n)
    ensures var k, st' := CounterKey(key, bucket), Then(st, op, c);
            Counts(st', k, if IsHit(op, key, bucket) then n + 1 else if Live(st', k) then n else 0)
  {
    CounterKeysDistinct();
    assert CounterKey(key, bucket).RateLimit?;
  }

  lemma {:induction false} AlwaysCounts(st: State, ops: seq<Command>, c: Config, n: nat, key: string, bucket: nat)
    requires NoCounters(st) && n <= |ops|
    ensures Counts(After(st, ops, c, n), CounterKey(key, bucket), Since(st, ops, c, n, key, bucket))
  {
    if n == 0 {
      assert CounterKey(key, bucket).RateLimit?;
    } else {
      AlwaysCounts(st, ops, c, n - 1, key, bucket);
      StepCounts(After(st, ops, c, n - 1), ops[n - 1], c, key, bucket, Since(st, ops, c, n - 1, key, bucket));
    }
  }

  /** What the increment at step n answers. */
  ghost function Answered(st: State, ops: seq<Command>, c: Config, n: nat): nat
    requires n < |ops| && ops[n].Increment?
  {
    Incr(After(st, ops, c, n), CounterKey(ops[n].key, ops[n].bucket)).1
  }

  /** The counter has been live at every step since its first increment. */
  ghost predicate NeverLapsed(st: State, ops: seq<Command>, c: Config, n: nat, key: string, bucket: nat)
    requires n <= |ops|
  {
    forall m | 0 <= m <= n && Total(ops, m, key, bucket) > 0 :: LiveAfter(st, ops, c, m, key, bucket)
  }

  ghost predicate LiveAfter(st: State, ops: seq<Command>, c: Config, m: nat, key: string, bucket: nat)
    requires m <= |ops|
  {
    Live(After(st, ops, c, m), CounterKey(key, bucket))
  }

  lemma {:induction false} SinceIsTotalIff(st: State, ops: seq<Command>, c: Config, n: nat, key: string, bucket: nat)
    requires NoCounters(st) && n <= |ops|
    ensures Since(st, ops, c, n, key, bucket) <= Total(ops, n, key, bucket)
    ensures Since(st, ops, c, n, key, bucket) == Total(ops, n, key, bucket) <==> NeverLapsed(st, ops, c, n, key, bucket)
  {
    if n > 0 {
      SinceIsTotalIff(st, ops, c, n - 1, key, bucket);
      AlwaysCounts(st, ops, c, n, key, bucket);
      assert NeverLapsed(st, ops, c, n, key, bucket) <==>
             NeverLapsed(st, ops, c, n - 1, key, bucket) && (Total(ops, n, key, bucket) > 0 ==> LiveAfter(st, ops, c, n, key, bucket));
    }
  }

  /** Whatever the delays, an increment answers its rank among all increments of its counter if and only if the
      counter has not lapsed since its first one; otherwise it answers less. */
  lemma AnswerIsRankIff(st: State, ops: seq<Command>, c: Config, n: nat)
    requires NoCounters(st) && n < |ops| && ops[n].Increment?
    ensures var rank := Total(ops, n, ops[n].key, ops[n].bucket) + 1;
            && Answered(st, ops, c, n) <= rank
            && (Answered(st, ops, c, n) == rank <==> NeverLapsed(st, ops, c, n, ops[n].key, ops[n].bucket))
  {
    AlwaysCounts(st, ops, c, n, ops[n].key, ops[n].bucket);
    SinceIsTotalIff(st, ops, c, n, ops[n].key, ops[n].bucket);
  }

  // ---- Increments that land in their bucket ----

  ghost predicate TimelyAt(st: State, ops: seq<Command>, c: Config, n: nat)
    requires ValidConfig(c) && n < |ops|
  {
    ops[n].Increment? ==> Bucket(After(st, ops, c, n).now, c) == ops[n].bucket
  }

  /** Every increment reaches Redis within the bucket its call picked; EXPIREs may come whenever or never. */
  ghost predicate Timely(st: State, ops: seq<Command>, c: Config)
    requires ValidConfig(c)
  {
    forall n | 0 <= n < |ops| :: TimelyAt(st, ops, c, n)
  }

  lemma StepHolds(st: State, op: Command, c: Config, key: string, bucket: nat, hits: nat)
    requires ValidConfig(c) && Holds(st, c, key, bucket, hits) && bucket >= Bucket(st.now, c)
    requires IsHit(op, key, bucket) ==> Bucket(st.now, c) == bucket
    requires hits > 0 ==> bucket == Bucket(st.now, c)
    ensures Holds(Then(st, op, c), c, key, bucket, hits + if IsHit(op, key, bucket) then 1 else 0)
  {
    BucketBounds(st.now, c);
    CounterKeysDistinct();
    assert CounterKey(key, bucket).RateLimit?;
  }

  lemma {:induction false} TimelyHolds(st: State, ops: seq<Command>, c: Config, n: nat, key: string, bucket: nat)
    requires ValidConfig(c) && NoCounters(st) && Timely(st, ops, c) && n <= |ops|
    requires bucket >= Bucket(After(st, ops, c, n).now, c)
    ensures Holds(After(st, ops, c, n), c, key, bucket, Total(ops, n, key, bucket))
    ensures Total(ops, n, key, bucket) > 0 ==> bucket == Bucket(After(st, ops, c, n).now, c)
  {
    if n == 0 {
      assert CounterKey(key, bucket).RateLimit?;
    } else {
      var before := After(st, ops, c, n - 1);
      BucketMonotone(before.now, After(st, ops, c, n).now, c);
      TimelyHolds(st, ops, c, n - 1, key, bucket);
      assert TimelyAt(st, ops, c, n - 1);
      StepHolds(before, ops[n - 1], c, key, bucket, Total(ops, n - 1, key, bucket));
    }
  }

  /** No counter resets inside its own bucket, whatever commands come between and however late EXPIREs are: a
      timely increment answers its rank among all increments of its counter. */
  lemma TimelyAnswerIsRank(st: State, ops: seq<Command>, c: Config, n: nat)
    requires ValidConfig(c) && NoCounters(st) && Timely(st, ops, c) && n < |ops| && ops[n].Increment?
    ensures Answered(st, ops, c, n) == Total(ops, n, ops[n].key, ops[n].bucket) + 1
  {
    assert TimelyAt(st, ops, c, n);
    TimelyHolds(st, ops, c, n, ops[n].key, ops[n].bucket);
    BucketBounds(After(st, ops, c, n).now, c);
  }

  // ---- Burst bound ----

  /** How many of these moments lie in the bucket. */
  function InBucket(times: seq<nat>, c: Config, bucket: nat): nat
    requires ValidConfig(c)
  {
    if times == [] then 0
    else InBucket(times[..|times| - 1], c, bucket) + if Bucket(times[|times| - 1], c) == bucket then 1 else 0
  }

  /** How many of these moments lie in [from, until). */
  function Within(times: seq<nat>, from: nat, until: nat): nat {
    if times == [] then 0
    else Within(times[..|times| - 1], from, until) + if from <= times[|times| - 1] < until then 1 else 0
  }

  function InBuckets(times: seq<nat>, c: Config, first: nat, count: nat): nat
    requires ValidConfig(c)
  {
    if count == 0 then 0 else InBuckets(times, c, first, count - 1) + InBucket(times, c, first + count - 1)
  }

  lemma {:induction false} InBucketsGrows(times: seq<nat>, c: Config, first: nat, count: nat)
    requires ValidConfig(c) && times != []
    ensures var last := times[|times| - 1];
            var before := InBuckets(times[..|times| - 1], c, first, count);
            InBuckets(times, c, first, count) == before + if first <= Bucket(last, c) < first + count then 1 else 0
  {
    if count > 0 {
      InBucketsGrows(times, c, first, count - 1);
    }
  }

  lemma {:induction false} NoTimesNoBuckets(c: Config, first: nat, count: nat)
    requires ValidConfig(c)
    ensures InBuckets([], c, first, count) == 0
  {
    if count > 0 {
      NoTimesNoBuckets(c, first, count - 1);
    }
  }

  lemma {:induction false} WithinBuckets(times: seq<nat>, c: Config, from: nat, k: nat)
    requires ValidConfig(c)
    ensures Within(times, from, from + k * c.window) <= InBuckets(times, c, Bucket(from, c), k + 1)
  {
    if times == [] {
      NoTimesNoBuckets(c, Bucket(from, c), k + 1);
    } else {
      var t := times[|times| - 1];
      WithinBuckets(times[..|times| - 1], c, from, k);
      InBucketsGrows(times, c, Bucket(from, c), k + 1);
      if from <= t < from + k * c.window {
        StretchBuckets(t, from, k, c);
      }
    }
  }

  ghost predicate BucketsWithin(times: seq<nat>, c: Config, limit: nat)
    requires ValidConfig(c)
  {
    forall bucket :: InBucket(times, c, bucket) <= limit
  }

  lemma {:induction false} BucketsSum(times: seq<nat>, c: Config, first: nat, count: nat, limit: nat)
    requires ValidConfig(c) && BucketsWithin(times, c, limit)
    ensures InBuckets(times, c, first, count) <= count * limit
  {
    if count > 0 {
      BucketsSum(times, c, first, count - 1, limit);
      assert InBucket(times, c, first + count - 1) <= limit;
      assert count * limit == (count - 1) * limit + limit;
    }
  }

  /** When the increments of `key` among the first n commands were granted, that is, answered at most limit. */
  ghost function GrantedTimes(st: State, ops: seq<Command>, c: Config, n: nat, key: string): seq<nat>
    requires n <= |ops|
  {
    if n == 0 then []
    else
      var earlier := GrantedTimes(st, ops, c, n - 1, key);
      if ops[n - 1].Increment? && ops[n - 1].key == key && Answered(st, ops, c, n - 1) <= c.limit
      then earlier + [After(st, ops, c, n - 1).now] else earlier
  }

  /** Exactly the first `limit` increments of each counter are granted. */
  lemma {:induction false} GrantedPerBucket(st: State, ops: seq<Command>, c: Config, n: nat, key: string, bucket: nat)
    requires ValidConfig(c) && NoCounters(st) && Timely(st, ops, c) && n <= |ops|
    ensures var total := Total(ops, n, key, bucket);
            InBucket(GrantedTimes(st, ops, c, n, key), c, bucket) == if total <= c.limit then total else c.limit
  {
    if n > 0 {
      GrantedPerBucket(st, ops, c, n - 1, key, bucket);
      var earlier, op := GrantedTimes(st, ops, c, n - 1, key), ops[n - 1];
      if op.Increment? && op.key == key {
        TimelyAnswerIsRank(st, ops, c, n - 1);
        assert TimelyAt(st, ops, c, n - 1);
        var now := After(st, ops, c, n - 1).now;
        assert (earlier + [now])[..|earlier|] == earlier;
      }
    }
  }

  /** Burst bound with the commands apart: when every increment lands in its bucket, at most (k + 1) * limit calls
      per key are granted in any half-open stretch of k windows, however late or missing the EXPIREs. */
  lemma TimelyBurstBound(st: State, ops: seq<Command>, c: Config, n: nat, key: string, from: nat, k: nat)
    requires ValidConfig(c) && NoCounters(st) && Timely(st, ops, c) && n <= |ops|
    ensures Within(GrantedTimes(st, ops, c, n, key), from, from + k * c.window) <= (k + 1) * c.limit
  {
    var times := GrantedTimes(st, ops, c, n, key);
    forall bucket ensures InBucket(times, c, bucket) <= c.limit {
      GrantedPerBucket(st, ops, c, n, key, bucket);
    }
    WithinBuckets(times, c, from, k);
    BucketsSum(times, c, Bucket(from, c), k + 1, c.limit);
  }

  /** Lateness is what breaks this: an increment a window after the counter's EXPIRE starts it again at 1. */
  lemma LateIncrementRestarts(st: State, c: Config, key: string, bucket: nat)
    requires ValidConfig(c) && NoCounters(st)
    ensures var ops := [Increment(key, bucket), ExpireAfter(key, bucket), Pass(c.window), Increment(key, bucket)];
            Answered(st, ops, c, 3) == 1 && Total(ops, 3, key, bucket) == 1
  {
    var ops := [Increment(key, bucket), ExpireAfter(key, bucket), Pass(c.window), Increment(key, bucket)];
    var k := CounterKey(key, bucket);
    assert k.RateLimit?;
    var counted := Incr(st, k).0;
    var expiring := Expire(counted, k, c.window).0;
    assert After(st, ops, c, 0) == st && After(st, ops, c, 1) == counted;
    assert After(st, ops, c, 2) == expiring && After(st, ops, c, 3) == Advance(expiring, c.window);
    assert Total(ops, 0, key, bucket) == 0 && Total(ops, 1, key, bucket) == 1 && Total(ops, 2, key, bucket) == 1;
  }
}
