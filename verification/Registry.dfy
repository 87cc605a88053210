/** The game server registry over runs of any number of servers: who is in the index, for how long, and
    what a listing shows (internal/store/redis/game_servers.go). */
module Registry {
  import opened Wrappers
  import opened Text
  import opened Redis
  import opened Validate
  import opened GameServers
  import Keys

  // ---- Runs: any number of servers registering, renewing, leaving and lapsing ----

  /** Put, Add and Extend are the three commands of a registration, each when it reaches Redis; anything may
      happen between them, and a failed command is one that is missing. Register is all three at once. */
  datatype Op =
    | Register(server: GameServer)
    | Put(server: GameServer)
    | Add(id: string)
    | Extend
    | Deregister(id: string)
    | Wait(d: nat)
    | Traffic(db: map<Keys.Key, Redis.Entry>)

  predicate RegistryKey(k: Keys.Key) {
    k.Server? || k.ServersIndex?
  }

  ghost predicate AgreeOnRegistry(a: map<Keys.Key, Redis.Entry>, b: map<Keys.Key, Redis.Entry>) {
    forall k | RegistryKey(k) :: (k in a <==> k in b) && (k in a ==> a[k] == b[k])
  }

  /** What RegisterGameServer demands of the lease. */
  predicate Leases(st: State, s: GameServer) {
    st.now < s.expiresAt
  }

  ghost function Next(st: State, op: Op, serverTTL: nat): State {
    match op
    case Register(s) => if Leases(st, s) then Registered(st, s, serverTTL) else st
    case Put(s) => if st.now < s.expiresAt then PutServer(st, s) else st
    case Add(id) => AddToIndex(st, id)
    case Extend => ExtendIndex(st, serverTTL)
    case Deregister(id) => Deregistered(st, id)
    case Wait(d) => Advance(st, d)
    case Traffic(db) => if AgreeOnRegistry(st.db, db) then st.(db := db) else st
  }

  ghost function At(st: State, ops: seq<Op>, serverTTL: nat, n: nat): State
    requires n <= |ops|
  {
    if n == 0 then st else Next(At(st, ops, serverTTL, n - 1), ops[n - 1], serverTTL)
  }

  ghost predicate NoServers(st: State) {
    forall k | RegistryKey(k) :: k !in st.db
  }

  /** The commands of a registration up to the first that fails. */
  ghost function Performed(st: State, s: GameServer, serverTTL: nat, upSet: bool, upAdd: bool, upExpire: bool): State {
    var put := Next(st, Put(s), serverTTL);
    var added := Next(put, Add(s.id), serverTTL);
    if !upSet then st else if !upAdd then put else if !upExpire then added else Next(added, Extend, serverTTL)
  }

  lemma PerformedCommands(st: State, s: GameServer, serverTTL: nat, upSet: bool, upAdd: bool, upExpire: bool)
    requires st.now < s.expiresAt
    ensures Performed(st, s, serverTTL, upSet, upAdd, upExpire) ==
            if !upSet then st
            else if !upAdd then PutServer(st, s)
            else if !upExpire then AddToIndex(PutServer(st, s), s.id)
            else Registered(st, s, serverTTL)
  {
  }

  lemma EffectOfCommands(st: State, s: GameServer, serverTTL: nat, upSet: bool, upAdd: bool, upExpire: bool)
    requires Keys.ValidSegment(s.id) && st.now < s.expiresAt
    ensures RegisterEffect(st, s, serverTTL, upSet, upAdd, upExpire).0 ==
            if !upSet then st
            else if !upAdd then PutServer(st, s)
            else if !upExpire then AddToIndex(PutServer(st, s), s.id)
            else Registered(st, s, serverTTL)
  {
  }

  /** What RegisterGameServer leaves is what the steps of its commands leave, up to the first that fails. */
  lemma FlagsAreSteps(st: State, s: GameServer, serverTTL: nat, upSet: bool, upAdd: bool, upExpire: bool)
    requires Keys.ValidSegment(s.id) && st.now < s.expiresAt
    ensures RegisterEffect(st, s, serverTTL, upSet, upAdd, upExpire).0 == Performed(st, s, serverTTL, upSet, upAdd, upExpire)
  {
    PerformedCommands(st, s, serverTTL, upSet, upAdd, upExpire);
    EffectOfCommands(st, s, serverTTL, upSet, upAdd, upExpire);
  }

  // ---- Who is in the index ----

  /** Entries have the types their keys call for, and a record stands under its own ID. */
  ghost predicate Shaped(st: State) {
    && (Keys.ServersIndex in st.db ==> st.db[Keys.ServersIndex].value.Members?)
    && forall id | Keys.Server(id) in st.db ::
         st.db[Keys.Server(id)].value.ServerDoc? && st.db[Keys.Server(id)].value.server.id == id
  }

  lemma StepShaped(st: State, op: Op, serverTTL: nat)
    requires Shaped(st)
    ensures Shaped(Next(st, op, serverTTL))
  {
    if op.Traffic? {
      assert RegistryKey(Keys.ServersIndex) && forall id :: RegistryKey(Keys.Server(id));
    }
  }

  lemma {:induction false} AlwaysShaped(st: State, ops: seq<Op>, serverTTL: nat, n: nat)
    requires NoServers(st) && n <= |ops|
    ensures Shaped(At(st, ops, serverTTL, n))
  {
    if n == 0 {
      assert RegistryKey(Keys.ServersIndex) && forall id :: RegistryKey(Keys.Server(id));
    } else {
      AlwaysShaped(st, ops, serverTTL, n - 1);
      StepShaped(At(st, ops, serverTTL, n - 1), ops[n - 1], serverTTL);
    }
  }

  /** The step adds id to the index. */
  predicate Adds(st: State, op: Op, id: string) {
    (op.Add? && op.id == id) || (op.Register? && op.server.id == id && Leases(st, op.server))
  }

  predicate Indexed(st: State, id: string) {
    id in SMembers(st, Keys.ServersIndex)
  }

  /** id was added to the index, and the index has not lapsed since. */
  ghost predicate Kept(st: State, ops: seq<Op>, serverTTL: nat, n: nat, id: string)
    requires n <= |ops|
  {
    n > 0 && Live(At(st, ops, serverTTL, n), Keys.ServersIndex)
    && (Adds(At(st, ops, serverTTL, n - 1), ops[n - 1], id) || Kept(st, ops, serverTTL, n - 1, id))
  }

  lemma StepIndexed(st: State, op: Op, serverTTL: nat, id: string)
    requires Shaped(st) && serverTTL > 0
    ensures var st' := Next(st, op, serverTTL);
            Indexed(st', id) <==> Live(st', Keys.ServersIndex) && (Adds(st, op, id) || Indexed(st, id))
  {
    if op.Traffic? {
      assert RegistryKey(Keys.ServersIndex);
    }
  }

  /** In every run, a server is in the index exactly when it was added and the index has not lapsed since. */
  lemma {:induction false} IndexedIffKept(st: State, ops: seq<Op>, serverTTL: nat, n: nat, id: string)
    requires NoServers(st) && serverTTL > 0 && n <= |ops|
    ensures Indexed(At(st, ops, serverTTL, n), id) <==> Kept(st, ops, serverTTL, n, id)
  {
    if n == 0 {
      assert RegistryKey(Keys.ServersIndex);
    } else {
      IndexedIffKept(st, ops, serverTTL, n - 1, id);
      AlwaysShaped(st, ops, serverTTL, n - 1);
      StepIndexed(At(st, ops, serverTTL, n - 1), ops[n - 1], serverTTL, id);
    }
  }

  // ---- How long an index covers a server ----

  /** id is in the index, which lasts at least until then. */
  predicate Covered(st: State, id: string, until: nat) {
    && Keys.ServersIndex in st.db
    && var e := st.db[Keys.ServersIndex];
       e.value.Members? && id in e.value.ids && (e.expiry.None? || until <= e.expiry.value)
  }

  lemma StepCovered(st: State, op: Op, serverTTL: nat, id: string, until: nat)
    requires Covered(st, id, until) && st.now < until <= st.now + serverTTL
    ensures Covered(Next(st, op, serverTTL), id, until)
  {
    if op.Traffic? {
      assert RegistryKey(Keys.ServersIndex);
    }
  }

  /** Step k extends the index while id is in it: an EXPIRE by anyone, or a whole registration of id. */
  ghost predicate CoversAt(st: State, ops: seq<Op>, serverTTL: nat, k: nat, id: string)
    requires k < |ops|
  {
    var before := At(st, ops, serverTTL, k);
    (ops[k].Extend? && Indexed(before, id)) || (ops[k].Register? && Adds(before, ops[k], id))
  }

  /** From then on id stays in the index for serverTTL, whatever the other servers' commands do and fail to do. */
  lemma {:induction false} CoverLasts(st: State, ops: seq<Op>, serverTTL: nat, k: nat, n: nat, id: string)
    requires NoServers(st) && serverTTL > 0 && k < n <= |ops| && CoversAt(st, ops, serverTTL, k, id)
    ensures var until := At(st, ops, serverTTL, k).now + serverTTL;
            Covered(At(st, ops, serverTTL, n), id, until) || until <= At(st, ops, serverTTL, n).now
  {
    var before := At(st, ops, serverTTL, n - 1);
    AlwaysShaped(st, ops, serverTTL, n - 1);
    if k < n - 1 {
      CoverLasts(st, ops, serverTTL, k, n - 1, id);
      ClockAdvances(st, ops, serverTTL, k, n - 1);
      if before.now < At(st, ops, serverTTL, k).now + serverTTL {
        StepCovered(before, ops[n - 1], serverTTL, id, At(st, ops, serverTTL, k).now + serverTTL);
      }
    }
  }

  lemma {:induction false} ClockAdvances(st: State, ops: seq<Op>, serverTTL: nat, k: nat, n: nat)
    requires k <= n <= |ops|
    ensures At(st, ops, serverTTL, k).now <= At(st, ops, serverTTL, n).now
  {
    if k < n {
      ClockAdvances(st, ops, serverTTL, k, n - 1);
    }
  }

  // ---- Beating ----

  /** Live, and in the index. */
  predicate Listed(st: State, id: string) {
    Live(st, Keys.Server(id)) && Indexed(st, id)
  }

  /** Everything the run does to the record of id is to register it whole with a lease of exactly `lease`. */
  ghost predicate OnlyBeats(st: State, ops: seq<Op>, serverTTL: nat, id: string, lease: nat) {
    forall k | 0 <= k < |ops| :: BeatOrOtherAt(st, ops, serverTTL, k, id, lease)
  }

  ghost predicate BeatOrOtherAt(st: State, ops: seq<Op>, serverTTL: nat, k: nat, id: string, lease: nat)
    requires k < |ops|
  {
    BeatOrOther(At(st, ops, serverTTL, k), ops[k], id, lease)
  }

  predicate BeatOrOther(st: State, op: Op, id: string, lease: nat) {
    match op
    case Register(s) => s.id == id ==> s.expiresAt == st.now + lease
    case Put(s) => s.id != id
    case Deregister(id') => id' != id
    case _ => true
  }

  /** When id last beat. */
  ghost function LastBeat(st: State, ops: seq<Op>, serverTTL: nat, n: nat, id: string): Option<nat>
    requires n <= |ops|
  {
    if n == 0 then None
    else if ops[n - 1].Register? && ops[n - 1].server.id == id then Some(At(st, ops, serverTTL, n - 1).now)
    else LastBeat(st, ops, serverTTL, n - 1, id)
  }

  /** The record stands as the last beat left it, and the index covers it from then on for serverTTL. */
  predicate Beaten(st: State, id: string, last: Option<nat>, lease: nat, serverTTL: nat) {
    match last
    case None => Keys.Server(id) !in st.db
    case Some(t) =>
      && t <= st.now
      && Keys.Server(id) in st.db && st.db[Keys.Server(id)].expiry == Some(t + lease)
      && (Covered(st, id, t + serverTTL) || t + serverTTL <= st.now)
  }

  lemma StepBeaten(st: State, op: Op, serverTTL: nat, id: string, last: Option<nat>, lease: nat)
    requires Shaped(st) && Beaten(st, id, last, lease, serverTTL) && BeatOrOther(st, op, id, lease) && lease > 0
    ensures Beaten(Next(st, op, serverTTL), id, if op.Register? && op.server.id == id then Some(st.now) else last, lease, serverTTL)
  {
    if op.Traffic? {
      assert RegistryKey(Keys.ServersIndex) && RegistryKey(Keys.Server(id));
    }
    if last.Some? && st.now < last.value + serverTTL {
      StepCovered(st, op, serverTTL, id, last.value + serverTTL);
    }
  }

  lemma {:induction false} AlwaysBeaten(st: State, ops: seq<Op>, serverTTL: nat, n: nat, id: string, lease: nat)
    requires NoServers(st) && n <= |ops| && lease > 0 && OnlyBeats(st, ops, serverTTL, id, lease)
    ensures Beaten(At(st, ops, serverTTL, n), id, LastBeat(st, ops, serverTTL, n, id), lease, serverTTL)
  {
    if n == 0 {
      assert RegistryKey(Keys.Server(id));
    } else {
      AlwaysBeaten(st, ops, serverTTL, n - 1, id, lease);
      AlwaysShaped(st, ops, serverTTL, n - 1);
      assert BeatOrOtherAt(st, ops, serverTTL, n - 1, id, lease);
      StepBeaten(At(st, ops, serverTTL, n - 1), ops[n - 1], serverTTL, id, LastBeat(st, ops, serverTTL, n - 1, id), lease);
    }
  }

  /** In every run, among any commands of other servers, a server that beats is listed exactly while its last
      beat is less than a lease ago and, if that was serverTTL or more ago, the index has not lapsed since. */
  lemma ListedIffBeating(st: State, ops: seq<Op>, serverTTL: nat, n: nat, id: string, lease: nat)
    requires NoServers(st) && n <= |ops| && lease > 0 && serverTTL > 0 && OnlyBeats(st, ops, serverTTL, id, lease)
    ensures var last, now := LastBeat(st, ops, serverTTL, n, id), At(st, ops, serverTTL, n).now;
            Listed(At(st, ops, serverTTL, n), id) <==>
            last.Some? && now < last.value + lease && (now < last.value + serverTTL || Kept(st, ops, serverTTL, n, id))
  {
    AlwaysBeaten(st, ops, serverTTL, n, id, lease);
    IndexedIffKept(st, ops, serverTTL, n, id);
  }

  /** At step n the last beat of id is at most `beat` ago. */
  ghost predicate OnTime(st: State, ops: seq<Op>, serverTTL: nat, n: nat, id: string, beat: nat)
    requires n <= |ops|
  {
    var last := LastBeat(st, ops, serverTTL, n, id);
    last.Some? && At(st, ops, serverTTL, n).now <= last.value + beat
  }

  /** Beats that keep to a schedule shorter than the lease keep the server listed at every step of it. */
  lemma ListedOnSchedule(st: State, ops: seq<Op>, serverTTL: nat, a: nat, b: nat, id: string, lease: nat, beat: nat)
    requires NoServers(st) && a <= b <= |ops| && beat < lease <= serverTTL && OnlyBeats(st, ops, serverTTL, id, lease)
    requires forall n | a <= n <= b :: OnTime(st, ops, serverTTL, n, id, beat)
    ensures forall n | a <= n <= b :: Listed(At(st, ops, serverTTL, n), id)
  {
    forall n | a <= n <= b ensures Listed(At(st, ops, serverTTL, n), id) {
      assert OnTime(st, ops, serverTTL, n, id, beat);
      ListedIffBeating(st, ops, serverTTL, n, id, lease);
    }
  }

  /** A slower schedule does not: here is a run that keeps to it and in which the server gets unlisted. */
  lemma SlowScheduleUnlists(st: State, s: GameServer, serverTTL: nat, beat: nat)
    requires NoServers(st) && st.now < s.expiresAt <= st.now + beat
    ensures var ops := [Register(s), Wait(beat)];
            && (forall n | 1 <= n <= 2 :: OnTime(st, ops, serverTTL, n, s.id, beat))
            && !Listed(At(st, ops, serverTTL, 2), s.id)
  {
    var ops := [Register(s), Wait(beat)];
    assert At(st, ops, serverTTL, 0) == st && At(st, ops, serverTTL, 1) == Registered(st, s, serverTTL);
    assert LastBeat(st, ops, serverTTL, 1, s.id) == Some(st.now) == LastBeat(st, ops, serverTTL, 2, s.id);
    assert At(st, ops, serverTTL, 2) == Advance(Registered(st, s, serverTTL), beat);
  }

  // ---- Listed throughout a lease ----

  predicate Touches(op: Op, id: string) {
    match op
    case Register(s) => s.id == id
    case Put(s) => s.id == id
    case Deregister(id') => id' == id
    case _ => false
  }

  /** Step i sets the record of s, alone or in a whole registration. */
  ghost predicate SetsAt(st: State, ops: seq<Op>, serverTTL: nat, i: nat, s: GameServer)
    requires i < |ops|
  {
    var before := At(st, ops, serverTTL, i);
    (ops[i] == Put(s) && before.now < s.expiresAt) || (ops[i] == Register(s) && Leases(before, s))
  }

  predicate RecordStands(st: State, s: GameServer) {
    Keys.Server(s.id) in st.db && s.expiresAt >= 0 && st.db[Keys.Server(s.id)].expiry == Some(s.expiresAt)
  }

  lemma StepRecord(st: State, op: Op, serverTTL: nat, s: GameServer)
    requires RecordStands(st, s) && !Touches(op, s.id)
    ensures RecordStands(Next(st, op, serverTTL), s)
  {
    if op.Traffic? {
      assert RegistryKey(Keys.Server(s.id));
    }
  }

  lemma {:induction false} RecordLasts(st: State, ops: seq<Op>, serverTTL: nat, i: nat, n: nat, s: GameServer)
    requires i < n <= |ops| && SetsAt(st, ops, serverTTL, i, s)
    requires forall k | i < k < n :: !Touches(ops[k], s.id)
    ensures RecordStands(At(st, ops, serverTTL, n), s)
  {
    if i < n - 1 {
      RecordLasts(st, ops, serverTTL, i, n - 1, s);
      StepRecord(At(st, ops, serverTTL, n - 1), ops[n - 1], serverTTL, s);
    }
  }

  /** At n, while the lease lasts, the server is listed. */
  ghost predicate ListedInLease(st: State, ops: seq<Op>, serverTTL: nat, n: nat, s: GameServer)
    requires n <= |ops|
  {
    At(st, ops, serverTTL, n).now < s.expiresAt ==> Listed(At(st, ops, serverTTL, n), s.id)
  }

  ghost predicate KeptInLease(st: State, ops: seq<Op>, serverTTL: nat, n: nat, s: GameServer)
    requires n <= |ops|
  {
    At(st, ops, serverTTL, n).now < s.expiresAt ==> Kept(st, ops, serverTTL, n, s.id)
  }

  lemma ListedInLeaseIff(st: State, ops: seq<Op>, serverTTL: nat, i: nat, n: nat, s: GameServer)
    requires NoServers(st) && serverTTL > 0 && i < n <= |ops| && SetsAt(st, ops, serverTTL, i, s)
    requires forall k | i < k < n :: !Touches(ops[k], s.id)
    ensures ListedInLease(st, ops, serverTTL, n, s) <==> KeptInLease(st, ops, serverTTL, n, s)
  {
    RecordLasts(st, ops, serverTTL, i, n, s);
    IndexedIffKept(st, ops, serverTTL, n, s.id);
  }

  /** After its record was set and until it is touched again, among any commands of other servers and with any
      of its own commands missing or late, a server is listed from step a on throughout its lease if and only
      if, at every step from a on in its lease, it was added to the index and the index has not lapsed since. */
  lemma ListedThroughoutIff(st: State, ops: seq<Op>, serverTTL: nat, i: nat, a: nat, j: nat, s: GameServer)
    requires NoServers(st) && serverTTL > 0 && i < a <= j <= |ops| && SetsAt(st, ops, serverTTL, i, s)
    requires forall k | i < k < j :: !Touches(ops[k], s.id)
    ensures (forall n | a <= n <= j :: ListedInLease(st, ops, serverTTL, n, s))
       <==> (forall n | a <= n <= j :: KeptInLease(st, ops, serverTTL, n, s))
  {
    forall n | a <= n <= j ensures ListedInLease(st, ops, serverTTL, n, s) <==> KeptInLease(st, ops, serverTTL, n, s) {
      ListedInLeaseIff(st, ops, serverTTL, i, n, s);
    }
  }

  // ---- Runs of whole registrations ----

  /** No registration of the run was cut short or interrupted. */
  ghost predicate Whole(ops: seq<Op>) {
    forall i | 0 <= i < |ops| :: !ops[i].Put? && !ops[i].Add? && !ops[i].Extend?
  }

  ghost predicate Announced(ops: seq<Op>, n: nat, s: GameServer)
    requires n <= |ops|
  {
    exists i | 0 <= i < n :: ops[i] == Register(s) || ops[i] == Put(s)
  }

  ghost predicate Joined(ops: seq<Op>, n: nat, id: string)
    requires n <= |ops|
  {
    exists i | 0 <= i < n :: ops[i] == Add(id) || (ops[i].Register? && ops[i].server.id == id)
  }

  /** No lease is longer than the index's time to live. */
  ghost predicate BoundedLeases(st: State, ops: seq<Op>, serverTTL: nat) {
    forall k | 0 <= k < |ops| :: BoundedAt(st, ops, serverTTL, k)
  }

  ghost predicate BoundedAt(st: State, ops: seq<Op>, serverTTL: nat, k: nat)
    requires k < |ops|
  {
    ops[k].Register? ==> ops[k].server.expiresAt <= At(st, ops, serverTTL, k).now + serverTTL
  }

  predicate IndexEntry(e: Redis.Entry) {
    e.value.Members? && e.expiry.Some?
  }

  /** The index holds every live server and outlives it. */
  ghost predicate IndexOutlives(st: State, serverTTL: nat) {
    && (Keys.ServersIndex in st.db ==> IndexEntry(st.db[Keys.ServersIndex]))
    && forall id | Keys.Server(id) in st.db ::
         var e := st.db[Keys.Server(id)];
         && e.value.ServerDoc? && e.value.server.id == id && e.expiry.Some? && e.expiry.value <= st.now + serverTTL
         && (Alive(e, st.now) ==>
               && Keys.ServersIndex in st.db
               && id in st.db[Keys.ServersIndex].value.ids
               && e.expiry.value <= st.db[Keys.ServersIndex].expiry.value)
  }

  lemma RegisterKeepsIndex(st: State, s: GameServer, serverTTL: nat)
    requires IndexOutlives(st, serverTTL) && st.now < s.expiresAt <= st.now + serverTTL
    ensures IndexOutlives(Registered(st, s, serverTTL), serverTTL)
  {
    assert Live(AddToIndex(PutServer(st, s), s.id), Keys.ServersIndex);
  }

  lemma StepKeepsIndex(st: State, op: Op, serverTTL: nat)
    requires IndexOutlives(st, serverTTL) && !op.Put? && !op.Add? && !op.Extend?
    requires op.Register? ==> op.server.expiresAt <= st.now + serverTTL
    ensures IndexOutlives(Next(st, op, serverTTL), serverTTL)
  {
    match op
    case Register(s) =>
      if Leases(st, s) {
        RegisterKeepsIndex(st, s, serverTTL);
      }
    case Traffic(db) =>
      assert RegistryKey(Keys.ServersIndex) && forall id :: RegistryKey(Keys.Server(id));
    case _ =>
  }

  /** In every run of whole registrations with leases up to serverTTL the index contains every live server and
      expires no earlier than it. */
  lemma {:induction false} IndexAlwaysOutlives(st: State, ops: seq<Op>, serverTTL: nat, n: nat)
    requires NoServers(st) && Whole(ops) && BoundedLeases(st, ops, serverTTL) && n <= |ops|
    ensures IndexOutlives(At(st, ops, serverTTL, n), serverTTL)
  {
    if n == 0 {
      assert RegistryKey(Keys.ServersIndex) && forall id :: RegistryKey(Keys.Server(id));
    } else {
      IndexAlwaysOutlives(st, ops, serverTTL, n - 1);
      assert BoundedAt(st, ops, serverTTL, n - 1);
      StepKeepsIndex(At(st, ops, serverTTL, n - 1), ops[n - 1], serverTTL);
    }
  }

  // ---- What a listing shows ----

  /** Records and index members come from registrations. */
  ghost predicate Traced(st: State, ops: seq<Op>, n: nat)
    requires n <= |ops|
  {
    && (forall id | Keys.Server(id) in st.db && st.db[Keys.Server(id)].value.ServerDoc? ::
          var p := st.db[Keys.Server(id)].value.server; Announced(ops, n, GameServer(p.id, p.addr, p.expiresAt)))
    && (forall id | id in SMembers(st, Keys.ServersIndex) :: Joined(ops, n, id))
  }

  lemma PutTraced(st: State, ops: seq<Op>, n: nat, s: GameServer)
    requires n <= |ops| && Traced(st, ops, n) && Announced(ops, n, s) && st.now < s.expiresAt
    ensures Traced(PutServer(st, s), ops, n)
  {
  }

  lemma AddTraced(st: State, ops: seq<Op>, n: nat, id: string)
    requires n <= |ops| && Traced(st, ops, n) && Joined(ops, n, id)
    ensures Traced(AddToIndex(st, id), ops, n)
  {
  }

  lemma ExtendTraced(st: State, ops: seq<Op>, n: nat, serverTTL: nat)
    requires n <= |ops| && Traced(st, ops, n)
    ensures Traced(ExtendIndex(st, serverTTL), ops, n)
  {
  }

  lemma RegisterTraced(st: State, ops: seq<Op>, n: nat, s: GameServer, serverTTL: nat)
    requires n <= |ops| && Traced(st, ops, n) && Announced(ops, n, s) && Joined(ops, n, s.id) && st.now < s.expiresAt
    ensures Traced(Registered(st, s, serverTTL), ops, n)
  {
    PutTraced(st, ops, n, s);
    AddTraced(PutServer(st, s), ops, n, s.id);
    ExtendTraced(AddToIndex(PutServer(st, s), s.id), ops, n, serverTTL);
  }

  lemma StepTraced(st: State, ops: seq<Op>, serverTTL: nat, n: nat)
    requires n < |ops| && Traced(st, ops, n + 1)
    ensures Traced(Next(st, ops[n], serverTTL), ops, n + 1)
  {
    match ops[n]
    case Register(s) =>
      assert Announced(ops, n + 1, s) && Joined(ops, n + 1, s.id);
      if Leases(st, s) {
        RegisterTraced(st, ops, n + 1, s, serverTTL);
      }
    case Put(s) =>
      assert Announced(ops, n + 1, s);
      if st.now < s.expiresAt {
        PutTraced(st, ops, n + 1, s);
      }
    case Add(id) =>
      assert Joined(ops, n + 1, id);
      AddTraced(st, ops, n + 1, id);
    case Extend => ExtendTraced(st, ops, n + 1, serverTTL);
    case Deregister(id) =>
    case Wait(d) =>
    case Traffic(db) =>
      assert RegistryKey(Keys.ServersIndex) && forall id :: RegistryKey(Keys.Server(id));
  }

  lemma TracedLater(st: State, ops: seq<Op>, n: nat)
    requires n < |ops| && Traced(st, ops, n)
    ensures Traced(st, ops, n + 1)
  {
    assert forall s :: Announced(ops, n, s) ==> Announced(ops, n + 1, s);
    assert forall id :: Joined(ops, n, id) ==> Joined(ops, n + 1, id);
  }

  lemma {:induction false} AlwaysTraced(st: State, ops: seq<Op>, serverTTL: nat, n: nat)
    requires NoServers(st) && n <= |ops|
    ensures Traced(At(st, ops, serverTTL, n), ops, n)
  {
    if n == 0 {
      assert RegistryKey(Keys.ServersIndex) && forall id :: RegistryKey(Keys.Server(id));
    } else {
      AlwaysTraced(st, ops, serverTTL, n - 1);
      TracedLater(At(st, ops, serverTTL, n - 1), ops, n - 1);
      StepTraced(At(st, ops, serverTTL, n - 1), ops, serverTTL, n - 1);
    }
  }

  predicate Validated(op: Op) {
    match op
    case Register(s) => Normalized(s.id) && ServerAddress(s.addr).Ok?
    case Put(s) => Normalized(s.id) && ServerAddress(s.addr).Ok?
    case Add(id) => Normalized(id)
    case _ => true
  }

  /** What the comment on RegisterGameServer demands of callers. */
  ghost predicate CallersValidate(ops: seq<Op>) {
    forall i | 0 <= i < |ops| :: Validated(ops[i])
  }

  lemma NormalizedReads(st: State, id: string)
    requires Normalized(id)
    ensures Contribution(st, id) == ReadRecord(Get(st, Keys.Server(id)))
  {
    assert Keys.ValidSegment(id);
  }

  lemma JoinedIsNormalized(ops: seq<Op>, n: nat, id: string)
    requires n <= |ops| && CallersValidate(ops) && Joined(ops, n, id)
    ensures Normalized(id)
  {
    var i :| 0 <= i < n && (ops[i] == Add(id) || (ops[i].Register? && ops[i].server.id == id));
    assert Validated(ops[i]);
  }

  lemma AnnouncedIsVisible(ops: seq<Op>, n: nat, p: ServerPayload)
    requires n <= |ops| && CallersValidate(ops) && Announced(ops, n, GameServer(p.id, p.addr, p.expiresAt))
    ensures Visible(p)
  {
    var s := GameServer(p.id, p.addr, p.expiresAt);
    var i :| 0 <= i < n && (ops[i] == Register(s) || ops[i] == Put(s));
    assert Validated(ops[i]);
  }

  /** The live record of a server, or not found. */
  function LiveRecord(st: State, id: string): Result<GameServer> {
    match Get(st, Keys.Server(id))
    case Some(ServerDoc(p)) => Ok(GameServer(p.id, p.addr, p.expiresAt))
    case _ => Err(NotFound)
  }

  lemma VisibleReads(st: State, id: string)
    requires Shaped(st)
    requires Live(st, Keys.Server(id)) ==> Visible(st.db[Keys.Server(id)].value.server)
    ensures ReadRecord(Get(st, Keys.Server(id))) == LiveRecord(st, id)
  {
  }

  /** A member of the index reads as its live record, or as not found; never as an error. */
  lemma MemberReads(st: State, ops: seq<Op>, n: nat, id: string)
    requires n <= |ops| && CallersValidate(ops) && Shaped(st) && Traced(st, ops, n)
    requires Joined(ops, n, id)
    ensures Contribution(st, id) == LiveRecord(st, id)
  {
    JoinedIsNormalized(ops, n, id);
    NormalizedReads(st, id);
    if Live(st, Keys.Server(id)) {
      AnnouncedIsVisible(ops, n, st.db[Keys.Server(id)].value.server);
    }
    VisibleReads(st, id);
  }

  lemma MembersRead(st: State, ops: seq<Op>, n: nat)
    requires n <= |ops| && CallersValidate(ops) && Shaped(st) && Traced(st, ops, n)
    ensures forall id | id in SMembers(st, Keys.ServersIndex) :: Reader(st)(id) == LiveRecord(st, id)
  {
    forall id | id in SMembers(st, Keys.ServersIndex) ensures Reader(st)(id) == LiveRecord(st, id) {
      MemberReads(st, ops, n, id);
    }
  }

  predicate StrictlySorted(servers: seq<GameServer>) {
    forall i, j | 0 <= i < j < |servers| :: Less(servers[i].id, servers[j].id)
  }

  predicate Shows(servers: seq<GameServer>, id: string) {
    exists i :: 0 <= i < |servers| && servers[i].id == id
  }

  /** servers are exactly the live records of indexed servers, in strictly increasing order of ID. */
  ghost predicate ListsIndexed(st: State, servers: seq<GameServer>) {
    && StrictlySorted(servers)
    && (forall s | s in servers :: Get(st, Keys.Server(s.id)) == Some(ServerDoc(Payload(s))))
    && (forall id :: Shows(servers, id) <==> Listed(st, id))
  }

  /** servers are exactly the live records, in strictly increasing order of ID. */
  ghost predicate ListsLive(st: State, servers: seq<GameServer>) {
    && StrictlySorted(servers)
    && (forall s | s in servers :: Get(st, Keys.Server(s.id)) == Some(ServerDoc(Payload(s))))
    && (forall id | Live(st, Keys.Server(id)) :: Shows(servers, id))
  }

  lemma Multiplicity(s: seq<GameServer>, k: nat)
    requires k < |s|
    ensures multiset(s)[s[k]] >= 1
    ensures (forall i | 0 <= i < |s| && i != k :: s[i] != s[k]) ==> multiset(s)[s[k]] == 1
    ensures (exists i | 0 <= i < |s| && i != k :: s[i] == s[k]) ==> multiset(s)[s[k]] >= 2
  {
    assert s == s[..k] + [s[k]] + s[k + 1..];
    assert multiset(s) == multiset(s[..k]) + multiset{s[k]} + multiset(s[k + 1..]);
    forall i | 0 <= i < |s| && i != k && s[i] == s[k]
      ensures multiset(s)[s[k]] >= 2
    {
      assert s[k] in (if i < k then s[..k] else s[k + 1..]) by {
        assert i < k ==> s[..k][i] == s[k];
        assert k < i ==> s[k + 1..][i - k - 1] == s[k];
      }
    }
  }

  lemma SortedStrictly(servers: seq<GameServer>, found: seq<GameServer>)
    requires SortedByID(servers) && multiset(servers) == multiset(found)
    requires forall i, j | 0 <= i < j < |found| :: found[i].id != found[j].id
    ensures StrictlySorted(servers)
  {
    forall i, j | 0 <= i < j < |servers| ensures Less(servers[i].id, servers[j].id) {
      Multiplicity(servers, i);
      Multiplicity(servers, j);
      assert servers[i] in multiset(found) && servers[j] in multiset(found);
      var a :| 0 <= a < |found| && found[a] == servers[i];
      var b :| 0 <= b < |found| && found[b] == servers[j];
      Multiplicity(found, a);
      assert servers[i].id != servers[j].id;
      LessTotal(servers[i].id, servers[j].id);
    }
  }

  /** What was found are live records of members, once each. */
  lemma FoundIsLive(st: State, read: string -> Result<GameServer>, sources: seq<string>, found: seq<GameServer>, i: nat)
    requires Shaped(st) && Collected(read, SMembers(st, Keys.ServersIndex), sources, found) && i < |found|
    requires forall id | id in SMembers(st, Keys.ServersIndex) :: read(id) == LiveRecord(st, id)
    ensures found[i].id == sources[i] && Listed(st, found[i].id)
    ensures Get(st, Keys.Server(found[i].id)) == Some(ServerDoc(Payload(found[i])))
  {
    assert read(sources[i]) == Ok(found[i]) && LiveRecord(st, sources[i]) == Ok(found[i]);
  }

  lemma ListingIsIndexed(st: State, read: string -> Result<GameServer>,
      servers: seq<GameServer>, sources: seq<string>, found: seq<GameServer>)
    requires Shaped(st)
    requires SortedByID(servers) && multiset(servers) == multiset(found)
    requires Collected(read, SMembers(st, Keys.ServersIndex), sources, found)
    requires forall id | id in SMembers(st, Keys.ServersIndex) :: read(id) == LiveRecord(st, id)
    ensures ListsIndexed(st, servers)
  {
    forall i | 0 <= i < |found|
      ensures found[i].id == sources[i] && Listed(st, found[i].id)
      ensures Get(st, Keys.Server(found[i].id)) == Some(ServerDoc(Payload(found[i])))
    {
      FoundIsLive(st, read, sources, found, i);
    }
    SortedStrictly(servers, found);
    forall s | s in servers
      ensures Get(st, Keys.Server(s.id)) == Some(ServerDoc(Payload(s))) && Listed(st, s.id)
    {
      assert s in multiset(servers) && s in multiset(found);
      var i :| 0 <= i < |found| && found[i] == s;
    }
    forall id ensures Shows(servers, id) <==> Listed(st, id) {
      if Listed(st, id) {
        ListedIsShown(st, read, servers, sources, found, id);
      }
      if Shows(servers, id) {
        ShownIsListed(st, servers, id);
      }
    }
  }

  lemma ShownIsListed(st: State, servers: seq<GameServer>, id: string)
    requires Shows(servers, id) && forall s | s in servers :: Listed(st, s.id)
    ensures Listed(st, id)
  {
    var i :| 0 <= i < |servers| && servers[i].id == id;
    assert servers[i] in servers;
  }

  lemma ListedIsShown(st: State, read: string -> Result<GameServer>,
      servers: seq<GameServer>, sources: seq<string>, found: seq<GameServer>, id: string)
    requires Shaped(st) && multiset(servers) == multiset(found) && Listed(st, id)
    requires Collected(read, SMembers(st, Keys.ServersIndex), sources, found)
    requires forall id | id in SMembers(st, Keys.ServersIndex) :: read(id) == LiveRecord(st, id)
    ensures Shows(servers, id)
  {
    assert read(id).Ok? && id in sources;
    var k :| 0 <= k < |sources| && sources[k] == id;
    FoundIsLive(st, read, sources, found, k);
    assert found[k] in multiset(found) && found[k] in multiset(servers);
    var i :| 0 <= i < |servers| && servers[i] == found[k];
  }

  /** Listing succeeds, and whatever it returns is exactly the live indexed servers, strictly sorted by ID. */
  ghost predicate Agrees(st: State) {
    && (forall m | m in SMembers(st, Keys.ServersIndex) :: !Fails(Reader(st), m))
    && (forall servers, sources, found | IsListing(st, servers, sources, found) :: ListsIndexed(st, servers))
  }

  lemma AgreesWhenTraced(st: State, ops: seq<Op>, n: nat)
    requires n <= |ops| && CallersValidate(ops) && Shaped(st) && Traced(st, ops, n)
    ensures Agrees(st)
  {
    MembersRead(st, ops, n);
    forall servers, sources, found | IsListing(st, servers, sources, found) ensures ListsIndexed(st, servers) {
      ListingIsIndexed(st, Reader(st), servers, sources, found);
    }
  }

  /** At every point of every run, with registrations interrupted or cut short anywhere, listing succeeds and
      shows exactly the live indexed servers. */
  lemma ListingIsExact(st: State, ops: seq<Op>, serverTTL: nat, n: nat)
    requires NoServers(st) && CallersValidate(ops) && n <= |ops|
    ensures Agrees(At(st, ops, serverTTL, n))
  {
    AlwaysShaped(st, ops, serverTTL, n);
    AlwaysTraced(st, ops, serverTTL, n);
    AgreesWhenTraced(At(st, ops, serverTTL, n), ops, n);
  }

  /** So a listing is exactly the live servers if and only if every live server was added to the index and
      the index has not lapsed since. */
  lemma RegistryAgreementIff(st: State, ops: seq<Op>, serverTTL: nat, n: nat, servers: seq<GameServer>, sources: seq<string>, found: seq<GameServer>)
    requires NoServers(st) && CallersValidate(ops) && serverTTL > 0 && n <= |ops|
    requires IsListing(At(st, ops, serverTTL, n), servers, sources, found)
    ensures ListsLive(At(st, ops, serverTTL, n), servers) <==>
            forall id | Live(At(st, ops, serverTTL, n), Keys.Server(id)) :: Kept(st, ops, serverTTL, n, id)
  {
    ListingIsExact(st, ops, serverTTL, n);
    forall id ensures Indexed(At(st, ops, serverTTL, n), id) <==> Kept(st, ops, serverTTL, n, id) {
      IndexedIffKept(st, ops, serverTTL, n, id);
    }
    LiveIffAllIndexed(At(st, ops, serverTTL, n), servers);
  }

  lemma LiveIffAllIndexed(st: State, servers: seq<GameServer>)
    requires ListsIndexed(st, servers)
    ensures ListsLive(st, servers) <==> forall id | Live(st, Keys.Server(id)) :: Indexed(st, id)
  {
  }

  /** Registry agreement: in every run of whole registrations with leases up to serverTTL every listing is
      exactly the live servers. */
  lemma RegistryAgreement(st: State, ops: seq<Op>, serverTTL: nat, n: nat)
    requires NoServers(st) && CallersValidate(ops) && Whole(ops) && BoundedLeases(st, ops, serverTTL) && n <= |ops|
    ensures var end := At(st, ops, serverTTL, n);
            && (forall m | m in SMembers(end, Keys.ServersIndex) :: !Fails(Reader(end), m))
            && (forall servers, sources, found | IsListing(end, servers, sources, found) :: ListsLive(end, servers))
  {
    ListingIsExact(st, ops, serverTTL, n);
    IndexAlwaysOutlives(st, ops, serverTTL, n);
    AllIndexed(At(st, ops, serverTTL, n), serverTTL);
  }

  lemma AllIndexed(st: State, serverTTL: nat)
    requires IndexOutlives(st, serverTTL) && Agrees(st)
    ensures forall servers, sources, found | IsListing(st, servers, sources, found) :: ListsLive(st, servers)
  {
    forall servers, sources, found | IsListing(st, servers, sources, found) ensures ListsLive(st, servers) {
      LiveIffAllIndexed(st, servers);
    }
  }

  // ---- Registrations that fail ----

  /** With nothing but time between SADD and EXPIRE, the server ends up in an index that outlives it if and
      only if the index did not lapse in between. */
  lemma SplitRegistration(st: State, s: GameServer, serverTTL: nat, gap: nat)
    requires IndexOutlives(st, serverTTL) && st.now + gap < s.expiresAt <= st.now + serverTTL
    ensures var end := ExtendIndex(Advance(AddToIndex(PutServer(st, s), s.id), gap), serverTTL);
            s.id in SMembers(end, Keys.ServersIndex) <==>
            !(Live(st, Keys.ServersIndex) && st.db[Keys.ServersIndex].expiry.value <= st.now + gap)
  {
  }

  /** The failing runs. SET alone: the server is live and in no index. */
  lemma PutAloneIsUnlisted(st: State, s: GameServer, serverTTL: nat)
    requires NoServers(st) && st.now < s.expiresAt
    ensures var end := At(st, [Put(s)], serverTTL, 1); Live(end, Keys.Server(s.id)) && !Indexed(end, s.id)
  {
    assert RegistryKey(Keys.ServersIndex);
    assert At(st, [Put(s)], serverTTL, 0) == st;
  }

  /** And a whole registration with a longer lease than serverTTL: the server outlives the index. */
  lemma LongLeaseIsUnlisted(st: State, s: GameServer, serverTTL: nat)
    requires NoServers(st) && s.expiresAt > st.now + serverTTL
    ensures var end := At(st, [Register(s), Wait(serverTTL)], serverTTL, 2); Live(end, Keys.Server(s.id)) && !Indexed(end, s.id)
  {
    var ops := [Register(s), Wait(serverTTL)];
    assert RegistryKey(Keys.ServersIndex);
    assert At(st, ops, serverTTL, 0) == st && At(st, ops, serverTTL, 1) == Registered(st, s, serverTTL);
    assert Live(AddToIndex(PutServer(st, s), s.id), Keys.ServersIndex);
    assert Registered(st, s, serverTTL).db[Keys.ServersIndex].expiry == Some(st.now + serverTTL);
    assert At(st, ops, serverTTL, 2) == Advance(Registered(st, s, serverTTL), serverTTL);
  }

  function Straddling(first: GameServer, s: GameServer, serverTTL: nat): seq<Op>
    requires serverTTL > 0
  {
    [Register(first), Wait(serverTTL - 1), Put(s), Add(s.id), Wait(1), Extend]
  }

  /** s is live, and in an index that lapses in one unit. */
  lemma LapsingIndex(st: State, first: GameServer, s: GameServer, serverTTL: nat)
    requires NoServers(st) && serverTTL > 0 && first.id != s.id
    requires first.expiresAt == st.now + serverTTL && s.expiresAt > st.now + serverTTL
    ensures var put := PutServer(Advance(Registered(st, first, serverTTL), serverTTL - 1), s);
            var added := AddToIndex(put, s.id);
            && added.now == st.now + serverTTL - 1 && Live(Advance(added, 1), Keys.Server(s.id))
            && Keys.ServersIndex in added.db && added.db[Keys.ServersIndex].expiry == Some(st.now + serverTTL)
  {
    assert RegistryKey(Keys.ServersIndex);
  }

  /** SET and SADD just before the index, left by another server, expires: the server is live and unlisted,
      both when EXPIRE never comes (after five steps) and when it comes too late (after six). */
  lemma StraddlingIsUnlisted(st: State, first: GameServer, s: GameServer, serverTTL: nat)
    requires NoServers(st) && serverTTL > 0 && first.id != s.id
    requires first.expiresAt == st.now + serverTTL && s.expiresAt > st.now + serverTTL
    ensures var ops := Straddling(first, s, serverTTL);
            forall n | 5 <= n <= 6 :: var end := At(st, ops, serverTTL, n); Live(end, Keys.Server(s.id)) && !Indexed(end, s.id)
  {
    var ops := Straddling(first, s, serverTTL);
    var put := PutServer(Advance(Registered(st, first, serverTTL), serverTTL - 1), s);
    LapsingIndex(st, first, s, serverTTL);
    StraddlingStates(st, first, s, serverTTL);
    var lapsed := Advance(AddToIndex(put, s.id), 1);
    assert !Live(lapsed, Keys.ServersIndex) && ExtendIndex(lapsed, serverTTL) == lapsed;
  }

  lemma StraddlingStates(st: State, first: GameServer, s: GameServer, serverTTL: nat)
    requires serverTTL > 0 && first.expiresAt == st.now + serverTTL && s.expiresAt > st.now + serverTTL
    ensures var ops := Straddling(first, s, serverTTL);
            var put := PutServer(Advance(Registered(st, first, serverTTL), serverTTL - 1), s);
            && At(st, ops, serverTTL, 5) == Advance(AddToIndex(put, s.id), 1)
            && At(st, ops, serverTTL, 6) == ExtendIndex(Advance(AddToIndex(put, s.id), 1), serverTTL)
  {
    var ops := Straddling(first, s, serverTTL);
    assert At(st, ops, serverTTL, 0) == st;
    assert At(st, ops, serverTTL, 1) == Registered(st, first, serverTTL);
    assert At(st, ops, serverTTL, 2) == Advance(Registered(st, first, serverTTL), serverTTL - 1);
    assert At(st, ops, serverTTL, 4) == AddToIndex(At(st, ops, serverTTL, 3), s.id);
  }

  // ---- Deregistering ----

  /** Deregistering succeeds exactly when Redis is reached; then the server is neither live nor listed, and every
      other record, and the index, read as before; otherwise nothing changes. */
  lemma DeregisterUnlists(st: State, raw: string, id: string, up: bool)
    requires RequiredID(raw) == Ok(id)
    ensures var (after, r) := DeregisterEffect(st, raw, up);
            && (r.Ok? <==> up)
            && (r.Err? ==> after == st)
            && (r.Ok? ==>
                  && !Live(after, Keys.Server(id)) && !Listed(after, id)
                  && after.now == st.now && forall k | k != Keys.Server(id) :: Get(after, k) == Get(st, k))
  {
    RecordGone(st, id);
  }

  lemma RecordGone(st: State, id: string)
    ensures var after := Deregistered(st, id);
            && !Live(after, Keys.Server(id)) && after.now == st.now
            && forall k | k != Keys.Server(id) :: Get(after, k) == Get(st, k)
  {
  }

  /** In every run, right after a server deregistered, no listing shows it, and looking it up by ID finds nothing. */
  lemma DeregisteredIsGone(st: State, ops: seq<Op>, serverTTL: nat, n: nat, raw: string, id: string, servers: seq<GameServer>, sources: seq<string>, found: seq<GameServer>)
    requires NoServers(st) && CallersValidate(ops) && n < |ops|
    requires RequiredID(raw) == Ok(id) && ops[n] == Deregister(id)
    requires IsListing(At(st, ops, serverTTL, n + 1), servers, sources, found)
    ensures !Shows(servers, id) && GetByIDResult(At(st, ops, serverTTL, n + 1), raw, true) == Err(NotFound)
  {
    var after := At(st, ops, serverTTL, n + 1);
    AfterDeregister(At(st, ops, serverTTL, n), ops[n], id, after, serverTTL);
    ListingIsExact(st, ops, serverTTL, n + 1);
    assert Agrees(after) && ListsIndexed(after, servers);
    AbsentNotFound(after, raw, id);
  }

  lemma AfterDeregister(st: State, op: Op, id: string, after: State, serverTTL: nat)
    requires op == Deregister(id) && after == Next(st, op, serverTTL)
    ensures !Live(after, Keys.Server(id)) && !Listed(after, id)
  {
  }

  lemma AbsentNotFound(st: State, raw: string, id: string)
    requires RequiredID(raw) == Ok(id) && !Live(st, Keys.Server(id))
    ensures GetByIDResult(st, raw, true) == Err(NotFound)
  {
    AcceptedIsNormalized(raw);
    assert Keys.ValidSegment(id);
  }

  // ---- Answers ----

  /** A registration answers Ok exactly when its lease is in the future, its ID is a valid segment and all three commands
      get through; one that is refused changes nothing. */
  lemma RegisterAnswers(st: State, s: GameServer, serverTTL: nat, upSet: bool, upAdd: bool, upExpire: bool)
    ensures var (after, r) := RegisterEffect(st, s, serverTTL, upSet, upAdd, upExpire);
            && (r.Ok? <==> Keys.ValidSegment(s.id) && st.now < s.expiresAt && upSet && upAdd && upExpire)
            && (r == Err(InvalidArgument) <==> !Keys.ValidSegment(s.id) || s.expiresAt <= st.now)
            && (r == Err(InvalidArgument) ==> after == st)
  {
    RegisterByFlags(st, s, serverTTL, upSet, upAdd, upExpire, Keys.ValidSegment(s.id));
  }

  lemma RegisterByFlags(st: State, s: GameServer, serverTTL: nat, upSet: bool, upAdd: bool, upExpire: bool, valid: bool)
    requires valid == Keys.ValidSegment(s.id)
    ensures RegisterEffect(st, s, serverTTL, upSet, upAdd, upExpire).1 ==
            if !valid || s.expiresAt <= st.now then Err(InvalidArgument) else if upSet && upAdd && upExpire then Ok(()) else Err(Unavailable)
    ensures !valid || s.expiresAt <= st.now ==> RegisterEffect(st, s, serverTTL, upSet, upAdd, upExpire).0 == st
  {
  }

  lemma FoundByID(st: State, raw: string, id: string)
    requires RequiredID(raw) == Ok(id)
    ensures GetByIDResult(st, raw, true) == ReadRecord(Get(st, Keys.Server(id)))
  {
    AcceptedIsNormalized(raw);
    assert Keys.ValidSegment(id);
  }

  /** In every run, looking a server up by ID answers its live record, or that there is none. */
  lemma LookupIsRecord(st: State, ops: seq<Op>, serverTTL: nat, n: nat, raw: string, id: string)
    requires NoServers(st) && CallersValidate(ops) && n <= |ops| && RequiredID(raw) == Ok(id)
    ensures var now, r := At(st, ops, serverTTL, n), GetByIDResult(At(st, ops, serverTTL, n), raw, true);
            && (r.Ok? <==> Live(now, Keys.Server(id)))
            && (r.Ok? ==> r.value.id == id && Get(now, Keys.Server(id)) == Some(ServerDoc(Payload(r.value))))
            && (r.Err? ==> r == Err(NotFound))
  {
    var now := At(st, ops, serverTTL, n);
    AlwaysShaped(st, ops, serverTTL, n);
    AlwaysTraced(st, ops, serverTTL, n);
    FoundByID(now, raw, id);
    if Live(now, Keys.Server(id)) {
      AnnouncedIsVisible(ops, n, now.db[Keys.Server(id)].value.server);
    }
    VisibleReads(now, id);
  }
}
