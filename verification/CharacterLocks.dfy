/** Owner-checked character leases: internal/store/redis/character_locks.go. */
module CharacterLocks {
  import opened Wrappers
  import opened Redis
  import opened Keys
  import opened Validate

  /** validateLockIDs. */
  function LockIDs(character: string, owner: string): Result<(string, string)> {
    match (RequiredID(character), RequiredID(owner))
    case (Ok(c), Ok(o)) => Ok((c, o))
    case _ => Err(InvalidArgument)
  }

  function EffectiveTTL(requested: int, fallback: nat): (ttl: nat)
    ensures fallback > 0 ==> ttl > 0
  {
    if requested <= 0 then fallback else requested
  }

  // ---- The three commands, on validated identifiers; each one atomic step ----

  function AcquireLock(st: State, character: string, owner: string, ttl: nat): (State, bool) {
    SetNX(st, CharacterLock(character), Text(owner), ttl)
  }

  function RenewLock(st: State, character: string, owner: string, ttl: nat): (State, bool) {
    if Get(st, CharacterLock(character)) == Some(Text(owner)) then Expire(st, CharacterLock(character), ttl)
    else (st, false)
  }

  function ReleaseLock(st: State, character: string, owner: string): (State, bool) {
    if Get(st, CharacterLock(character)) == Some(Text(owner)) then (Del(st, CharacterLock(character)), true)
    else (st, false)
  }

  // ---- The operations; `up` says whether the Redis call reaches the server ----

  function Answer(r: (State, bool)): (State, Result<bool>) {
    (r.0, Ok(r.1))
  }

  function AcquireEffect(st: State, character: string, owner: string, ttl: int, fallback: nat, up: bool): (State, Result<bool>) {
    match LockIDs(character, owner)
    case Err(e) => (st, Err(e))
    case Ok((c, o)) => if up then Answer(AcquireLock(st, c, o, EffectiveTTL(ttl, fallback))) else (st, Err(Unavailable))
  }

  function RenewEffect(st: State, character: string, owner: string, ttl: int, fallback: nat, up: bool): (State, Result<bool>) {
    match LockIDs(character, owner)
    case Err(e) => (st, Err(e))
    case Ok((c, o)) => if up then Answer(RenewLock(st, c, o, EffectiveTTL(ttl, fallback))) else (st, Err(Unavailable))
  }

  function ReleaseEffect(st: State, character: string, owner: string, up: bool): (State, Result<bool>) {
    match LockIDs(character, owner)
    case Err(e) => (st, Err(e))
    case Ok((c, o)) => if up then Answer(ReleaseLock(st, c, o)) else (st, Err(Unavailable))
  }

  class Store {
    const client: Client
    const lockTTL: nat

    constructor (client: Client, lockTTL: nat)
      requires lockTTL > 0
      ensures this.client == client && this.lockTTL == lockTTL
    {
      this.client := client;
      this.lockTTL := lockTTL;
    }

    method Acquire(character: string, owner: string, ttl: int, up: bool) returns (r: Result<bool>)
      modifies client`db
      ensures (client.Space(), r) == AcquireEffect(old(client.Space()), character, owner, ttl, lockTTL, up)
    {
      var ids := LockIDs(character, owner);
      if ids.Err? {
        return Err(ids.error);
      }
      if !up {
        return Err(Unavailable);
      }
      var locked := client.SetIfAbsent(CharacterLock(ids.value.0), Text(ids.value.1), EffectiveTTL(ttl, lockTTL));
      r := Ok(locked);
    }

    method Renew(character: string, owner: string, ttl: int, up: bool) returns (r: Result<bool>)
      modifies client`db
      ensures (client.Space(), r) == RenewEffect(old(client.Space()), character, owner, ttl, lockTTL, up)
    {
      var ids := LockIDs(character, owner);
      if ids.Err? {
        return Err(ids.error);
      }
      if !up {
        return Err(Unavailable);
      }
      var current := client.GetValue(CharacterLock(ids.value.0));
      if current == Some(Text(ids.value.1)) {
        var renewed := client.ExpireIn(CharacterLock(ids.value.0), EffectiveTTL(ttl, lockTTL));
        r := Ok(renewed);
      } else {
        r := Ok(false);
      }
    }

    method Release(character: string, owner: string, up: bool) returns (r: Result<bool>)
      modifies client`db
      ensures (client.Space(), r) == ReleaseEffect(old(client.Space()), character, owner, up)
    {
      var ids := LockIDs(character, owner);
      if ids.Err? {
        return Err(ids.error);
      }
      if !up {
        return Err(Unavailable);
      }
      var current := client.GetValue(CharacterLock(ids.value.0));
      if current == Some(Text(ids.value.1)) {
        client.Delete(CharacterLock(ids.value.0));
        r := Ok(true);
      } else {
        r := Ok(false);
      }
    }
  }

  // ---- Who holds a lock ----

  /** The owner of a character's lock now, if it is held. */
  function Holder(st: State, character: string): Option<string> {
    match Get(st, CharacterLock(character))
    case Some(Text(owner)) => Some(owner)
    case _ => None
  }

  /** A late renew or release by an owner whose lease lapsed or passed to another owner changes nothing. */
  lemma LateOwnerChangesNothing(st: State, character: string, owner: string, ttl: int, fallback: nat, up: bool)
    requires LockIDs(character, owner).Ok?
    requires var (c, o) := LockIDs(character, owner).value; Holder(st, c) != Some(o)
    ensures RenewEffect(st, character, owner, ttl, fallback, up) == (st, if up then Ok(false) else Err(Unavailable))
    ensures ReleaseEffect(st, character, owner, up) == (st, if up then Ok(false) else Err(Unavailable))
  {
  }

  /** Only the lock of this character may differ. */
  predicate OnlyLock(st: State, st': State, character: string) {
    st'.now == st.now && st'.db - {CharacterLock(character)} == st.db - {CharacterLock(character)}
  }

  predicate LockedFor(st: State, character: string, owner: string, ttl: nat) {
    CharacterLock(character) in st.db && st.db[CharacterLock(character)] == Entry(Text(owner), Some(st.now + ttl))
  }

  /** Acquiring answers whether nobody had the lock, and then the owner has it for the time to live from now. */
  lemma AcquireMeans(st: State, c: string, o: string, ttl: nat)
    ensures var (st', locked) := AcquireLock(st, c, o, ttl);
            && (locked <==> !Live(st, CharacterLock(c))) && OnlyLock(st, st', c)
            && if locked then LockedFor(st', c, o, ttl) else st' == st
  {
    assert st.db[CharacterLock(c) := Entry(Text(o), Some(st.now + ttl))] - {CharacterLock(c)} == st.db - {CharacterLock(c)};
  }

  /** Renewing answers whether the owner had the lock, and then it has it for the time to live from now. */
  lemma RenewMeans(st: State, c: string, o: string, ttl: nat)
    ensures var (st', renewed) := RenewLock(st, c, o, ttl);
            && (renewed <==> Holder(st, c) == Some(o)) && OnlyLock(st, st', c)
            && if renewed then LockedFor(st', c, o, ttl) else st' == st
  {
    assert st.db[CharacterLock(c) := Entry(Text(o), Some(st.now + ttl))] - {CharacterLock(c)} == st.db - {CharacterLock(c)};
  }

  /** Releasing answers whether the owner had the lock, and then nobody has it. */
  lemma ReleaseMeans(st: State, c: string, o: string)
    ensures var (st', released) := ReleaseLock(st, c, o);
            && (released <==> Holder(st, c) == Some(o)) && OnlyLock(st, st', c)
            && if released then !Live(st', CharacterLock(c)) else st' == st
  {
  }

  /** With valid identifiers and Redis in reach the three operations are the commands, with the store's own time to
      live in place of one that is not positive; otherwise they change nothing. */
  lemma OperationsAreSteps(st: State, character: string, owner: string, c: string, o: string, ttl: int, fallback: nat, up: bool)
    requires RequiredID(character) == Ok(c) && RequiredID(owner) == Ok(o)
    ensures var t: nat := if ttl > 0 then ttl else fallback;
            && AcquireEffect(st, character, owner, ttl, fallback, up)
            == (if up then (Next(st, Op.Acquire(c, o, t)), Ok(!Live(st, CharacterLock(c)))) else (st, Err(Unavailable)))
            && RenewEffect(st, character, owner, ttl, fallback, up)
            == (if up then (Next(st, Op.Renew(c, o, t)), Ok(Holder(st, c) == Some(o))) else (st, Err(Unavailable)))
            && ReleaseEffect(st, character, owner, up)
            == (if up then (Next(st, Op.Release(c, o)), Ok(Holder(st, c) == Some(o))) else (st, Err(Unavailable)))
  {
    var t: nat := if ttl > 0 then ttl else fallback;
    AcquireMeans(st, c, o, t);
    RenewMeans(st, c, o, t);
    ReleaseMeans(st, c, o);
  }

  /** An identifier that validation refuses is refused, and nothing changes. */
  lemma BadIDsRefused(st: State, character: string, owner: string, ttl: int, fallback: nat, up: bool)
    requires RequiredID(character).Err? || RequiredID(owner).Err?
    ensures AcquireEffect(st, character, owner, ttl, fallback, up) == (st, Err(InvalidArgument))
    ensures RenewEffect(st, character, owner, ttl, fallback, up) == (st, Err(InvalidArgument))
    ensures ReleaseEffect(st, character, owner, up) == (st, Err(InvalidArgument))
  {
  }

  // ---- Runs and their leases ----

  /** Steps on validated identifiers. A call that fails validation or does not reach Redis is no step. */
  datatype Op =
    | Acquire(character: string, owner: string, ttl: nat)
    | Renew(character: string, owner: string, ttl: nat)
    | Release(character: string, owner: string)
    | Wait(d: nat)
    | Traffic(db: map<Key, Entry>)

  ghost predicate AgreeOnLocks(a: map<Key, Entry>, b: map<Key, Entry>) {
    forall k: Key | k.CharacterLock? :: (k in a <==> k in b) && (k in a ==> a[k] == b[k])
  }

  ghost function Next(st: State, op: Op): State {
    match op
    case Acquire(c, o, ttl) => AcquireLock(st, c, o, ttl).0
    case Renew(c, o, ttl) => RenewLock(st, c, o, ttl).0
    case Release(c, o) => ReleaseLock(st, c, o).0
    case Wait(d) => Advance(st, d)
    case Traffic(db) => if AgreeOnLocks(st.db, db) then st.(db := db) else st
  }

  ghost function At(st: State, ops: seq<Op>, n: nat): State
    requires n <= |ops|
  {
    if n == 0 then st else Next(At(st, ops, n - 1), ops[n - 1])
  }

  /** One stretch of time during which one owner holds the lock: from <= t < until. */
  datatype Lease = Lease(owner: string, from: nat, until: nat)

  /** The leases of one character so far, recorded from the answers the commands give. */
  ghost function Ledger(st: State, ops: seq<Op>, n: nat, character: string): seq<Lease>
    requires n <= |ops|
  {
    if n == 0 then [] else Recorded(Ledger(st, ops, n - 1, character), At(st, ops, n - 1), ops[n - 1], character)
  }

  function Recorded(ledger: seq<Lease>, st: State, op: Op, character: string): seq<Lease> {
    match op
    case Acquire(c, o, ttl) =>
      if c == character && AcquireLock(st, c, o, ttl).1 then ledger + [Lease(o, st.now, st.now + ttl)] else ledger
    case Renew(c, o, ttl) =>
      if c == character && RenewLock(st, c, o, ttl).1 && ledger != [] then LastEndsAt(ledger, st.now + ttl) else ledger
    case Release(c, o) =>
      if c == character && ReleaseLock(st, c, o).1 && ledger != [] then LastEndsAt(ledger, st.now) else ledger
    case _ => ledger
  }

  function LastEndsAt(ledger: seq<Lease>, until: nat): seq<Lease>
    requires ledger != []
  {
    ledger[|ledger| - 1 := ledger[|ledger| - 1].(until := until)]
  }

  /** Each lease ends no later than the next begins. */
  predicate Consecutive(ledger: seq<Lease>) {
    && (forall i | 0 <= i < |ledger| :: ledger[i].from <= ledger[i].until)
    && (forall i, j | 0 <= i < j < |ledger| :: ledger[i].until <= ledger[j].from)
  }

  lemma LeaseAppended(ledger: seq<Lease>, lease: Lease)
    requires Consecutive(ledger) && lease.from <= lease.until
    requires ledger != [] ==> ledger[|ledger| - 1].until <= lease.from
    ensures Consecutive(ledger + [lease])
  {
  }

  lemma LeaseMoved(ledger: seq<Lease>, until: nat)
    requires ledger != [] && Consecutive(ledger) && ledger[|ledger| - 1].from <= until
    ensures Consecutive(LastEndsAt(ledger, until))
  {
  }

  /** The lock entry, when there is one, is the last lease; without a live entry every lease has ended. */
  ghost predicate Matches(ledger: seq<Lease>, st: State, character: string) {
    && Consecutive(ledger)
    && (ledger != [] ==> ledger[|ledger| - 1].from <= st.now)
    && EndsWith(ledger, st, CharacterLock(character))
  }

  predicate EndsWith(ledger: seq<Lease>, st: State, k: Key) {
    if ledger == [] then k !in st.db
    else
      var last := ledger[|ledger| - 1];
      && (k in st.db ==> st.db[k] == Entry(Text(last.owner), Some(last.until)))
      && (k !in st.db ==> last.until <= st.now)
  }

  lemma AcquireMatches(ledger: seq<Lease>, st: State, c: string, o: string, ttl: nat, character: string)
    requires Matches(ledger, st, character)
    ensures Matches(Recorded(ledger, st, Op.Acquire(c, o, ttl), character), Next(st, Op.Acquire(c, o, ttl)), character)
  {
    if c == character && !Live(st, CharacterLock(c)) {
      LeaseAppended(ledger, Lease(o, st.now, st.now + ttl));
    }
  }

  lemma RenewMatches(ledger: seq<Lease>, st: State, c: string, o: string, ttl: nat, character: string)
    requires Matches(ledger, st, character)
    ensures Matches(Recorded(ledger, st, Op.Renew(c, o, ttl), character), Next(st, Op.Renew(c, o, ttl)), character)
  {
    if ledger != [] {
      LeaseMoved(ledger, st.now + ttl);
    }
  }

  lemma ReleaseMatches(ledger: seq<Lease>, st: State, c: string, o: string, character: string)
    requires Matches(ledger, st, character)
    ensures Matches(Recorded(ledger, st, Op.Release(c, o), character), Next(st, Op.Release(c, o)), character)
  {
    if ledger != [] {
      LeaseMoved(ledger, st.now);
    }
  }

  lemma StepMatches(ledger: seq<Lease>, st: State, op: Op, character: string)
    requires Matches(ledger, st, character)
    ensures Matches(Recorded(ledger, st, op, character), Next(st, op), character)
  {
    match op
    case Acquire(c, o, ttl) => AcquireMatches(ledger, st, c, o, ttl, character);
    case Renew(c, o, ttl) => RenewMatches(ledger, st, c, o, ttl, character);
    case Release(c, o) => ReleaseMatches(ledger, st, c, o, character);
    case Wait(d) =>
    case Traffic(db) => assert CharacterLock(character).CharacterLock?;
  }

  lemma {:induction false} LedgerMatches(st: State, ops: seq<Op>, n: nat, character: string)
    requires n <= |ops| && CharacterLock(character) !in st.db
    ensures Matches(Ledger(st, ops, n, character), At(st, ops, n), character)
  {
    if n > 0 {
      LedgerMatches(st, ops, n - 1, character);
      StepMatches(Ledger(st, ops, n - 1, character), At(st, ops, n - 1), ops[n - 1], character);
    }
  }

  lemma MatchingHolder(ledger: seq<Lease>, st: State, character: string, owner: string)
    requires Matches(ledger, st, character)
    ensures Holder(st, character) == Some(owner) <==>
            exists i | 0 <= i < |ledger| :: ledger[i].owner == owner && ledger[i].from <= st.now < ledger[i].until
  {
    var last := |ledger| - 1;
    if Holder(st, character) == Some(owner) {
      assert ledger[last].owner == owner && ledger[last].from <= st.now < ledger[last].until;
    }
    assert forall i | 0 <= i < last :: ledger[i].until <= ledger[last].from;
  }

  /** Lease safety: over any run the leases of a character are pairwise disjoint, and the lock is held by
      `owner` at the end of the run exactly when the clock is inside one of that owner's leases. */
  lemma LeasesDisjoint(st: State, ops: seq<Op>, n: nat, character: string, owner: string)
    requires n <= |ops| && CharacterLock(character) !in st.db
    ensures var ledger := Ledger(st, ops, n, character);
            && (forall i, j | 0 <= i < j < |ledger| :: ledger[i].until <= ledger[j].from)
            && (Holder(At(st, ops, n), character) == Some(owner) <==>
                exists i | 0 <= i < |ledger| ::
                  ledger[i].owner == owner && ledger[i].from <= At(st, ops, n).now < ledger[i].until)
  {
    LedgerMatches(st, ops, n, character);
    MatchingHolder(Ledger(st, ops, n, character), At(st, ops, n), character, owner);
  }
}
