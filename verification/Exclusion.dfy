/** A character's lock excludes every other join for one lease. */
module Exclusion {
  import opened Wrappers
  import opened Redis
  import opened Keys
  import CharacterLocks
  import opened Handoff

  /** Step k takes the lock of `character` for server `s`. */
  ghost predicate AcquiresAt(y: System, steps: seq<Step>, k: nat, s: string, character: string)
    requires k < |steps|
  {
    var before := At(y, steps, k);
    && steps[k].Acquire? && steps[k].s == s && steps[k].up
    && s in before.servers && before.servers[s].phase.Consumed?
    && before.servers[s].phase.token.characterID == character
    && CharacterLocks.AcquireLock(before.redis, character, s, before.servers[s].lockTTL).1
  }

  predicate Releases(y: System, step: Step, s: string, character: string) {
    && step.Release? && step.s == s && step.up
    && s in y.servers && y.servers[s].phase.Releasing?
    && y.servers[s].phase.todo != [] && y.servers[s].phase.todo[0] == character
  }

  /** Step k is server s giving up the lock of `character`: after a failed load, a disconnect or a shutdown. */
  ghost predicate ReleasesAt(y: System, steps: seq<Step>, k: nat, s: string, character: string)
    requires k < |steps|
  {
    Releases(At(y, steps, k), steps[k], s, character)
  }

  predicate HeldUntil(st: State, character: string, s: string, until: nat) {
    var k := CharacterLock(character);
    k in st.db && st.db[k].value == Text(s) && st.db[k].expiry.Some? && until <= st.db[k].expiry.value
  }

  predicate HoldsLease(y: System, character: string, s: string, ttl: nat, until: nat) {
    && HeldUntil(y.redis, character, s, until) && until <= y.redis.now + ttl
    && s in y.servers && y.servers[s].lockTTL == ttl
  }

  lemma AcquireKeepsLease(y: System, s': string, up: bool, character: string, s: string, ttl: nat, until: nat)
    requires HoldsLease(y, character, s, ttl, until) && y.redis.now < until
    ensures HoldsLease(AcquireStep(y, s', up), character, s, ttl, until)
  {
  }

  lemma ReleaseKeepsLease(y: System, s': string, up: bool, character: string, s: string, ttl: nat, until: nat)
    requires HoldsLease(y, character, s, ttl, until) && y.redis.now < until
    requires !Releases(y, Step.Release(s', up), s, character)
    ensures HoldsLease(ReleaseStep(y, s', up), character, s, ttl, until)
  {
  }

  lemma RenewKeepsLease(y: System, s': string, character': string, character: string, s: string, ttl: nat, until: nat)
    requires HoldsLease(y, character, s, ttl, until) && y.redis.now < until
    ensures HoldsLease(RenewStep(y, s', character'), character, s, ttl, until)
  {
  }

  /** While a lease runs, nothing but its holder's release takes it away. */
  lemma StepKeepsLease(y: System, step: Step, character: string, s: string, ttl: nat, until: nat)
    requires HoldsLease(y, character, s, ttl, until) && y.redis.now < until
    requires !Releases(y, step, s, character)
    ensures HoldsLease(Next(y, step), character, s, ttl, until)
  {
    match step
    case Acquire(s', up) => AcquireKeepsLease(y, s', up, character, s, ttl, until);
    case Release(s', up) => ReleaseKeepsLease(y, s', up, character, s, ttl, until);
    case Renew(s', character') => RenewKeepsLease(y, s', character', character, s, ttl, until);
    case Traffic(db) => assert CharacterLock(character).CharacterLock?;
    case _ =>
  }

  lemma LeaseStarts(y: System, steps: seq<Step>, i: nat, s: string, character: string)
    requires i < |steps| && AcquiresAt(y, steps, i, s, character)
    ensures var ttl := At(y, steps, i).servers[s].lockTTL;
            HoldsLease(At(y, steps, i + 1), character, s, ttl, At(y, steps, i).redis.now + ttl)
  {
  }

  /** From the step after its acquisition, a lease holds until its end, unless its holder releases it. */
  lemma {:induction false} LeaseHolds(y: System, steps: seq<Step>, i: nat, j: nat, s: string, character: string, ttl: nat, until: nat)
    requires i <= j <= |steps|
    requires HoldsLease(At(y, steps, i), character, s, ttl, until)
    requires forall k | i <= k < j :: !ReleasesAt(y, steps, k, s, character)
    ensures HoldsLease(At(y, steps, j), character, s, ttl, until) || until <= At(y, steps, j).redis.now
  {
    if i < j {
      LeaseHolds(y, steps, i, j - 1, s, character, ttl, until);
      var before := At(y, steps, j - 1);
      assert !ReleasesAt(y, steps, j - 1, s, character);
      if before.redis.now < until {
        StepKeepsLease(before, steps[j - 1], character, s, ttl, until);
      } else {
        ClockAdvances(before, steps[j - 1]);
      }
    }
  }

  lemma ClockAdvances(y: System, step: Step)
    ensures y.redis.now <= Next(y, step).redis.now
  {
  }

  lemma FreeAtAcquire(y: System, steps: seq<Step>, j: nat, s: string, character: string)
    requires j < |steps| && AcquiresAt(y, steps, j, s, character)
    ensures !Live(At(y, steps, j).redis, CharacterLock(character))
  {
  }

  /** Exclusion: once a join on server s takes the lock of a character at time t, no later join of that
      character, on any server, takes it before t + lockTTL, unless s gave it up in between. */
  lemma NoSecondJoinWithinLease(y: System, steps: seq<Step>, i: nat, j: nat, s: string, s': string, character: string)
    requires i < j < |steps|
    requires AcquiresAt(y, steps, i, s, character) && AcquiresAt(y, steps, j, s', character)
    requires forall k | i < k < j :: !ReleasesAt(y, steps, k, s, character)
    ensures At(y, steps, i).redis.now + At(y, steps, i).servers[s].lockTTL <= At(y, steps, j).redis.now
  {
    var ttl := At(y, steps, i).servers[s].lockTTL;
    LeaseStarts(y, steps, i, s, character);
    LeaseHolds(y, steps, i + 1, j, s, character, ttl, At(y, steps, i).redis.now + ttl);
    FreeAtAcquire(y, steps, j, s', character);
  }

  // ---- Exactly how long a lock excludes ----

  predicate Renews(step: Step, s: string, character: string) {
    step.Renew? && step.s == s && step.character == character
  }

  predicate Takes(y: System, step: Step, character: string) {
    && step.Acquire? && step.up
    && step.s in y.servers && y.servers[step.s].phase.Consumed?
    && y.servers[step.s].phase.token.characterID == character
    && CharacterLocks.AcquireLock(y.redis, character, step.s, y.servers[step.s].lockTTL).1
  }

  /** Step k neither releases nor renews the lock of `character` for server s, nor takes it for anyone. */
  ghost predicate LeavesLockAt(y: System, steps: seq<Step>, k: nat, s: string, character: string)
    requires k < |steps|
  {
    && !ReleasesAt(y, steps, k, s, character)
    && !Renews(steps[k], s, character)
    && !Takes(At(y, steps, k), steps[k], character)
  }

  predicate LockStands(st: State, character: string, s: string, until: nat) {
    CharacterLock(character) in st.db && st.db[CharacterLock(character)] == Entry(Text(s), Some(until))
  }

  lemma StepLeavesLock(y: System, step: Step, character: string, s: string, until: nat)
    requires LockStands(y.redis, character, s, until)
    requires !Releases(y, step, s, character) && !Renews(step, s, character) && !Takes(y, step, character)
    ensures LockStands(Next(y, step).redis, character, s, until)
  {
    match step
    case Traffic(db) => assert CharacterLock(character).CharacterLock?;
    case _ =>
  }

  lemma LockStandsFirst(y: System, steps: seq<Step>, i: nat, s: string, character: string)
    requires i < |steps| && AcquiresAt(y, steps, i, s, character)
    ensures LockStands(At(y, steps, i + 1).redis, character, s, At(y, steps, i).redis.now + At(y, steps, i).servers[s].lockTTL)
  {
  }

  lemma {:induction false} LockStandsOn(y: System, steps: seq<Step>, i: nat, j: nat, s: string, character: string)
    requires i < j <= |steps| && AcquiresAt(y, steps, i, s, character)
    requires forall k | i < k < j :: LeavesLockAt(y, steps, k, s, character)
    ensures LockStands(At(y, steps, j).redis, character, s, At(y, steps, i).redis.now + At(y, steps, i).servers[s].lockTTL)
  {
    if i == j - 1 {
      LockStandsFirst(y, steps, i, s, character);
    } else {
      LockStandsOn(y, steps, i, j - 1, s, character);
      assert LeavesLockAt(y, steps, j - 1, s, character);
      StepLeavesLock(At(y, steps, j - 1), steps[j - 1], character, s, At(y, steps, i).redis.now + At(y, steps, i).servers[s].lockTTL);
    }
  }

  /** A lock that nobody releases, renews or retakes is live for exactly one time to live. */
  lemma LockLiveIff(y: System, steps: seq<Step>, i: nat, j: nat, s: string, character: string)
    requires i < j <= |steps| && AcquiresAt(y, steps, i, s, character)
    requires forall k | i < k < j :: LeavesLockAt(y, steps, k, s, character)
    ensures Live(At(y, steps, j).redis, CharacterLock(character)) <==>
            At(y, steps, j).redis.now < At(y, steps, i).redis.now + At(y, steps, i).servers[s].lockTTL
  {
    LockStandsOn(y, steps, i, j, s, character);
  }

  /** Step j is a server's attempt, with Redis in reach, to take the lock of `character` for a join. */
  ghost predicate TriesAt(y: System, steps: seq<Step>, j: nat, s: string, character: string)
    requires j < |steps|
  {
    var before := At(y, steps, j);
    && steps[j].Acquire? && steps[j].s == s && steps[j].up
    && s in before.servers && before.servers[s].phase.Consumed?
    && before.servers[s].phase.token.characterID == character
  }

  /** So the next join of the character, on any server, the holder's own included, takes the lock if and only
      if it comes a time to live or more after the first. */
  lemma NextJoinIff(y: System, steps: seq<Step>, i: nat, j: nat, s: string, s': string, character: string)
    requires i < j < |steps| && AcquiresAt(y, steps, i, s, character) && TriesAt(y, steps, j, s', character)
    requires forall k | i < k < j :: LeavesLockAt(y, steps, k, s, character)
    ensures AcquiresAt(y, steps, j, s', character) <==>
            At(y, steps, i).redis.now + At(y, steps, i).servers[s].lockTTL <= At(y, steps, j).redis.now
  {
    LockLiveIff(y, steps, i, j, s, character);
  }

  // ---- Why a holder gives up ----

  /** Step k finds that the join of `character` on server s cannot be completed. */
  ghost predicate LoadFailsAt(y: System, steps: seq<Step>, k: nat, s: string, character: string)
    requires k < |steps|
  {
    LoadFails(At(y, steps, k), steps[k], s, character)
  }

  /** Step k releases `character` because its player left or the server shuts down. */
  ghost predicate GivesUpAt(y: System, steps: seq<Step>, k: nat, s: string, character: string)
    requires k < |steps|
  {
    ReleasesAt(y, steps, k, s, character) && !At(y, steps, k).servers[s].phase.cause.LoadFailed?
  }

  predicate NoFailedLoad(y: System, s: string, character: string) {
    s in y.servers && y.servers[s].phase.Releasing? && y.servers[s].phase.cause.LoadFailed? ==>
      character !in y.servers[s].phase.todo
  }

  predicate LoadFails(y: System, step: Step, s: string, character: string) {
    && step.Load? && step.s == s
    && s in y.servers && y.servers[s].phase.Locked? && y.servers[s].phase.token.characterID == character
    && !Loads(y, s, step.up)
  }

  lemma StepFailsNoLoad(y: System, step: Step, s: string, character: string)
    requires NoFailedLoad(y, s, character) && !LoadFails(y, step, s, character)
    ensures NoFailedLoad(Next(y, step), s, character)
  {
  }

  lemma {:induction false} NeverFailedLoad(y: System, steps: seq<Step>, i: nat, j: nat, s: string, character: string)
    requires i <= j <= |steps| && NoFailedLoad(At(y, steps, i), s, character)
    requires forall k | i <= k < j :: !LoadFailsAt(y, steps, k, s, character)
    ensures NoFailedLoad(At(y, steps, j), s, character)
  {
    if i < j {
      NeverFailedLoad(y, steps, i, j - 1, s, character);
      assert !LoadFailsAt(y, steps, j - 1, s, character);
      StepFailsNoLoad(At(y, steps, j - 1), steps[j - 1], s, character);
    }
  }

  lemma LoadedIsNotReleased(y: System, steps: seq<Step>, i: nat, k: nat, s: string, character: string)
    requires i < k < |steps| && AcquiresAt(y, steps, i, s, character)
    requires forall m | i < m < k :: !LoadFailsAt(y, steps, m, s, character)
    requires !GivesUpAt(y, steps, k, s, character)
    ensures !ReleasesAt(y, steps, k, s, character)
  {
    LockedIsNoFailedLoad(y, steps, i, s, character);
    NeverFailedLoad(y, steps, i + 1, k, s, character);
  }

  /** So a join that loads keeps every other join of its character out for a lease, unless its server
      releases the character through a disconnect or a shutdown. */
  lemma LoadedJoinExcludes(y: System, steps: seq<Step>, i: nat, j: nat, s: string, s': string, character: string)
    requires i < j < |steps|
    requires AcquiresAt(y, steps, i, s, character) && AcquiresAt(y, steps, j, s', character)
    requires forall k | i < k < j :: !LoadFailsAt(y, steps, k, s, character)
    requires forall k | i < k < j :: !GivesUpAt(y, steps, k, s, character)
    ensures At(y, steps, i).redis.now + At(y, steps, i).servers[s].lockTTL <= At(y, steps, j).redis.now
  {
    forall k | i < k < j ensures !ReleasesAt(y, steps, k, s, character) {
      LoadedIsNotReleased(y, steps, i, k, s, character);
    }
    NoSecondJoinWithinLease(y, steps, i, j, s, s', character);
  }

  lemma LockedIsNoFailedLoad(y: System, steps: seq<Step>, i: nat, s: string, character: string)
    requires i < |steps| && AcquiresAt(y, steps, i, s, character)
    ensures NoFailedLoad(At(y, steps, i + 1), s, character)
  {
  }
}
