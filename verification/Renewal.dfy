/** What the documented heartbeat would give: if every lock is renewed in time, no lease ever lapses. */
module Renewal {
  import opened Wrappers
  import opened GameState
  import opened Handoff
  import opened Coherence
  import Exclusion

  /** Until when the lock of peer p's session on server s is kept by the run's steps: a time to live from when
      the join took the lock, then from each renewal attempted for its character. */
  ghost function KeptUntil(y: System, steps: seq<Step>, n: nat, s: string, p: Peer): nat
    requires n <= |steps|
  {
    if n == 0 then 0 else Keeps(At(y, steps, n - 1), steps[n - 1], s, p, KeptUntil(y, steps, n - 1, s, p))
  }

  predicate Joins(y: System, step: Step, s: string, p: Peer) {
    step.Load? && step.s == s && Loads(y, s, step.up) && y.servers[s].phase.peer == p
  }

  predicate Renews(y: System, step: Step, s: string, p: Peer) {
    && step.Renew? && step.s == s && s in y.servers && p in y.servers[s].game.sessions
    && y.servers[s].game.sessions[p].characterID == step.character
  }

  function Keeps(y: System, step: Step, s: string, p: Peer, until: nat): nat {
    if Joins(y, step, s, p) then y.servers[s].phase.leaseEnd
    else if Renews(y, step, s, p) then y.redis.now + y.servers[s].lockTTL
    else until
  }

  /** Every session of s is kept beyond step m. */
  ghost predicate InTimeAt(y: System, steps: seq<Step>, m: nat, s: string)
    requires m <= |steps|
  {
    var end := At(y, steps, m);
    s in end.servers ==> forall p | p in end.servers[s].game.sessions :: end.redis.now < KeptUntil(y, steps, m, s, p)
  }

  /** The ticket of p, if it has one, is of a session and records what the run's steps keep. */
  predicate Records(y: System, s: string, p: Peer, until: nat) {
    s in y.servers && p in y.servers[s].tickets ==>
      p in y.servers[s].game.sessions && y.servers[s].tickets[p].leaseEnd == until
  }

  lemma RenewRecords(y: System, s: string, character: string, p: Peer, until: nat)
    requires s in y.servers && !Stopping(y.servers[s]) && ServerOk(y.redis, s, y.servers[s]) && NoneOutlived(y, s)
    requires Records(y, s, p, until)
    ensures Records(RenewStep(y, s, character), s, p, Keeps(y, Step.Renew(s, character), s, p, until))
  {
    if p in y.servers[s].game.sessions && y.servers[s].game.sessions[p].characterID == character {
      RenewExtends(y, s, p);
    }
  }

  lemma LoadRecords(y: System, s: string, up: bool, p: Peer, until: nat)
    requires s in y.servers && Records(y, s, p, until)
    ensures Records(LoadStep(y, s, up), s, p, Keeps(y, Step.Load(s, up), s, p, until))
  {
  }

  lemma OtherStepsRecord(y: System, step: Step, s: string, p: Peer, until: nat)
    requires s in y.servers && Records(y, s, p, until)
    requires !(step.Renew? && step.s == s) && !(step.Load? && step.s == s)
    ensures Records(Next(y, step), s, p, until)
  {
  }

  lemma StepRecords(y: System, step: Step, s: string, p: Peer, until: nat)
    requires s in y.servers && !Stopping(y.servers[s]) && ServerOk(y.redis, s, y.servers[s]) && NoneOutlived(y, s)
    requires Records(y, s, p, until)
    ensures Records(Next(y, step), s, p, Keeps(y, step, s, p, until))
  {
    if step.Renew? && step.s == s {
      RenewRecords(y, s, step.character, p, until);
    } else if step.Load? && step.s == s {
      LoadRecords(y, s, step.up, p, until);
    } else {
      OtherStepsRecord(y, step, s, p, until);
    }
  }

  lemma StartRecords(y: System, step: Step, s: string, p: Peer, until: nat)
    requires s !in y.servers && s in Next(y, step).servers
    ensures Records(Next(y, step), s, p, until)
  {
    OnlyStartAdds(y, step, s);
  }

  predicate Running(y: System, s: string) {
    s in y.servers ==> !Stopping(y.servers[s])
  }

  lemma StoppingStays(y: System, step: Step, s: string)
    requires Running(Next(y, step), s)
    ensures Running(y, s)
  {
  }

  ghost predicate Kept(y: System, steps: seq<Step>, n: nat, s: string)
    requires n <= |steps|
  {
    && OkIfRunning(At(y, steps, n), s) && NoneOutlivedAt(y, steps, n, s)
    && forall p :: Records(At(y, steps, n), s, p, KeptUntil(y, steps, n, s, p))
  }

  /** Tickets that record what is kept, and kept in time, are not outlived. */
  lemma InTimeNotOutlived(y: System, steps: seq<Step>, n: nat, s: string)
    requires n <= |steps| && InTimeAt(y, steps, n, s)
    requires forall p :: Records(At(y, steps, n), s, p, KeptUntil(y, steps, n, s, p))
    ensures NoneOutlivedAt(y, steps, n, s)
  {
    var end := At(y, steps, n);
    if s in end.servers {
      forall p | p in end.servers[s].tickets ensures end.redis.now < end.servers[s].tickets[p].leaseEnd {
        assert Records(end, s, p, KeptUntil(y, steps, n, s, p));
      }
    }
  }

  lemma RecordsOneMore(y: System, steps: seq<Step>, n: nat, s: string, p: Peer)
    requires 0 < n <= |steps| && Kept(y, steps, n - 1, s) && Running(At(y, steps, n - 1), s)
    ensures Records(At(y, steps, n), s, p, KeptUntil(y, steps, n, s, p))
  {
    var before := At(y, steps, n - 1);
    assert Records(before, s, p, KeptUntil(y, steps, n - 1, s, p));
    if s in before.servers {
      StepRecords(before, steps[n - 1], s, p, KeptUntil(y, steps, n - 1, s, p));
    } else if s in At(y, steps, n).servers {
      StartRecords(before, steps[n - 1], s, p, KeptUntil(y, steps, n, s, p));
    }
  }

  lemma {:induction false} AlwaysKept(y: System, steps: seq<Step>, n: nat, s: string)
    requires Init(y) && n <= |steps| && Running(At(y, steps, n), s)
    requires forall m | 0 <= m <= n :: InTimeAt(y, steps, m, s)
    ensures Kept(y, steps, n, s)
  {
    if n > 0 {
      StoppingStays(At(y, steps, n - 1), steps[n - 1], s);
      AlwaysKept(y, steps, n - 1, s);
      forall p ensures Records(At(y, steps, n), s, p, KeptUntil(y, steps, n, s, p)) {
        RecordsOneMore(y, steps, n, s, p);
      }
      assert InTimeAt(y, steps, n, s);
      InTimeNotOutlived(y, steps, n, s);
      CharsKeyed(y, steps, n - 1);
      StaysOkAt(y, steps, n, s);
    }
  }

  lemma {:induction false} RunningBefore(y: System, steps: seq<Step>, m: nat, n: nat, s: string)
    requires m <= n <= |steps| && Running(At(y, steps, n), s)
    ensures Running(At(y, steps, m), s)
  {
    if m < n {
      StoppingStays(At(y, steps, n - 1), steps[n - 1], s);
      RunningBefore(y, steps, m, n - 1, s);
    }
  }

  /** If at every moment each session of a server joined, or had a renewal attempted, less than a lock's time
      to live ago, then every one of those renewals succeeds and no lease ever lapses: the lease hypothesis of
      the other theorems holds throughout, until the server shuts down. */
  lemma RenewalsSuffice(y: System, steps: seq<Step>, n: nat, s: string)
    requires Init(y) && n <= |steps| && Running(At(y, steps, n), s)
    requires forall m | 0 <= m <= n :: InTimeAt(y, steps, m, s)
    ensures forall m | 0 <= m <= n :: NoneOutlivedAt(y, steps, m, s)
    ensures s in At(y, steps, n).servers ==> Coherent(At(y, steps, n), s)
  {
    forall m | 0 <= m <= n ensures NoneOutlivedAt(y, steps, m, s) {
      RunningBefore(y, steps, m, n, s);
      AlwaysKept(y, steps, m, s);
    }
    if s in At(y, steps, n).servers {
      ServerStaysCoherent(y, steps, n, s);
    }
  }
}
