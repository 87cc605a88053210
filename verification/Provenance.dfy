/** Every join traces to one issued token, and every token joins at most once. */
module Provenance {
  import opened Wrappers
  import opened Redis
  import opened Keys
  import opened Domain
  import opened GameState
  import opened Handoff
  import JoinTokens

  // ---- Tokens in the system: in Redis, or in the hands of one server, never both ----

  /** The token a server holds between consuming it and entering its player. */
  function InHand(g: GameServer): Option<JoinTokens.JoinToken> {
    match g.phase
    case Consumed(_, t, _) => Some(t)
    case Locked(_, t, _, _) => Some(t)
    case _ => None
  }

  predicate Holds(y: System, s: string, token: string) {
    s in y.servers && InHand(y.servers[s]).Some? && InHand(y.servers[s]).value.token == token
  }

  ghost predicate OneHolder(y: System) {
    && (forall token | JoinToken(token) in y.redis.db :: token in y.issued)
    && (forall s, token | Holds(y, s, token) :: token in y.issued && JoinToken(token) !in y.redis.db)
    && (forall s, s', token | Holds(y, s, token) && Holds(y, s', token) :: s == s')
  }

  lemma ConsumeKeepsOneHolder(y: System, s: string, peer: Peer, token: string, character: string, up: bool, valid: bool)
    requires OneHolder(y)
    ensures OneHolder(ConsumeStep(y, s, peer, token, character, up, valid))
  {
    var y' := ConsumeStep(y, s, peer, token, character, up, valid);
    forall s', t | Holds(y', s', t) ensures t in y'.issued && JoinToken(t) !in y'.redis.db {
      assert Holds(y, s', t) || (s' == s && t == token);
    }
    forall s1, s2, t | Holds(y', s1, t) && Holds(y', s2, t) ensures s1 == s2 {
      assert Holds(y, s1, t) || (s1 == s && t == token);
      assert Holds(y, s2, t) || (s2 == s && t == token);
    }
  }

  lemma IssueKeepsOneHolder(y: System, t: JoinTokens.JoinToken)
    requires OneHolder(y)
    ensures OneHolder(IssueStep(y, t))
  {
    assert forall s, token :: Holds(IssueStep(y, t), s, token) == Holds(y, s, token);
  }

  /** The steps that neither issue nor consume a token leave every hand with what it had, or empty. */
  lemma OtherHands(y: System, step: Step)
    requires !step.Issue? && !step.Consume?
    ensures Next(y, step).issued == y.issued
    ensures forall s, token | Holds(Next(y, step), s, token) :: Holds(y, s, token)
  {
  }

  lemma OtherTokenKeys(y: System, step: Step, token: string)
    requires !step.Issue? && !step.Consume?
    ensures JoinToken(token) in Next(y, step).redis.db <==> JoinToken(token) in y.redis.db
  {
  }

  lemma SameHands(y: System, y': System)
    requires OneHolder(y) && y'.issued == y.issued
    requires forall s, token | Holds(y', s, token) :: Holds(y, s, token)
    requires forall token :: JoinToken(token) in y'.redis.db ==> JoinToken(token) in y.redis.db
    ensures OneHolder(y')
  {
  }

  lemma StepKeepsOneHolder(y: System, step: Step)
    requires OneHolder(y)
    ensures OneHolder(Next(y, step))
  {
    match step
    case Consume(s, peer, token, character, up, valid) => ConsumeKeepsOneHolder(y, s, peer, token, character, up, valid);
    case Issue(t) => IssueKeepsOneHolder(y, t);
    case _ =>
      OtherHands(y, step);
      forall token ensures JoinToken(token) in Next(y, step).redis.db <==> JoinToken(token) in y.redis.db {
        OtherTokenKeys(y, step, token);
      }
      SameHands(y, Next(y, step));
  }

  lemma {:induction false} AlwaysOneHolder(y: System, steps: seq<Step>, n: nat)
    requires Init(y) && n <= |steps|
    ensures OneHolder(At(y, steps, n))
  {
    if n == 0 {
      assert forall token :: JoinToken(token).JoinToken?;
    } else {
      AlwaysOneHolder(y, steps, n - 1);
      StepKeepsOneHolder(At(y, steps, n - 1), steps[n - 1]);
    }
  }

  // ---- Single use ----

  /** Step k completes a join that was admitted by `token`. */
  ghost predicate JoinsAt(y: System, steps: seq<Step>, k: nat, s: string, token: string)
    requires k < |steps|
  {
    && steps[k].Load? && steps[k].s == s && Loads(At(y, steps, k), s, steps[k].up)
    && At(y, steps, k).servers[s].phase.token.token == token
  }

  /** The token is gone from Redis and from every server's hands, and cannot be issued again. */
  ghost predicate Spent(y: System, token: string) {
    token in y.issued && JoinToken(token) !in y.redis.db && forall s :: !Holds(y, s, token)
  }

  lemma ConsumeKeepsSpent(y: System, s: string, peer: Peer, t: string, character: string, up: bool, valid: bool, token: string)
    requires Spent(y, token)
    ensures Spent(ConsumeStep(y, s, peer, t, character, up, valid), token)
  {
    var y' := ConsumeStep(y, s, peer, t, character, up, valid);
    forall s' ensures !Holds(y', s', token) {
      assert !Holds(y, s', token);
    }
  }

  lemma IssueKeepsSpent(y: System, t: JoinTokens.JoinToken, token: string)
    requires Spent(y, token)
    ensures Spent(IssueStep(y, t), token)
  {
    assert forall s :: Holds(IssueStep(y, t), s, token) == Holds(y, s, token);
  }

  lemma StepKeepsSpent(y: System, step: Step, token: string)
    requires Spent(y, token)
    ensures Spent(Next(y, step), token)
  {
    match step
    case Consume(s, peer, t, character, up, valid) => ConsumeKeepsSpent(y, s, peer, t, character, up, valid, token);
    case Issue(t) => IssueKeepsSpent(y, t, token);
    case _ =>
      OtherHands(y, step);
      OtherTokenKeys(y, step, token);
  }

  lemma JoinSpends(y: System, step: Step, s: string, token: string)
    requires OneHolder(y) && step.Load? && step.s == s && Loads(y, s, step.up) && y.servers[s].phase.token.token == token
    ensures Spent(Next(y, step), token)
  {
    assert Holds(y, s, token);
    var y' := Next(y, step);
    forall s' ensures !Holds(y', s', token) {
      assert Holds(y, s', token) ==> s' == s;
    }
  }

  lemma {:induction false} StaysSpent(y: System, steps: seq<Step>, i: nat, j: nat, token: string)
    requires i <= j <= |steps| && Spent(At(y, steps, i), token)
    ensures Spent(At(y, steps, j), token)
  {
    if i < j {
      StaysSpent(y, steps, i, j - 1, token);
      StepKeepsSpent(At(y, steps, j - 1), steps[j - 1], token);
    }
  }

  /** Single use: in every run, over all servers, a token completes at most one join. */
  lemma TokenJoinsOnce(y: System, steps: seq<Step>, i: nat, j: nat, s: string, s': string, token: string)
    requires Init(y) && i < |steps| && j < |steps|
    requires JoinsAt(y, steps, i, s, token) && JoinsAt(y, steps, j, s', token)
    ensures i == j && s == s'
  {
    if i < j {
      NoSecondJoin(y, steps, i, j, s, s', token);
    } else if j < i {
      NoSecondJoin(y, steps, j, i, s', s, token);
    }
  }

  lemma NoSecondJoin(y: System, steps: seq<Step>, i: nat, j: nat, s: string, s': string, token: string)
    requires Init(y) && i < j < |steps| && JoinsAt(y, steps, i, s, token)
    ensures !JoinsAt(y, steps, j, s', token)
  {
    AlwaysOneHolder(y, steps, i);
    JoinSpends(At(y, steps, i), steps[i], s, token);
    StaysSpent(y, steps, i + 1, j, token);
    assert !Holds(At(y, steps, j), s', token);
  }

  // ---- Origin ----

  /** An issued token and the time of its issue. */
  datatype Record = Record(t: JoinTokens.JoinToken, at: nat)

  ghost predicate IssuedAt(y: System, steps: seq<Step>, k: nat, t: JoinTokens.JoinToken)
    requires k < |steps|
  {
    steps[k] == Issue(t) && CanIssue(At(y, steps, k), t)
  }

  ghost function NewRecords(y: System, step: Step): set<Record> {
    if step.Issue? && CanIssue(y, step.t) then {Record(step.t, y.redis.now)} else {}
  }

  ghost function Log(y: System, steps: seq<Step>, n: nat): set<Record>
    requires n <= |steps|
  {
    if n == 0 then {} else Log(y, steps, n - 1) + NewRecords(At(y, steps, n - 1), steps[n - 1])
  }

  predicate TokenEntry(e: Entry, token: string) {
    e.value.TokenDoc? && e.expiry.Some? && e.expiry.value == e.value.token.expiresAt
  }

  /** The token in Redis was issued as it stands there. */
  ghost predicate StoredFrom(e: Entry, token: string, log: set<Record>, now: nat)
    requires TokenEntry(e, token)
  {
    exists r | r in log :: r.t == JoinTokens.FromPayload(token, e.value.token) && r.at <= now
  }

  /** The token was issued for server s and consumed before it expired. */
  predicate ConsumedFrom(r: Record, s: string, t: JoinTokens.JoinToken, consumedAt: nat) {
    r.t == t && t.serverID == s && r.at <= consumedAt < t.expiresAt
  }

  function ConsumedTime(g: GameServer): nat
    requires InHand(g).Some?
  {
    g.phase.consumedAt
  }

  /** The session's user and character are those of a token issued for server s and consumed in time. */
  predicate Admits(r: Record, s: string, session: SessionVal, ticket: Ticket) {
    && r.t.userID == session.userID && r.t.characterID == session.characterID
    && r.t.token == ticket.token && ConsumedFrom(r, s, r.t, ticket.consumedAt)
  }

  ghost predicate StoredTraced(y: System, log: set<Record>) {
    forall token | JoinToken(token) in y.redis.db ::
      TokenEntry(y.redis.db[JoinToken(token)], token) && StoredFrom(y.redis.db[JoinToken(token)], token, log, y.redis.now)
  }

  ghost predicate HandTraced(g: GameServer, s: string, log: set<Record>) {
    InHand(g).Some? ==> exists r | r in log :: ConsumedFrom(r, s, InHand(g).value, ConsumedTime(g))
  }

  ghost predicate SessionTraced(g: GameServer, s: string, p: Peer, log: set<Record>) {
    p in g.game.sessions ==> p in g.tickets && exists r | r in log :: Admits(r, s, g.game.sessions[p], g.tickets[p])
  }

  ghost predicate ServerTraced(g: GameServer, s: string, log: set<Record>) {
    HandTraced(g, s, log) && forall p :: SessionTraced(g, s, p, log)
  }

  ghost predicate Traced(y: System, log: set<Record>) {
    && KeyedByID(y.chars)
    && StoredTraced(y, log)
    && forall s | s in y.servers :: ServerTraced(y.servers[s], s, log)
  }

  lemma TracedGrows(y: System, log: set<Record>, more: set<Record>)
    requires Traced(y, log)
    ensures Traced(y, log + more)
  {
    forall s | s in y.servers ensures ServerTraced(y.servers[s], s, log + more) {
      assert ServerTraced(y.servers[s], s, log);
      forall p ensures SessionTraced(y.servers[s], s, p, log + more) {
        assert SessionTraced(y.servers[s], s, p, log);
      }
    }
  }

  lemma IssueTraced(y: System, t: JoinTokens.JoinToken, log: set<Record>)
    requires Traced(y, log) && CanIssue(y, t) && Record(t, y.redis.now) in log
    ensures Traced(IssueStep(y, t), log)
  {
  }

  /** Replacing one server, with Redis losing at most some tokens, keeps the trace if that server has one. */
  lemma ServerReplaced(y: System, st: State, s: string, g: GameServer, log: set<Record>)
    requires Traced(y, log) && ServerTraced(g, s, log)
    requires st.now == y.redis.now
    requires forall token | JoinToken(token) in st.db ::
               JoinToken(token) in y.redis.db && st.db[JoinToken(token)] == y.redis.db[JoinToken(token)]
    ensures Traced(With(y.(redis := st), s, g), log)
  {
  }

  lemma ConsumeTraced(y: System, s: string, peer: Peer, token: string, character: string, up: bool, valid: bool, log: set<Record>)
    requires Traced(y, log)
    ensures Traced(ConsumeStep(y, s, peer, token, character, up, valid), log)
  {
    if InPhase(y, s, true) && up {
      var g := y.servers[s];
      assert ServerTraced(g, s, log);
      var accepted := Accepted(y, s, token, character, valid);
      var g' := if accepted.Some? then g.(phase := Consumed(peer, accepted.value, y.redis.now)) else g;
      forall p ensures SessionTraced(g', s, p, log) {
        assert SessionTraced(g, s, p, log);
      }
      if accepted.Some? {
        var e := y.redis.db[JoinToken(token)];
        assert StoredFrom(e, token, log, y.redis.now);
        var r :| r in log && r.t == JoinTokens.FromPayload(token, e.value.token) && r.at <= y.redis.now;
        assert ConsumedFrom(r, s, accepted.value, y.redis.now);
      }
      ServerReplaced(y, JoinTokens.TakeToken(y.redis, token).0, s, g', log);
    }
  }

  predicate SameTicket(a: Ticket, b: Ticket) {
    a.token == b.token && a.consumedAt == b.consumedAt
  }

  /** A change that keeps users, characters and token of every session, and empties or keeps the hand. */
  lemma SameOrigin(g: GameServer, g': GameServer, s: string, log: set<Record>)
    requires ServerTraced(g, s, log)
    requires InHand(g').Some? ==> InHand(g') == InHand(g) && ConsumedTime(g') == ConsumedTime(g)
    requires forall p | p in g'.game.sessions ::
               && p in g.game.sessions
               && g'.game.sessions[p].userID == g.game.sessions[p].userID
               && g'.game.sessions[p].characterID == g.game.sessions[p].characterID
               && (p in g.tickets ==> p in g'.tickets && SameTicket(g.tickets[p], g'.tickets[p]))
    ensures ServerTraced(g', s, log)
  {
    forall p ensures SessionTraced(g', s, p, log) {
      assert SessionTraced(g, s, p, log);
      if p in g'.game.sessions {
        var r :| r in log && Admits(r, s, g.game.sessions[p], g.tickets[p]);
        assert Admits(r, s, g'.game.sessions[p], g'.tickets[p]);
      }
    }
  }

  lemma EnterTraced(g: GameServer, c: Character, s: string, log: set<Record>)
    requires ServerTraced(g, s, log) && g.phase.Locked? && c.id == g.phase.token.characterID
    ensures ServerTraced(Entered(g, c), s, log)
  {
    var g' := Entered(g, c);
    forall p ensures SessionTraced(g', s, p, log) {
      assert SessionTraced(g, s, p, log);
      if p == g.phase.peer {
        var r :| r in log && ConsumedFrom(r, s, g.phase.token, g.phase.consumedAt);
        assert Admits(r, s, g'.game.sessions[p], g'.tickets[p]);
      }
    }
  }

  lemma AcquireTraced(y: System, s: string, up: bool, log: set<Record>)
    requires Traced(y, log)
    ensures Traced(AcquireStep(y, s, up), log)
  {
    var y' := AcquireStep(y, s, up);
    if y' != y {
      assert ServerTraced(y.servers[s], s, log);
      SameOrigin(y.servers[s], y'.servers[s], s, log);
      ServerReplaced(y, y'.redis, s, y'.servers[s], log);
    }
  }

  lemma ReleaseTraced(y: System, s: string, up: bool, log: set<Record>)
    requires Traced(y, log)
    ensures Traced(ReleaseStep(y, s, up), log)
  {
    var y' := ReleaseStep(y, s, up);
    if y' != y {
      assert ServerTraced(y.servers[s], s, log);
      SameOrigin(y.servers[s], y'.servers[s], s, log);
      ServerReplaced(y, y'.redis, s, y'.servers[s], log);
    }
  }

  lemma DisconnectTraced(y: System, s: string, peer: Peer, log: set<Record>)
    requires Traced(y, log)
    ensures Traced(DisconnectStep(y, s, peer), log)
  {
    var y' := DisconnectStep(y, s, peer);
    if y' != y {
      assert ServerTraced(y.servers[s], s, log);
      SameOrigin(y.servers[s], y'.servers[s], s, log);
      ServerReplaced(y, y'.redis, s, y'.servers[s], log);
    }
  }

  lemma ShutdownTraced(y: System, s: string, order: seq<Peer>, log: set<Record>)
    requires Traced(y, log)
    ensures Traced(ShutdownStep(y, s, order), log)
  {
    var y' := ShutdownStep(y, s, order);
    if y' != y {
      assert ServerTraced(y.servers[s], s, log);
      SameOrigin(y.servers[s], y'.servers[s], s, log);
      ServerReplaced(y, y'.redis, s, y'.servers[s], log);
    }
  }

  lemma RenewTraced(y: System, s: string, character: string, log: set<Record>)
    requires Traced(y, log)
    ensures Traced(RenewStep(y, s, character), log)
  {
    var y' := RenewStep(y, s, character);
    if y' != y {
      assert ServerTraced(y.servers[s], s, log);
      SameOrigin(y.servers[s], y'.servers[s], s, log);
      ServerReplaced(y, y'.redis, s, y'.servers[s], log);
    }
  }

  lemma PlayTraced(y: System, s: string, game: Game, lastTick: nat, log: set<Record>)
    requires Traced(y, log)
    requires s in y.servers ==> forall p | p in game.sessions ::
               && p in y.servers[s].game.sessions
               && game.sessions[p].userID == y.servers[s].game.sessions[p].userID
               && game.sessions[p].characterID == y.servers[s].game.sessions[p].characterID
    ensures Traced(PlayStep(y, s, game, lastTick), log)
  {
    var y' := PlayStep(y, s, game, lastTick);
    if y' != y {
      assert ServerTraced(y.servers[s], s, log);
      SameOrigin(y.servers[s], y'.servers[s], s, log);
      ServerReplaced(y, y'.redis, s, y'.servers[s], log);
    }
  }

  lemma LoadTraced(y: System, s: string, up: bool, log: set<Record>)
    requires Traced(y, log)
    ensures Traced(LoadStep(y, s, up), log)
  {
    var y' := LoadStep(y, s, up);
    if s in y.servers && y.servers[s].phase.Locked? {
      var g := y.servers[s];
      assert ServerTraced(g, s, log);
      if Loads(y, s, up) {
        EnterTraced(g, y.chars[g.phase.token.characterID], s, log);
      } else {
        SameOrigin(g, y'.servers[s], s, log);
      }
      ServerReplaced(y, y.redis, s, y'.servers[s], log);
    }
  }

  lemma EnvironmentTraced(y: System, step: Step, log: set<Record>)
    requires Traced(y, log)
    requires step.Wait? || step.Traffic? || step.Store? || step.Start?
    ensures Traced(Next(y, step), log)
  {
    var y' := Next(y, step);
    assert forall token :: JoinToken(token).JoinToken?;
    forall token | JoinToken(token) in y'.redis.db
      ensures TokenEntry(y'.redis.db[JoinToken(token)], token)
      ensures StoredFrom(y'.redis.db[JoinToken(token)], token, log, y'.redis.now)
    {
      assert StoredFrom(y.redis.db[JoinToken(token)], token, log, y.redis.now);
    }
  }

  lemma StepTraced(y: System, step: Step, log: set<Record>)
    requires Traced(y, log) && NewRecords(y, step) <= log
    ensures Traced(Next(y, step), log)
  {
    match step
    case Issue(t) => if CanIssue(y, t) { IssueTraced(y, t, log); }
    case Consume(s, peer, token, character, up, valid) => ConsumeTraced(y, s, peer, token, character, up, valid, log);
    case Acquire(s, up) => AcquireTraced(y, s, up, log);
    case Load(s, up) => LoadTraced(y, s, up, log);
    case Release(s, up) => ReleaseTraced(y, s, up, log);
    case Disconnect(s, peer) => DisconnectTraced(y, s, peer, log);
    case Shutdown(s, order) => ShutdownTraced(y, s, order, log);
    case Receive(s, peer, packet) =>
      if s in y.servers { PlayTraced(y, s, GameState.Receive(y.servers[s].game, peer, packet), y.servers[s].lastTick, log); }
    case Tick(s, order, speed) =>
      if s in y.servers { PlayTraced(y, s, GameState.Tick(y.servers[s].game, order, speed), y.redis.now, log); }
    case Renew(s, character) => RenewTraced(y, s, character, log);
    case _ => EnvironmentTraced(y, step, log);
  }

  lemma {:induction false} AlwaysTraced(y: System, steps: seq<Step>, n: nat)
    requires Init(y) && n <= |steps|
    ensures Traced(At(y, steps, n), Log(y, steps, n))
  {
    if n == 0 {
      assert forall token :: JoinToken(token).JoinToken?;
    } else {
      AlwaysTraced(y, steps, n - 1);
      var before := At(y, steps, n - 1);
      TracedGrows(before, Log(y, steps, n - 1), NewRecords(before, steps[n - 1]));
      StepTraced(before, steps[n - 1], Log(y, steps, n));
    }
  }

  lemma {:induction false} LoggedWasIssued(y: System, steps: seq<Step>, n: nat, r: Record) returns (k: nat)
    requires n <= |steps| && r in Log(y, steps, n)
    ensures k < n && IssuedAt(y, steps, k, r.t) && At(y, steps, k).redis.now == r.at
  {
    if r in NewRecords(At(y, steps, n - 1), steps[n - 1]) {
      k := n - 1;
    } else {
      k := LoggedWasIssued(y, steps, n - 1, r);
    }
  }

  /** Provenance: every session on every server comes from an earlier IssueJoinToken for exactly that user,
      character and server, at which the user owned the character, and whose token was consumed less than
      joinTokenTTL later. */
  lemma SessionComesFromIssue(y: System, steps: seq<Step>, n: nat, s: string, p: Peer) returns (k: nat, t: JoinTokens.JoinToken)
    requires Init(y) && n <= |steps|
    requires s in At(y, steps, n).servers && p in At(y, steps, n).servers[s].game.sessions
    ensures var g := At(y, steps, n).servers[s]; var session := g.game.sessions[p];
            && p in g.tickets
            && k < n && IssuedAt(y, steps, k, t)
            && t.userID == session.userID && t.characterID == session.characterID && t.serverID == s
            && t.token == g.tickets[p].token
            && At(y, steps, k).chars[t.characterID].userID == session.userID
            && At(y, steps, k).redis.now <= g.tickets[p].consumedAt < At(y, steps, k).redis.now + At(y, steps, k).joinTokenTTL
  {
    AlwaysTraced(y, steps, n);
    var r := SessionRecord(At(y, steps, n), s, p, Log(y, steps, n));
    k := LoggedWasIssued(y, steps, n, r);
    t := r.t;
  }

  lemma SessionRecord(y: System, s: string, p: Peer, log: set<Record>) returns (r: Record)
    requires Traced(y, log) && s in y.servers && p in y.servers[s].game.sessions
    ensures p in y.servers[s].tickets && r in log && Admits(r, s, y.servers[s].game.sessions[p], y.servers[s].tickets[p])
  {
    assert ServerTraced(y.servers[s], s, log);
    assert SessionTraced(y.servers[s], s, p, log);
    r :| r in log && Admits(r, s, y.servers[s].game.sessions[p], y.servers[s].tickets[p]);
  }
}
