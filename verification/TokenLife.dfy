/** A join token from its issue to its end, over every run of the protocol. */
module TokenLife {
  import opened Wrappers
  import opened Redis
  import opened Keys
  import opened Validate
  import opened Domain
  import opened Handoff
  import JoinTokens
  import Join

  /** The step is a GETDEL of the token that reaches Redis, by an idle server. */
  predicate Consumes(y: System, step: Step, token: string) {
    step.Consume? && step.token == token && step.up && InPhase(y, step.s, true)
  }

  ghost predicate ConsumesAt(y: System, steps: seq<Step>, k: nat, token: string)
    requires k < |steps|
  {
    Consumes(At(y, steps, k), steps[k], token)
  }

  /** Step i issues the token. */
  ghost predicate IssuesAt(y: System, steps: seq<Step>, i: nat, t: JoinTokens.JoinToken)
    requires i < |steps|
  {
    steps[i] == Issue(t) && CanIssue(At(y, steps, i), t)
  }

  predicate Stands(y: System, t: JoinTokens.JoinToken) {
    && t.token in y.issued && t.expiresAt > 0 && JoinToken(t.token) in y.redis.db
    && y.redis.db[JoinToken(t.token)] == Entry(TokenDoc(JoinTokens.Payload(t)), Some(t.expiresAt))
  }

  predicate Gone(y: System, token: string) {
    token in y.issued && JoinToken(token) !in y.redis.db
  }

  lemma StepKeepsStanding(y: System, step: Step, t: JoinTokens.JoinToken)
    requires Stands(y, t) && !Consumes(y, step, t.token)
    ensures Stands(Next(y, step), t)
  {
    match step
    case Traffic(db) => assert JoinToken(t.token).JoinToken?;
    case _ =>
  }

  lemma StepKeepsGone(y: System, step: Step, token: string)
    requires Gone(y, token)
    ensures Gone(Next(y, step), token)
  {
    match step
    case Traffic(db) => assert JoinToken(token).JoinToken?;
    case _ =>
  }

  lemma ConsumeEnds(y: System, step: Step, t: JoinTokens.JoinToken)
    requires Stands(y, t) && Consumes(y, step, t.token)
    ensures Gone(Next(y, step), t.token)
  {
  }

  lemma IssueStands(y: System, t: JoinTokens.JoinToken)
    requires CanIssue(y, t)
    ensures Stands(Next(y, Issue(t)), t)
  {
  }

  /** Nobody's consume of the token has reached Redis between steps i and j. */
  ghost predicate Untouched(y: System, steps: seq<Step>, i: nat, j: nat, token: string)
    requires i < j <= |steps|
  {
    forall k | i < k < j :: !ConsumesAt(y, steps, k, token)
  }

  /** From its issue on, a token stands as issued until the first consume that reaches Redis, on whatever
      server, and is gone from then on. */
  lemma {:induction false} StandsOrGone(y: System, steps: seq<Step>, i: nat, j: nat, t: JoinTokens.JoinToken)
    requires i < j <= |steps| && IssuesAt(y, steps, i, t)
    ensures if Untouched(y, steps, i, j, t.token) then Stands(At(y, steps, j), t) else Gone(At(y, steps, j), t.token)
  {
    if i == j - 1 {
      IssueStands(At(y, steps, i), t);
    } else {
      StandsOrGone(y, steps, i, j - 1, t);
      assert Untouched(y, steps, i, j, t.token) <==>
             Untouched(y, steps, i, j - 1, t.token) && !ConsumesAt(y, steps, j - 1, t.token);
      StandsOrGoneStep(At(y, steps, j - 1), steps[j - 1], t, Untouched(y, steps, i, j - 1, t.token));
    }
  }

  lemma StandsOrGoneStep(y: System, step: Step, t: JoinTokens.JoinToken, standing: bool)
    requires if standing then Stands(y, t) else Gone(y, t.token)
    ensures if standing && !Consumes(y, step, t.token) then Stands(Next(y, step), t) else Gone(Next(y, step), t.token)
  {
    if !standing {
      StepKeepsGone(y, step, t.token);
    } else if Consumes(y, step, t.token) {
      ConsumeEnds(y, step, t);
    } else {
      StepKeepsStanding(y, step, t);
    }
  }

  lemma StandingAnswer(y: System, t: JoinTokens.JoinToken)
    requires Stands(y, t) && Normalized(t.token) && JoinTokens.ValidPayload(JoinTokens.Payload(t))
    ensures JoinTokens.ConsumeEffect(y.redis, t.token, true).1 == if y.redis.now < t.expiresAt then Ok(t) else Err(Unauthenticated)
  {
    JoinTokens.StandingIsRead(State(0, map[]), t, y.redis);
  }

  /** In every run, whatever all servers, the API and other traffic do after the issue: consuming the token
      answers it, whole and unchanged, if and only if no consume has reached Redis before and it has not
      expired; otherwise it is refused. */
  lemma ConsumeAnswersIff(y: System, steps: seq<Step>, i: nat, j: nat, t: JoinTokens.JoinToken)
    requires i < j <= |steps| && IssuesAt(y, steps, i, t)
    requires Normalized(t.token) && JoinTokens.ValidPayload(JoinTokens.Payload(t))
    ensures JoinTokens.ConsumeEffect(At(y, steps, j).redis, t.token, true).1
         == if Untouched(y, steps, i, j, t.token) && At(y, steps, j).redis.now < t.expiresAt then Ok(t) else Err(Unauthenticated)
  {
    StandsOrGone(y, steps, i, j, t);
    if Untouched(y, steps, i, j, t.token) {
      StandingAnswer(At(y, steps, j), t);
    } else {
      JoinTokens.AbsentIsRefused(At(y, steps, j).redis, t.token);
    }
  }

  lemma FoundIff(y: System, t: JoinTokens.JoinToken, standing: bool)
    requires Normalized(t.token) && JoinTokens.ValidPayload(JoinTokens.Payload(t))
    requires if standing then Stands(y, t) else Gone(y, t.token)
    ensures Join.Found(y.redis, t.token) == if standing && y.redis.now < t.expiresAt then Some(JoinTokens.Payload(t)) else None
  {
    if standing && y.redis.now < t.expiresAt {
      Join.FoundAsStored(y.redis, t.token, JoinTokens.Payload(t));
    } else {
      Join.NotFound(y.redis, t.token);
    }
  }

  /** At every later point of every run the token admits its player to its server if and only if no consume of
      it has reached Redis, it has not expired, the character exists and its lock is free. */
  lemma IssuedTokenAdmits(y: System, steps: seq<Step>, i: nat, j: nat, t: JoinTokens.JoinToken, c: Join.Config)
    requires i < j <= |steps| && IssuesAt(y, steps, i, t) && t.serverID == c.serverID
    requires Normalized(t.token) && JoinTokens.ValidPayload(JoinTokens.Payload(t))
    ensures var end, r := At(y, steps, j), Join.Request(t.token, t.characterID);
            var v := Join.See(end.redis, c, r);
            Join.CanJoin(end.redis, end.chars, c, Some(r), Join.Reach(true, true, true, true), v) <==>
            Untouched(y, steps, i, j, t.token) && end.redis.now < t.expiresAt && t.characterID in end.chars && !Live(end.redis, v.lock)
  {
    StandsOrGone(y, steps, i, j, t);
    FoundIff(At(y, steps, j), t, Untouched(y, steps, i, j, t.token));
    var end := At(y, steps, j);
    AdmitsIffFound(end.redis, end.chars, t, c, Untouched(y, steps, i, j, t.token) && end.redis.now < t.expiresAt);
  }

  lemma AdmitsIffFound(st: State, chars: Characters, t: JoinTokens.JoinToken, c: Join.Config, found: bool)
    requires Join.Found(st, t.token) == (if found then Some(JoinTokens.Payload(t)) else None) && t.serverID == c.serverID
    ensures var r := Join.Request(t.token, t.characterID);
            var v := Join.See(st, c, r);
            Join.CanJoin(st, chars, c, Some(r), Join.Reach(true, true, true, true), v) <==>
            found && t.characterID in chars && !Live(st, v.lock)
  {
  }
}
