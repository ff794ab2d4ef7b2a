/** The flow engine (services/authentication-service/internal/flowstages.go, flowexec.go, flow_examples.go). */
module Engine {
  import opened Common
  import opened Protection
  import opened Desk
  import AL = AssuranceLedger

  datatype Risk = Risk(
    tier: string, score: real, impossibleTravel: bool, flags: seq<string>,
    device: real, behavior: real, network: real, user: real)

  const NO_RISK := Risk("", 0.0, false, [], 0.0, 0.0, 0.0, 0.0)

  /** What policies see. `risk` is absent until a risk-evaluation stage has run. */
  datatype PolicyEnv = PolicyEnv(userID: string, request: RequestFacts, requestedRank: nat, achievedRank: int, risk: Option<Risk>)

  datatype RequestFacts = RequestFacts(clientID: string, ip: string, deviceFP: string, userAgent: string)

  /** A compiled policy expression; evaluating it yields a boolean or fails (a runtime error or a deadline). */
  datatype Program = Program(source: string)

  datatype Verdict = Holds | Fails | EvalError

  /** Evaluation of the `index`-th policy of the stage at `cursor`: any function, so a program may also fail at one
      place and not at another. */
  type Evaluator = (nat, nat, Program, PolicyEnv) -> Verdict

  datatype Binding = Binding(name: string, negate: bool, program: Option<Program>)

  datatype Stage =
    | AuthValidate
    | Issue
    | RiskEvaluation
    | Deny(reason: string)
    | Gated(inner: Stage, policies: seq<Binding>)

  datatype StageResult = Continue | Respond | Complete | DenyResult

  /** The running execution of a flow. */
  datatype Execution = Execution(
    cursor: nat, facts: Facts, sessionID: string, acrValues: string, achievedACR: string, achievedAMR: seq<string>,
    request: RequestFacts, requestedRank: nat, achievedRank: int, risk: Option<Risk>)

  /** What the engine finds outside besides the request environment: the risk service's answer (absent when there is
      none or it errs) and the policy evaluator. */
  datatype World = World(cfg: Config, env: Env, risk: Option<Risk>, evaluate: Evaluator)

  datatype Outcome = Outcome(desk: Desk, exec: Execution, result: StageResult, sent: seq<Response>)

  function PolicyEnvOf(x: Execution): PolicyEnv {
    PolicyEnv(x.facts.userID, x.request, x.requestedRank, x.achievedRank, x.risk)
  }

  // ---- Stages ----

  function ExecuteValidate(d: Desk, x: Execution, w: World): Outcome {
    var level := MatchProtection(x.acrValues);
    var spec := MatchStepUp(x.acrValues);
    if level.Some? then
      var looked := Looked(d, w.cfg, x.sessionID, w.env.now);
      if Satisfied(d, w.cfg, level.value, x.sessionID, w.env.now) then
        Outcome(looked, x.(achievedACR := level.value.acr), Continue, [])
      else if SpecForMethod(level.value.kind).None? then
        Outcome(looked, x, DenyResult, [ErrorReply(500, "internal_error")])
      else
        var (d', r) := StartStepUp(looked, EffectiveSpec(w.cfg.tenants, x.facts.tenantID, SpecForMethod(level.value.kind).value),
                                   NewPending(x.facts, level.value.acr, level.value.rank, x.sessionID), w.env);
        Outcome(d', x, Respond, [r])
    else if spec.Some? then
      var (d', r) := StartStepUp(d, EffectiveSpec(w.cfg.tenants, x.facts.tenantID, spec.value), NewPending(x.facts, "", 0, ""), w.env);
      Outcome(d', x, Respond, [r])
    else Outcome(d, x, Continue, [])
  }

  predicate Passes(b: Binding, index: nat, x: Execution, w: World) {
    var result := b.program.Some? && w.evaluate(x.cursor, index, b.program.value, PolicyEnvOf(x)) == Holds;
    if b.negate then !result else result
  }

  /** A gated stage runs only when every one of its policies passes; an evaluation error counts as false. */
  predicate ShouldRun(policies: seq<Binding>, x: Execution, w: World) {
    forall i :: 0 <= i < |policies| ==> Passes(policies[i], i, x, w)
  }

  function Execute(stage: Stage, d: Desk, x: Execution, w: World): Outcome {
    match stage
    case AuthValidate => ExecuteValidate(d, x, w)
    case Issue =>
      var (d', r) := Mint(d, x.facts, x.achievedACR, x.achievedAMR, w.env);
      Outcome(d', x, Complete, [r])
    case RiskEvaluation =>
      Outcome(d, x.(risk := Some(if w.risk.Some? then w.risk.value else NO_RISK)), Continue, [])
    case Deny(reason) =>
      if !w.env.redirectParses || x.facts.redirectURI == "" then Outcome(d, x, DenyResult, [ErrorReply(403, "access_denied")])
      else Outcome(d, x, DenyResult, [RedirectError(x.facts.redirectURI, x.facts.state, "access_denied")])
    case Gated(inner, policies) =>
      if ShouldRun(policies, x, w) then Execute(inner, d, x, w) else Outcome(d, x, Continue, [])
  }

  /** Drives the execution from its cursor: continues past silent stages, stops at the first that answers. */
  function RunFlow(stages: seq<Stage>, d: Desk, x: Execution, w: World): Outcome
    decreases |stages| - x.cursor
  {
    if x.cursor >= |stages| then Outcome(d, x, Complete, [])
    else
      var o := Execute(stages[x.cursor], d, x, w);
      CursorKept(stages[x.cursor], d, x, w);
      if o.result.Continue? then
        var rest := RunFlow(stages, o.desk, o.exec.(cursor := x.cursor + 1), w);
        rest.(sent := o.sent + rest.sent)
      else o
  }

  /** A stage never moves the cursor, and answers exactly when it does not continue. */
  lemma {:induction false} CursorKept(stage: Stage, d: Desk, x: Execution, w: World)
    ensures var o := Execute(stage, d, x, w);
            o.exec.cursor == x.cursor && o.exec.facts == x.facts && |o.sent| == (if o.result.Continue? then 0 else 1)
  {
    if stage.Gated? {
      CursorKept(stage.inner, d, x, w);
    }
  }

  /** Runs only silent stages before its first answer: every flow sends at most one response, and its execution ends. */
  lemma {:induction false} AtMostOneResponse(stages: seq<Stage>, d: Desk, x: Execution, w: World)
    ensures var o := RunFlow(stages, d, x, w);
            |o.sent| <= 1 && o.exec.cursor <= Max(|stages|, x.cursor) && (|o.sent| == 1 <==> o.exec.cursor < |stages|) && !o.result.Continue?
    decreases |stages| - x.cursor
  {
    if x.cursor < |stages| {
      CursorKept(stages[x.cursor], d, x, w);
      var o := Execute(stages[x.cursor], d, x, w);
      if o.result.Continue? {
        AtMostOneResponse(stages, o.desk, o.exec.(cursor := x.cursor + 1), w);
      }
    }
  }

  predicate Terminal(stage: Stage) {
    stage.Issue? || stage.Deny?
  }

  /** A flow with an ungated terminal stage still ahead sends exactly one response, whatever the policies say. */
  lemma {:induction false} TerminalStageAnswers(stages: seq<Stage>, i: nat, d: Desk, x: Execution, w: World)
    requires x.cursor <= i < |stages| && Terminal(stages[i])
    ensures |RunFlow(stages, d, x, w).sent| == 1
    decreases |stages| - x.cursor
  {
    CursorKept(stages[x.cursor], d, x, w);
    var o := Execute(stages[x.cursor], d, x, w);
    if o.result.Continue? {
      assert x.cursor != i;
      TerminalStageAnswers(stages, i, o.desk, o.exec.(cursor := x.cursor + 1), w);
    }
  }

  lemma ExactlyOneResponse(stages: seq<Stage>, d: Desk, x: Execution, w: World)
    requires stages != [] && Terminal(stages[|stages| - 1]) && x.cursor < |stages|
    ensures |RunFlow(stages, d, x, w).sent| == 1
  {
    TerminalStageAnswers(stages, |stages| - 1, d, x, w);
  }

  /** With a gate on its last stage a flow can end without any response. */
  lemma GatedLastStageCanBeSilent(d: Desk, x: Execution, w: World, policies: seq<Binding>)
    requires x.cursor == 0 && !ShouldRun(policies, x, w)
    ensures RunFlow([Gated(Issue, policies)], d, x, w).sent == []
  {
  }

  /** The execution with which the last stage is reached, unless an earlier stage answers. */
  function AtLast(stages: seq<Stage>, d: Desk, x: Execution, w: World): Option<Execution>
    requires stages != []
    decreases |stages| - x.cursor
  {
    if x.cursor >= |stages| - 1 then Some(x)
    else
      var o := Execute(stages[x.cursor], d, x, w);
      if o.result.Continue? then AtLast(stages, o.desk, o.exec.(cursor := x.cursor + 1), w) else None
  }

  /** It does so exactly when no earlier stage answers and a policy of the last stage does not pass. */
  lemma {:induction false} SilentIff(stages: seq<Stage>, d: Desk, x: Execution, w: World, inner: Stage, policies: seq<Binding>)
    requires stages != [] && stages[|stages| - 1] == Gated(inner, policies) && Terminal(inner) && x.cursor < |stages|
    ensures RunFlow(stages, d, x, w).sent == [] <==>
            AtLast(stages, d, x, w).Some? && !ShouldRun(policies, AtLast(stages, d, x, w).value, w)
    decreases |stages| - x.cursor
  {
    CursorKept(stages[x.cursor], d, x, w);
    var o := Execute(stages[x.cursor], d, x, w);
    if o.result.Continue? && x.cursor < |stages| - 1 {
      SilentIff(stages, o.desk, o.exec.(cursor := x.cursor + 1), w, inner, policies);
    }
  }

  // ---- /authorize through the engine ----

  const DEFAULT_FLOW: seq<Stage> := [AuthValidate, Issue]

  function Begin(d: Desk, cfg: Config, acrValues: string, sessionID: string, f: Facts, request: RequestFacts, now: int): Execution {
    var level := MatchProtection(acrValues);
    Execution(0, f, sessionID, acrValues, "", [], request,
              if level.Some? then level.value.rank else 0,
              if sessionID == "" then 0 else AL.RankIn(AL.Collected(d.entries, cfg.ledgerTTL, now), sessionID),
              None)
  }

  /** The engine first reads the achieved rank (collecting ledger garbage), then runs the flow. */
  function EngineAuthorize(stages: seq<Stage>, d: Desk, acrValues: string, sessionID: string, f: Facts, request: RequestFacts, w: World): Outcome {
    RunFlow(stages, Looked(d, w.cfg, sessionID, w.env.now), Begin(d, w.cfg, acrValues, sessionID, f, request, w.env.now), w)
  }

  lemma LookingTwice(d: Desk, cfg: Config, sessionID: string, now: int)
    ensures Looked(Looked(d, cfg, sessionID, now), cfg, sessionID, now) == Looked(d, cfg, sessionID, now)
    ensures forall level :: Satisfied(Looked(d, cfg, sessionID, now), cfg, level, sessionID, now) == Satisfied(d, cfg, level, sessionID, now)
  {
  }

  /** What a flow does from a stage that validates, followed by a last stage that issues, in one step. */
  lemma ValidateThenIssue(stages: seq<Stage>, d: Desk, x: Execution, w: World)
    requires |stages| == x.cursor + 2 && stages[x.cursor + 1] == Issue
    requires Execute(stages[x.cursor], d, x, w) == ExecuteValidate(d, x, w)
    ensures var o, v := RunFlow(stages, d, x, w), ExecuteValidate(d, x, w);
            var (d', r) := Mint(v.desk, x.facts, v.exec.achievedACR, v.exec.achievedAMR, w.env);
            if v.result.Continue? then o.desk == d' && o.sent == [r] && o.result == Complete
            else o == v
  {
  }

  /** Starting a step-up neither reads nor writes the ledger. */
  lemma StartIgnoresLedger(d: Desk, m: AL.Entries, spec: Spec, p: Pending, env: Env)
    ensures var (d', r) := StartStepUp(d, spec, p, env);
            StartStepUp(d.(entries := m), spec, p, env) == (d'.(entries := m), r)
  {
  }

  lemma CollectedLater(m: AL.Entries, ttl: int, now: int)
    ensures forall later :: now <= later ==> AL.Collected(AL.Collected(m, ttl, now), ttl, later) == AL.Collected(m, ttl, later)
  {
  }

  /** Same answer, and the same desk up to collected ledger garbage, which no answer at or after `now` can see. */
  ghost predicate SameButGarbage(o: Outcome, d': Desk, r: Response, ttl: int, now: int) {
    && o.sent == [r] && o.desk == d'.(entries := o.desk.entries)
    && forall later :: now <= later ==> AL.Collected(o.desk.entries, ttl, later) == AL.Collected(d'.entries, ttl, later)
  }

  lemma DefaultFlowOnLevel(d: Desk, acrValues: string, sessionID: string, f: Facts, request: RequestFacts, w: World)
    requires MatchProtection(acrValues).Some?
    ensures var o := EngineAuthorize(DEFAULT_FLOW, d, acrValues, sessionID, f, request, w);
            o.sent == [Legacy(d, w.cfg, acrValues, sessionID, f, w.env).1] && o.desk == Legacy(d, w.cfg, acrValues, sessionID, f, w.env).0
  {
    LookingTwice(d, w.cfg, sessionID, w.env.now);
    ValidateThenIssue(DEFAULT_FLOW, Looked(d, w.cfg, sessionID, w.env.now), Begin(d, w.cfg, acrValues, sessionID, f, request, w.env.now), w);
  }

  lemma DefaultFlowOnMethod(d: Desk, acrValues: string, sessionID: string, f: Facts, request: RequestFacts, w: World)
    requires MatchProtection(acrValues).None? && MatchStepUp(acrValues).Some?
    ensures var o := EngineAuthorize(DEFAULT_FLOW, d, acrValues, sessionID, f, request, w);
            var (d', r) := Legacy(d, w.cfg, acrValues, sessionID, f, w.env);
            o.sent == [r] && o.desk == d'.(entries := Looked(d, w.cfg, sessionID, w.env.now).entries) && d'.entries == d.entries
  {
    var looked := Looked(d, w.cfg, sessionID, w.env.now);
    ValidateThenIssue(DEFAULT_FLOW, looked, Begin(d, w.cfg, acrValues, sessionID, f, request, w.env.now), w);
    var spec := EffectiveSpec(w.cfg.tenants, f.tenantID, MatchStepUp(acrValues).value);
    StartIgnoresLedger(d, looked.entries, spec, NewPending(f, "", 0, ""), w.env);
    StartIgnoresLedger(d, d.entries, spec, NewPending(f, "", 0, ""), w.env);
    assert looked == d.(entries := looked.entries) && d == d.(entries := d.entries);
  }

  /** Issuing neither reads nor writes the ledger. */
  lemma MintIgnoresLedger(d: Desk, m: AL.Entries, f: Facts, acr: string, amr: seq<string>, env: Env)
    ensures var (d', r) := Mint(d, f, acr, amr, env);
            Mint(d.(entries := m), f, acr, amr, env) == (d'.(entries := m), r) && d'.entries == d.entries
  {
  }

  lemma DefaultFlowOnPlain(d: Desk, acrValues: string, sessionID: string, f: Facts, request: RequestFacts, w: World)
    requires MatchProtection(acrValues).None? && MatchStepUp(acrValues).None?
    ensures var o := EngineAuthorize(DEFAULT_FLOW, d, acrValues, sessionID, f, request, w);
            var (d', r) := Legacy(d, w.cfg, acrValues, sessionID, f, w.env);
            o.sent == [r] && o.desk == d'.(entries := Looked(d, w.cfg, sessionID, w.env.now).entries) && d'.entries == d.entries
  {
    var looked := Looked(d, w.cfg, sessionID, w.env.now);
    PlainRun(looked, Begin(d, w.cfg, acrValues, sessionID, f, request, w.env.now), w);
    MintIgnoresLedger(d, looked.entries, f, "", [], w.env);
    assert looked == d.(entries := looked.entries);
  }

  lemma PlainRun(d: Desk, x: Execution, w: World)
    requires x.cursor == 0 && x.achievedACR == "" && x.achievedAMR == []
    requires MatchProtection(x.acrValues).None? && MatchStepUp(x.acrValues).None?
    ensures var (d', r) := Mint(d, x.facts, "", [], w.env);
            RunFlow(DEFAULT_FLOW, d, x, w).desk == d' && RunFlow(DEFAULT_FLOW, d, x, w).sent == [r]
  {
    ValidateThenIssue(DEFAULT_FLOW, d, x, w);
  }

  /** Engine refinement: on the default flow the engine sends the one response of the legacy branch, and leaves the
      same parked flows, tracker entries, codes, advice rows and emissions; its extra look at the ledger is invisible. */
  lemma DefaultFlowIsLegacy(d: Desk, acrValues: string, sessionID: string, f: Facts, request: RequestFacts, w: World)
    ensures var (d', r) := Legacy(d, w.cfg, acrValues, sessionID, f, w.env);
            SameButGarbage(EngineAuthorize(DEFAULT_FLOW, d, acrValues, sessionID, f, request, w), d', r, w.cfg.ledgerTTL, w.env.now)
  {
    CollectedLater(d.entries, w.cfg.ledgerTTL, w.env.now);
    if MatchProtection(acrValues).Some? {
      DefaultFlowOnLevel(d, acrValues, sessionID, f, request, w);
    } else if MatchStepUp(acrValues).Some? {
      DefaultFlowOnMethod(d, acrValues, sessionID, f, request, w);
    } else {
      DefaultFlowOnPlain(d, acrValues, sessionID, f, request, w);
    }
  }
}
