/** Stored flows: validation, compilation, selection and the owner console
    (services/authentication-service/internal/flow_build.go, flow_examples.go, flows_console.go, storage.go). */
module Flows {
  import opened Common
  import opened Protection
  import opened Engine
  import D = Desk
  import G = Gates

  const AUTHORIZE_STEPUP := "authorization-stepup"

  const POLICY_SKIP_WHEN_LOW_RISK := "risk.tier == \"low\""
  const POLICY_DENY_HIGH_RISK_LOCATION := "risk.impossible_travel || \"tor_exit\" in risk.flags"

  datatype PolicyConfig = PolicyConfig(name: string, expression: string, negate: bool)

  datatype StageConfig = StageConfig(kind: string, reason: Option<string>, policies: seq<PolicyConfig>)

  /** A zero creation stamp is absent. */
  datatype FlowDefinition = FlowDefinition(
    id: string, tenantID: string, designation: string, slug: string, title: string, enabled: bool,
    stages: seq<StageConfig>, createdAt: Option<int>, updatedAt: int)

  /** Which expressions the policy compiler accepts. */
  type Compiler = string -> bool

  // ---- Validation and compilation ----

  predicate KnownStageType(t: string) {
    t in ["risk-evaluation", "authenticator-validate", "user-login", "issue", "deny"]
  }

  predicate TerminalType(t: string) {
    t in ["user-login", "issue", "deny"]
  }

  predicate PoliciesCompile(ps: seq<PolicyConfig>, compiles: Compiler) {
    forall i :: 0 <= i < |ps| ==> compiles(ps[i].expression)
  }

  /** What the console demands of a flow before it may be stored or enabled. */
  predicate ValidDefinition(def: FlowDefinition, compiles: Compiler) {
    && def.stages != []
    && (forall i :: 0 <= i < |def.stages| ==> KnownStageType(def.stages[i].kind) && PoliciesCompile(def.stages[i].policies, compiles))
    && TerminalType(def.stages[|def.stages| - 1].kind)
  }

  method ValidateFlowDefinition(def: FlowDefinition, compiles: Compiler) returns (ok: bool)
    ensures ok == ValidDefinition(def, compiles)
  {
    if def.stages == [] {
      return false;
    }
    for i := 0 to |def.stages|
      invariant forall n :: 0 <= n < i ==> KnownStageType(def.stages[n].kind) && PoliciesCompile(def.stages[n].policies, compiles)
    {
      var sc := def.stages[i];
      if !KnownStageType(sc.kind) {
        return false;
      }
      for k := 0 to |sc.policies|
        invariant forall n :: 0 <= n < k ==> compiles(sc.policies[n].expression)
      {
        if !compiles(sc.policies[k].expression) {
          return false;
        }
      }
    }
    return TerminalType(def.stages[|def.stages| - 1].kind);
  }

  function BaseStage(sc: StageConfig): Stage
    requires KnownStageType(sc.kind)
  {
    if sc.kind == "risk-evaluation" then RiskEvaluation
    else if sc.kind == "authenticator-validate" then AuthValidate
    else if sc.kind == "deny" then Deny(if sc.reason.Some? && sc.reason.value != "" then sc.reason.value else "access denied")
    else Issue
  }

  function BindingOf(p: PolicyConfig): Binding {
    Binding(p.name, p.negate, Some(Program(p.expression)))
  }

  predicate Builds(sc: StageConfig, compiles: Compiler) {
    KnownStageType(sc.kind) && PoliciesCompile(sc.policies, compiles)
  }

  function StageOf(sc: StageConfig): Stage
    requires KnownStageType(sc.kind)
  {
    if sc.policies == [] then BaseStage(sc)
    else Gated(BaseStage(sc), seq(|sc.policies|, i requires 0 <= i < |sc.policies| => BindingOf(sc.policies[i])))
  }

  method BuildStage(sc: StageConfig, compiles: Compiler) returns (stage: Option<Stage>)
    ensures stage == if Builds(sc, compiles) then Some(StageOf(sc)) else None
  {
    if !KnownStageType(sc.kind) {
      return None;
    }
    var base := BaseStage(sc);
    if sc.policies == [] {
      return Some(base);
    }
    var binds: seq<Binding> := [];
    for i := 0 to |sc.policies|
      invariant |binds| == i && forall n :: 0 <= n < i ==> compiles(sc.policies[n].expression) && binds[n] == BindingOf(sc.policies[n])
    {
      var pc := sc.policies[i];
      if !compiles(pc.expression) {
        return None;
      }
      binds := binds + [Binding(pc.name, pc.negate, Some(Program(pc.expression)))];
    }
    assert binds == seq(|sc.policies|, i requires 0 <= i < |sc.policies| => BindingOf(sc.policies[i]));
    return Some(Gated(base, binds));
  }

  method BuildFlow(def: FlowDefinition, compiles: Compiler) returns (stages: Option<seq<Stage>>)
    ensures stages.Some? <==> AllBuild(def, compiles)
    ensures stages.Some? ==> stages.value == Compiled(def)
  {
    if def.stages == [] {
      return None;
    }
    var built: seq<Stage> := [];
    for i := 0 to |def.stages|
      invariant |built| == i
      invariant forall n :: 0 <= n < i ==> Builds(def.stages[n], compiles) && built[n] == StageOf(def.stages[n])
    {
      var stage := BuildStage(def.stages[i], compiles);
      if stage.None? {
        return None;
      }
      built := built + [stage.value];
    }
    return Some(built);
  }

  predicate AllBuild(def: FlowDefinition, compiles: Compiler) {
    def.stages != [] && forall i :: 0 <= i < |def.stages| ==> Builds(def.stages[i], compiles)
  }

  /** The compiled form of a definition all of whose stage types are known. */
  function Compiled(def: FlowDefinition): seq<Stage>
    requires forall i :: 0 <= i < |def.stages| ==> KnownStageType(def.stages[i].kind)
  {
    seq(|def.stages|, i requires 0 <= i < |def.stages| => StageOf(def.stages[i]))
  }

  /** What a compiled stage without policies does: issuing mints at the level achieved so far, denying mints nothing and
      sends the client back with access_denied, evaluating the risk and validating never mint. */
  lemma StageMeaning(sc: StageConfig, d: D.Desk, x: Execution, w: World)
    requires KnownStageType(sc.kind) && sc.policies == []
    ensures var o := Execute(StageOf(sc), d, x, w);
            && (sc.kind == "issue" || sc.kind == "user-login" ==>
                  && o.result == Complete && |o.sent| == 1
                  && if w.env.redirectParses then G.Issued(d, o.desk, o.sent[0], x.facts, x.achievedACR, x.achievedAMR, w.env)
                     else o.desk == d && o.sent[0].ErrorReply?)
            && (sc.kind == "deny" ==>
                  && o.result == DenyResult && o.desk == d && o.exec == x
                  && o.sent == [if w.env.redirectParses && x.facts.redirectURI != "" then D.RedirectError(x.facts.redirectURI, x.facts.state, "access_denied")
                                else D.ErrorReply(403, "access_denied")])
            && (sc.kind == "risk-evaluation" ==>
                  o.result == Continue && o.sent == [] && o.desk == d &&
                  o.exec == x.(risk := Some(if w.risk.Some? then w.risk.value else NO_RISK)))
            && (sc.kind == "authenticator-validate" ==> o == ExecuteValidate(d, x, w))
  {
    G.MintIssues(d, x.facts, x.achievedACR, x.achievedAMR, w.env);
  }

  /** A compiled stage with policies does what the stage without them does when every policy passes, and is skipped
      otherwise; a policy passes when it holds, or, if negated, when it does not, an evaluation error being no hold. */
  lemma GatedStageMeaning(sc: StageConfig, d: D.Desk, x: Execution, w: World)
    requires KnownStageType(sc.kind) && sc.policies != []
    ensures var pass := forall i :: 0 <= i < |sc.policies| ==>
                          ((w.evaluate(x.cursor, i, Program(sc.policies[i].expression), PolicyEnvOf(x)) == Holds) <==> !sc.policies[i].negate);
            Execute(StageOf(sc), d, x, w) == if pass then Execute(StageOf(sc.(policies := [])), d, x, w) else Outcome(d, x, Continue, [])
  {
    var stage := StageOf(sc);
    forall i | 0 <= i < |sc.policies|
      ensures Passes(stage.policies[i], i, x, w) <==>
              ((w.evaluate(x.cursor, i, Program(sc.policies[i].expression), PolicyEnvOf(x)) == Holds) <==> !sc.policies[i].negate)
    {
    }
  }

  /** A valid flow whose last stage carries no policy always sends exactly one response. */
  lemma ValidFlowAnswers(def: FlowDefinition, compiles: Compiler, d: D.Desk, acrValues: string, sessionID: string,
                         f: D.Facts, request: RequestFacts, w: World)
    requires ValidDefinition(def, compiles) && def.stages[|def.stages| - 1].policies == []
    ensures |EngineAuthorize(Compiled(def), d, acrValues, sessionID, f, request, w).sent| == 1
  {
    ExactlyOneResponse(Compiled(def), D.Looked(d, w.cfg, sessionID, w.env.now),
                       Begin(d, w.cfg, acrValues, sessionID, f, request, w.env.now), w);
  }

  /** Every request gets exactly one response, whatever the evaluator makes of the policies. */
  ghost predicate AlwaysAnswers(stages: seq<Stage>) {
    forall d: D.Desk, acrValues: string, sessionID: string, f: D.Facts, request: RequestFacts, w: World ::
      |EngineAuthorize(stages, d, acrValues, sessionID, f, request, w).sent| == 1
  }

  /** An evaluator that lets the first policy of every stage fail. */
  function Refusing(stages: seq<Stage>): Evaluator {
    (cursor: nat, index: nat, program: Program, env: PolicyEnv) =>
      if cursor < |stages| && stages[cursor].Gated? && stages[cursor].policies != [] && stages[cursor].policies[0].negate then Holds
      else EvalError
  }

  predicate Refusable(policies: seq<Binding>) {
    policies != [] && policies[0].program.Some?
  }

  /** Under it a plain request meets no stage that answers, unless a terminal stage has no policy. */
  lemma {:induction false} AllSkipped(stages: seq<Stage>, d: D.Desk, x: Execution, w: World)
    requires forall i :: 0 <= i < |stages| ==> !Terminal(stages[i]) && (stages[i].Gated? ==> Refusable(stages[i].policies))
    requires w.evaluate == Refusing(stages) && MatchProtection(x.acrValues).None? && MatchStepUp(x.acrValues).None?
    ensures RunFlow(stages, d, x, w).sent == []
    decreases |stages| - x.cursor
  {
    if x.cursor < |stages| {
      var stage := stages[x.cursor];
      CursorKept(stage, d, x, w);
      if stage.Gated? {
        assert !Passes(stage.policies[0], 0, x, w);
      }
      var o := Execute(stage, d, x, w);
      AllSkipped(stages, o.desk, o.exec.(cursor := x.cursor + 1), w);
    }
  }

  /** What the console could check: a valid definition answers every request under every evaluator if and only if some
      terminal stage of it, the last or an earlier one, carries no policy. */
  lemma AlwaysAnswersIff(def: FlowDefinition, compiles: Compiler)
    requires ValidDefinition(def, compiles)
    ensures AlwaysAnswers(Compiled(def)) <==>
            exists i :: 0 <= i < |def.stages| && TerminalType(def.stages[i].kind) && def.stages[i].policies == []
  {
    var stages := Compiled(def);
    if i :| 0 <= i < |def.stages| && TerminalType(def.stages[i].kind) && def.stages[i].policies == [] {
      forall d: D.Desk, acrValues: string, sessionID: string, f: D.Facts, request: RequestFacts, w: World
        ensures |EngineAuthorize(stages, d, acrValues, sessionID, f, request, w).sent| == 1
      {
        TerminalStageAnswers(stages, i, D.Looked(d, w.cfg, sessionID, w.env.now), Begin(d, w.cfg, acrValues, sessionID, f, request, w.env.now), w);
      }
    } else {
      SomeRequestIsSilent(stages);
    }
  }

  lemma SomeRequestIsSilent(stages: seq<Stage>)
    requires forall i :: 0 <= i < |stages| ==> !Terminal(stages[i]) && (stages[i].Gated? ==> Refusable(stages[i].policies))
    ensures !AlwaysAnswers(stages)
  {
    var f := D.Facts("", "", "", "", "", "", "", "", "");
    var env := D.Env(0, "", "", true, None, None, false, D.Unavailable);
    var w := World(D.Config(0, 0, map[]), env, None, Refusing(stages));
    var d, request := D.Desk(map[], map[], map[], map[], [], []), RequestFacts("", "", "", "");
    AllSkipped(stages, D.Looked(d, w.cfg, "", 0), Begin(d, w.cfg, "", "", f, request, 0), w);
    assert EngineAuthorize(stages, d, "", "", f, request, w).sent == [];
  }

  // ---- The risk-adaptive flow ----

  function RiskAdaptiveDefinition(id: string, tenantID: string, enabled: bool): FlowDefinition {
    FlowDefinition(id, tenantID, AUTHORIZE_STEPUP, "risk-adaptive-stepup", "Risk-adaptive step-up", enabled,
      [StageConfig("risk-evaluation", None, []),
       StageConfig("deny", Some("high-risk location"), [PolicyConfig("deny-high-risk-location", POLICY_DENY_HIGH_RISK_LOCATION, false)]),
       StageConfig("authenticator-validate", None, [PolicyConfig("skip-stepup-when-low-risk", POLICY_SKIP_WHEN_LOW_RISK, true)]),
       StageConfig("user-login", None, [])],
      None, 0)
  }

  /** The same flow built in code; only the name of one policy differs. */
  const RISK_ADAPTIVE_FLOW: seq<Stage> := [
    RiskEvaluation,
    Gated(Deny("high-risk location"), [Binding("deny-high-risk-location", false, Some(Program(POLICY_DENY_HIGH_RISK_LOCATION)))]),
    Gated(AuthValidate, [Binding("skip-stepup-when-safe", true, Some(Program(POLICY_SKIP_WHEN_LOW_RISK)))]),
    Issue]

  /** What the two templates say of an environment; without risk facts neither holds. */
  predicate DenyHolds(env: PolicyEnv) {
    env.risk.Some? && (env.risk.value.impossibleTravel || "tor_exit" in env.risk.value.flags)
  }

  predicate SkipHolds(env: PolicyEnv) {
    env.risk.Some? && env.risk.value.tier == "low"
  }

  /** The evaluator gives the templates their meaning, except that it may fail to evaluate them. */
  ghost predicate Sound(evaluate: Evaluator) {
    forall c: nat, i: nat, env: PolicyEnv ::
      && (evaluate(c, i, Program(POLICY_DENY_HIGH_RISK_LOCATION), env) != EvalError ==>
            (evaluate(c, i, Program(POLICY_DENY_HIGH_RISK_LOCATION), env) == Holds <==> DenyHolds(env)))
      && (evaluate(c, i, Program(POLICY_SKIP_WHEN_LOW_RISK), env) != EvalError ==>
            (evaluate(c, i, Program(POLICY_SKIP_WHEN_LOW_RISK), env) == Holds <==> SkipHolds(env)))
  }

  /** A stage is the same as another up to the names of its policies. */
  predicate SameUpToNames(a: Stage, b: Stage) {
    a == b ||
    (a.Gated? && b.Gated? && a.inner == b.inner && |a.policies| == |b.policies| &&
     forall i :: 0 <= i < |a.policies| ==> a.policies[i].negate == b.policies[i].negate && a.policies[i].program == b.policies[i].program)
  }

  lemma NamesDoNotMatter(a: Stage, b: Stage, d: D.Desk, x: Execution, w: World)
    requires SameUpToNames(a, b)
    ensures Execute(a, d, x, w) == Execute(b, d, x, w)
  {
  }

  lemma {:induction false} SameStagesSameRun(a: seq<Stage>, b: seq<Stage>, d: D.Desk, x: Execution, w: World)
    requires |a| == |b| && forall i :: 0 <= i < |a| ==> SameUpToNames(a[i], b[i])
    ensures RunFlow(a, d, x, w) == RunFlow(b, d, x, w)
    decreases |a| - x.cursor
  {
    if x.cursor < |a| {
      NamesDoNotMatter(a[x.cursor], b[x.cursor], d, x, w);
      CursorKept(a[x.cursor], d, x, w);
      var o := Execute(a[x.cursor], d, x, w);
      if o.result.Continue? {
        SameStagesSameRun(a, b, o.desk, o.exec.(cursor := x.cursor + 1), w);
      }
    }
  }

  /** Compiling the stored template gives a flow every run of which equals that of the flow built in code. */
  lemma TemplateIsCodeBuilt(id: string, tenantID: string, enabled: bool, d: D.Desk, x: Execution, w: World)
    ensures RunFlow(Compiled(RiskAdaptiveDefinition(id, tenantID, enabled)), d, x, w) == RunFlow(RISK_ADAPTIVE_FLOW, d, x, w)
  {
    var compiled := Compiled(RiskAdaptiveDefinition(id, tenantID, enabled));
    assert compiled[0] == RISK_ADAPTIVE_FLOW[0] && compiled[3] == RISK_ADAPTIVE_FLOW[3];
    assert compiled[1].policies == RISK_ADAPTIVE_FLOW[1].policies;
    SameStagesSameRun(compiled, RISK_ADAPTIVE_FLOW, d, x, w);
  }

  /** The risk facts a run of the flow works with. */
  function Facing(x: Execution, w: World): Execution {
    x.(risk := Some(if w.risk.Some? then w.risk.value else NO_RISK))
  }

  predicate Denies(x: Execution, w: World) {
    w.evaluate(1, 0, Program(POLICY_DENY_HIGH_RISK_LOCATION), PolicyEnvOf(Facing(x, w))) == Holds
  }

  predicate Skips(x: Execution, w: World) {
    w.evaluate(2, 0, Program(POLICY_SKIP_WHEN_LOW_RISK), PolicyEnvOf(Facing(x, w))) == Holds
  }

  lemma AfterRiskStage(d: D.Desk, x: Execution, w: World)
    requires x.cursor == 0
    ensures var o, rest := RunFlow(RISK_ADAPTIVE_FLOW, d, x, w), RunFlow(RISK_ADAPTIVE_FLOW, d, Facing(x, w).(cursor := 1), w);
            o == rest
  {
  }

  lemma AfterDenyStage(d: D.Desk, x: Execution, w: World)
    requires x.cursor == 0 && !Denies(x, w)
    ensures RunFlow(RISK_ADAPTIVE_FLOW, d, Facing(x, w).(cursor := 1), w) == RunFlow(RISK_ADAPTIVE_FLOW, d, Facing(x, w).(cursor := 2), w)
  {
    var y := Facing(x, w).(cursor := 1);
    assert PolicyEnvOf(y) == PolicyEnvOf(Facing(x, w));
    var stage := RISK_ADAPTIVE_FLOW[1];
    assert !Passes(stage.policies[0], 0, y, w);
    assert Execute(stage, d, y, w) == Outcome(d, y, Continue, []);
    var rest := RunFlow(RISK_ADAPTIVE_FLOW, d, Facing(x, w).(cursor := 2), w);
    assert y.(cursor := 2) == Facing(x, w).(cursor := 2);
    assert [] + rest.sent == rest.sent;
  }

  /** The whole behaviour of the risk-adaptive flow: deny when the deny policy holds; otherwise issue without any
      step-up when the skip policy holds; otherwise do exactly what the default flow does. */
  lemma RiskAdaptiveMeaning(d: D.Desk, x: Execution, w: World)
    requires x.cursor == 0
    ensures var o := RunFlow(RISK_ADAPTIVE_FLOW, d, x, w);
            if Denies(x, w) then
              o.desk == d && o.result == DenyResult && |o.sent| == 1 && (o.sent[0].RedirectError? || o.sent[0].ErrorReply?)
            else if Skips(x, w) then
              var (d', r) := D.Mint(d, x.facts, x.achievedACR, x.achievedAMR, w.env); o.desk == d' && o.sent == [r] && o.result == Complete
            else
              var p := RunFlow(DEFAULT_FLOW, d, x, w); o.desk == p.desk && o.sent == p.sent && o.result == p.result
  {
    AfterRiskStage(d, x, w);
    var y := Facing(x, w);
    if Denies(x, w) {
      var y1 := y.(cursor := 1);
      assert PolicyEnvOf(y1) == PolicyEnvOf(y);
      var stage := RISK_ADAPTIVE_FLOW[1];
      assert Passes(stage.policies[0], 0, y1, w);
      assert Execute(stage, d, y1, w) == Execute(Deny("high-risk location"), d, y1, w);
      CursorKept(stage, d, y1, w);
      assert RunFlow(RISK_ADAPTIVE_FLOW, d, y1, w) == Execute(stage, d, y1, w);
    } else {
      AfterDenyStage(d, x, w);
      FromValidateStage(d, x, w);
    }
  }

  lemma FromValidateStage(d: D.Desk, x: Execution, w: World)
    requires x.cursor == 0
    ensures var o := RunFlow(RISK_ADAPTIVE_FLOW, d, Facing(x, w).(cursor := 2), w);
            if Skips(x, w) then
              var (d', r) := D.Mint(d, x.facts, x.achievedACR, x.achievedAMR, w.env); o.desk == d' && o.sent == [r] && o.result == Complete
            else
              var p := RunFlow(DEFAULT_FLOW, d, x, w); o.desk == p.desk && o.sent == p.sent && o.result == p.result
  {
    var y := Facing(x, w).(cursor := 2);
    var stage := RISK_ADAPTIVE_FLOW[2];
    assert PolicyEnvOf(y) == PolicyEnvOf(Facing(x, w));
    assert Passes(stage.policies[0], 0, y, w) == !Skips(x, w);
    if Skips(x, w) {
      assert Execute(stage, d, y, w) == Outcome(d, y, Continue, []);
      var z := y.(cursor := 3);
      assert RunFlow(RISK_ADAPTIVE_FLOW, d, z, w) == Execute(Issue, d, z, w);
      assert [] + RunFlow(RISK_ADAPTIVE_FLOW, d, z, w).sent == RunFlow(RISK_ADAPTIVE_FLOW, d, z, w).sent;
    } else {
      assert ShouldRun(stage.policies, y, w);
      assert Execute(stage, d, y, w) == ExecuteValidate(d, y, w);
      ValidateThenIssue(RISK_ADAPTIVE_FLOW, d, y, w);
      ValidateThenIssue(DEFAULT_FLOW, d, x, w);
    }
  }

  /** A risk outage never changes /authorize: when risk is absent or errs, or when both policies fail to evaluate, the
      risk-adaptive flow does exactly what the default flow does. */
  lemma RiskOutageIsDefault(d: D.Desk, x: Execution, w: World)
    requires x.cursor == 0
    requires (w.risk.None? && Sound(w.evaluate)) ||
             (w.evaluate(1, 0, Program(POLICY_DENY_HIGH_RISK_LOCATION), PolicyEnvOf(Facing(x, w))) == EvalError &&
              w.evaluate(2, 0, Program(POLICY_SKIP_WHEN_LOW_RISK), PolicyEnvOf(Facing(x, w))) == EvalError)
    ensures var o, p := RunFlow(RISK_ADAPTIVE_FLOW, d, x, w), RunFlow(DEFAULT_FLOW, d, x, w);
            o.desk == p.desk && o.sent == p.sent && o.result == p.result
  {
    RiskAdaptiveMeaning(d, x, w);
  }

  // ---- The owner console: what each operation does to the stored flows ----

  type Store = map<string, FlowDefinition>

  function FlowIn(flows: Store, tenantID: string, id: string): Option<FlowDefinition> {
    if id in flows && flows[id].tenantID == tenantID then Some(flows[id]) else None
  }

  predicate Rivals(a: FlowDefinition, b: FlowDefinition) {
    a.id != b.id && a.tenantID == b.tenantID && a.designation == b.designation
  }

  /** Upsert keeps the first creation stamp, and enabling a flow demotes the others of its tenant and designation. */
  function Upserted(flows: Store, f: FlowDefinition, now: int): Store {
    var created := if f.createdAt.Some? then f.createdAt else if f.id in flows then flows[f.id].createdAt else Some(now);
    (if f.enabled then Demoted(flows, f) else flows)[f.id := f.(createdAt := created, updatedAt := now)]
  }

  function Demoted(flows: Store, f: FlowDefinition): Store {
    map k | k in flows :: Yielding(flows[k], f)
  }

  function Yielding(other: FlowDefinition, f: FlowDefinition): FlowDefinition {
    if Rivals(other, f) then other.(enabled := false) else other
  }

  /** One console operation. `parsed` is the stage list of the submitted JSON, absent when it does not parse. */
  datatype ConsoleOp =
    | ApplyTemplate(tenantID: string, freshID: string, now: int)
    | Save(tenantID: string, id: string, slug: string, title: string, enabled: bool, parsed: Option<seq<StageConfig>>, freshID: string, now: int)
    | SetEnabled(tenantID: string, id: string, enable: bool, now: int)
    | Delete(tenantID: string, id: string)

  function SavedDefinition(op: ConsoleOp): FlowDefinition
    requires op.Save? && op.parsed.Some?
  {
    FlowDefinition(if op.id == "" then op.freshID else op.id, op.tenantID, AUTHORIZE_STEPUP, op.slug, op.title, op.enabled, op.parsed.value, None, 0)
  }

  function Operated(flows: Store, op: ConsoleOp, compiles: Compiler): Store {
    match op
    case ApplyTemplate(tenantID, freshID, now) =>
      var def := RiskAdaptiveDefinition(freshID, tenantID, true);
      if ValidDefinition(def, compiles) then Upserted(flows, def, now) else flows
    case Save(tenantID, id, slug, _, _, parsed, _, now) =>
      if slug == "" || parsed.None? || (id != "" && FlowIn(flows, tenantID, id).None?) || !ValidDefinition(SavedDefinition(op), compiles) then flows
      else Upserted(flows, SavedDefinition(op), now)
    case SetEnabled(tenantID, id, enable, now) =>
      var f := FlowIn(flows, tenantID, id);
      if f.None? || (enable && !ValidDefinition(f.value, compiles)) then flows
      else Upserted(flows, f.value.(enabled := enable), now)
    case Delete(tenantID, id) => if FlowIn(flows, tenantID, id).Some? then flows - {id} else flows
  }

  /** An operation that creates a flow brings a new id. */
  predicate FreshFor(flows: Store, op: ConsoleOp) {
    match op
    case ApplyTemplate(_, freshID, _) => freshID !in flows
    case Save(_, id, _, _, _, _, freshID, _) => freshID !in flows
    case _ => true
  }

  /** Every stored flow is valid, under its own id. */
  predicate AllValid(flows: Store, compiles: Compiler) {
    forall k :: k in flows ==> flows[k].id == k && ValidDefinition(flows[k], compiles)
  }

  /** At most one flow per tenant and designation is enabled. */
  predicate OneEnabled(flows: Store) {
    forall j, k :: j in flows && k in flows && flows[j].enabled && flows[k].enabled ==> !Rivals(flows[j], flows[k])
  }

  predicate ConsoleInv(flows: Store, compiles: Compiler) {
    AllValid(flows, compiles) && OneEnabled(flows)
  }

  lemma OnlyStagesMatter(f: FlowDefinition, g: FlowDefinition, compiles: Compiler)
    requires f.stages == g.stages
    ensures ValidDefinition(f, compiles) == ValidDefinition(g, compiles)
  {
  }

  lemma UpsertKeepsValid(flows: Store, f: FlowDefinition, now: int, compiles: Compiler)
    requires AllValid(flows, compiles) && ValidDefinition(f, compiles)
    ensures AllValid(Upserted(flows, f, now), compiles)
  {
    var w := Upserted(flows, f, now);
    forall k | k in w ensures w[k].id == k && ValidDefinition(w[k], compiles) {
      OnlyStagesMatter(w[k], if k == f.id then f else flows[k], compiles);
    }
  }

  lemma UpsertKeepsOneEnabled(flows: Store, f: FlowDefinition, now: int)
    requires OneEnabled(flows) && forall k :: k in flows ==> flows[k].id == k
    ensures OneEnabled(Upserted(flows, f, now))
  {
  }

  lemma UpsertKeepsInv(flows: Store, f: FlowDefinition, now: int, compiles: Compiler)
    requires ConsoleInv(flows, compiles) && ValidDefinition(f, compiles)
    ensures ConsoleInv(Upserted(flows, f, now), compiles)
  {
    UpsertKeepsValid(flows, f, now, compiles);
    UpsertKeepsOneEnabled(flows, f, now);
  }

  lemma ConsoleKeepsInv(flows: Store, op: ConsoleOp, compiles: Compiler)
    requires ConsoleInv(flows, compiles) && FreshFor(flows, op)
    ensures ConsoleInv(Operated(flows, op, compiles), compiles)
  {
    match op
    case ApplyTemplate(tenantID, freshID, now) =>
      if ValidDefinition(RiskAdaptiveDefinition(freshID, tenantID, true), compiles) {
        UpsertKeepsInv(flows, RiskAdaptiveDefinition(freshID, tenantID, true), now, compiles);
      }
    case Save(_, _, _, _, _, parsed, _, now) =>
      if parsed.Some? && ValidDefinition(SavedDefinition(op), compiles) {
        UpsertKeepsInv(flows, SavedDefinition(op), now, compiles);
      }
    case SetEnabled(tenantID, id, enable, now) =>
      var f := FlowIn(flows, tenantID, id);
      if f.Some? {
        OnlyStagesMatter(f.value.(enabled := enable), f.value, compiles);
        UpsertKeepsInv(flows, f.value.(enabled := enable), now, compiles);
      }
    case Delete(_, _) =>
  }

  /** A run of console operations, latest last. */
  datatype Console = Untouched | Op(past: Console, op: ConsoleOp)

  function StoreAfter(c: Console, compiles: Compiler): Store {
    if c.Untouched? then map[] else Operated(StoreAfter(c.past, compiles), c.op, compiles)
  }

  predicate Proper(c: Console, compiles: Compiler) {
    c.Op? ==> Proper(c.past, compiles) && FreshFor(StoreAfter(c.past, compiles), c.op)
  }

  /** Over every run of the console, stored flows stay valid and the enabled flow stays unique. */
  lemma {:induction false} ConsoleSafety(c: Console, compiles: Compiler)
    requires Proper(c, compiles)
    ensures ConsoleInv(StoreAfter(c, compiles), compiles)
  {
    if c.Op? {
      ConsoleSafety(c.past, compiles);
      ConsoleKeepsInv(StoreAfter(c.past, compiles), c.op, compiles);
    }
  }

  /** No operation of one tenant touches another tenant's flows. */
  lemma TenantsAreIsolated(flows: Store, op: ConsoleOp, compiles: Compiler, k: string)
    requires FreshFor(flows, op) && k in flows && (forall j :: j in flows ==> flows[j].id == j)
    requires flows[k].tenantID != op.tenantID
    ensures k in Operated(flows, op, compiles) && Operated(flows, op, compiles)[k] == flows[k]
  {
  }

  /** Toggling a flow of the tenant sets its flag, and enabling it disables the other flows of its designation; what does
      not validate is not enabled, and nothing else is touched. */
  lemma ToggledFlow(flows: Store, tenantID: string, id: string, enable: bool, now: int, compiles: Compiler)
    requires forall k :: k in flows ==> flows[k].id == k
    ensures var w := Operated(flows, SetEnabled(tenantID, id, enable, now), compiles);
            if id !in flows || flows[id].tenantID != tenantID || (enable && !ValidDefinition(flows[id], compiles)) then w == flows
            else
              && w.Keys == flows.Keys && w[id].enabled == enable && w[id].updatedAt == now
              && w[id] == flows[id].(enabled := enable, updatedAt := now, createdAt := w[id].createdAt)
              && (flows[id].createdAt.Some? ==> w[id].createdAt == flows[id].createdAt)
              && forall k :: k in flows && k != id ==>
                   w[k] == if enable && flows[k].tenantID == tenantID && flows[k].designation == flows[id].designation
                           then flows[k].(enabled := false) else flows[k]
  {
  }

  /** Saving stores the submitted flow, under a new id or over the tenant's own, exactly when it has a slug, parses,
      validates, and names no foreign flow. */
  lemma SavedFlow(flows: Store, op: ConsoleOp, compiles: Compiler)
    requires op.Save? && (forall k :: k in flows ==> flows[k].id == k) && FreshFor(flows, op)
    ensures var w, id := Operated(flows, op, compiles), if op.id == "" then op.freshID else op.id;
            if op.slug == "" || op.parsed.None? || (op.id != "" && (op.id !in flows || flows[op.id].tenantID != op.tenantID)) ||
               !ValidDefinition(SavedDefinition(op), compiles) then w == flows
            else
              && w.Keys == flows.Keys + {id}
              && w[id].id == id && w[id].tenantID == op.tenantID && w[id].stages == op.parsed.value && w[id].enabled == op.enabled
              && w[id].slug == op.slug && w[id].title == op.title && w[id].designation == "authorization-stepup" && w[id].updatedAt == op.now
              && w[id].createdAt == (if op.id == "" then Some(op.now) else flows[id].createdAt)
  {
  }

  /** Applying the template enables a risk-adaptive flow of the tenant's own under the new id, in place of whatever other
      flow was enabled, if its two policies compile; otherwise it stores nothing. */
  lemma AppliedTemplate(flows: Store, tenantID: string, freshID: string, now: int, compiles: Compiler)
    requires freshID !in flows && forall k :: k in flows ==> flows[k].id == k
    ensures var w := Operated(flows, ApplyTemplate(tenantID, freshID, now), compiles);
            if !(compiles(POLICY_DENY_HIGH_RISK_LOCATION) && compiles(POLICY_SKIP_WHEN_LOW_RISK)) then w == flows
            else
              && w.Keys == flows.Keys + {freshID}
              && w[freshID] == RiskAdaptiveDefinition(freshID, tenantID, true).(createdAt := Some(now), updatedAt := now)
              && forall k :: k in flows ==>
                   w[k] == if flows[k].tenantID == tenantID && flows[k].designation == "authorization-stepup" then flows[k].(enabled := false)
                           else flows[k]
  {
    var def := RiskAdaptiveDefinition(freshID, tenantID, true);
    assert def.stages[1].policies[0].expression == POLICY_DENY_HIGH_RISK_LOCATION && def.stages[2].policies[0].expression == POLICY_SKIP_WHEN_LOW_RISK;
  }

  /** Deleting removes the tenant's own flow, and nothing else. */
  lemma DeletedFlow(flows: Store, tenantID: string, id: string, compiles: Compiler)
    ensures Operated(flows, Delete(tenantID, id), compiles) == if id in flows && flows[id].tenantID == tenantID then flows - {id} else flows
  {
  }

  predicate IsEnabled(f: FlowDefinition, tenantID: string, designation: string) {
    f.tenantID == tenantID && f.designation == designation && f.enabled
  }

  /** The stages are those of an enabled flow of the tenant, compiled. */
  ghost predicate CompiledFromEnabled(flows: Store, tenantID: string, compiles: Compiler, stages: seq<Stage>) {
    exists k :: k in flows && IsEnabled(flows[k], tenantID, AUTHORIZE_STEPUP) && AllBuild(flows[k], compiles) && stages == Compiled(flows[k])
  }

  // ---- The store and the selection as written ----

  class FlowStore {
    var flows: Store

    constructor ()
      ensures flows == map[]
    {
      flows := map[];
    }

    method UpsertFlow(f: FlowDefinition, now: int)
      requires forall k :: k in flows ==> flows[k].id == k
      modifies this
      ensures flows == Upserted(old(flows), f, now)
    {
      var g := f;
      if g.createdAt.None? {
        g := g.(createdAt := if g.id in flows then flows[g.id].createdAt else Some(now));
      }
      g := g.(updatedAt := now);
      if g.enabled {
        Demote(g);
      }
      flows := flows[g.id := g];
    }

    /** One enabled flow per tenant and designation: disables the others. */
    method Demote(f: FlowDefinition)
      requires forall k :: k in flows ==> flows[k].id == k
      modifies this
      ensures flows == Demoted(old(flows), f)
    {
      var todo := flows.Keys;
      ghost var was := flows;
      while todo != {}
        invariant todo <= was.Keys == flows.Keys
        invariant forall k :: k in was ==> flows[k] == if k in todo then was[k] else Yielding(was[k], f)
        decreases |todo|
      {
        var k :| k in todo;
        var other := flows[k];
        todo := todo - {k};
        if k != f.id && other.tenantID == f.tenantID && other.designation == f.designation && other.enabled {
          flows := flows[k := other.(enabled := false)];
        }
      }
    }

    method GetFlow(tenantID: string, id: string) returns (f: Option<FlowDefinition>)
      ensures f == FlowIn(flows, tenantID, id)
    {
      if id !in flows || flows[id].tenantID != tenantID {
        return None;
      }
      return Some(flows[id]);
    }

    method DeleteFlow(tenantID: string, id: string) returns (found: bool)
      modifies this
      ensures found == FlowIn(old(flows), tenantID, id).Some?
      ensures flows == if found then old(flows) - {id} else old(flows)
    {
      if id !in flows || flows[id].tenantID != tenantID {
        return false;
      }
      flows := flows - {id};
      return true;
    }

    /** The most recently updated enabled flow of the designation. */
    method GetEnabledFlow(tenantID: string, designation: string) returns (best: Option<FlowDefinition>)
      ensures best.None? ==> forall k :: k in flows ==> !IsEnabled(flows[k], tenantID, designation)
      ensures best.Some? ==> IsEnabled(best.value, tenantID, designation) && best.value in flows.Values
      ensures best.Some? ==> forall k :: k in flows && IsEnabled(flows[k], tenantID, designation) ==> flows[k].updatedAt <= best.value.updatedAt
    {
      best := None;
      var todo := flows.Keys;
      while todo != {}
        invariant todo <= flows.Keys
        invariant best.None? ==> forall k :: k in flows && k !in todo ==> !IsEnabled(flows[k], tenantID, designation)
        invariant best.Some? ==> IsEnabled(best.value, tenantID, designation) && best.value in flows.Values
        invariant best.Some? ==> forall k :: k in flows && k !in todo && IsEnabled(flows[k], tenantID, designation) ==> flows[k].updatedAt <= best.value.updatedAt
        decreases |todo|
      {
        var k :| k in todo;
        var f := flows[k];
        todo := todo - {k};
        if f.tenantID == tenantID && f.designation == designation && f.enabled {
          if best.None? || f.updatedAt > best.value.updatedAt {
            best := Some(f);
          }
        }
      }
    }

    /** The flow /authorize runs: the tenant's enabled flow if it compiles, otherwise the default flow. In a store the
        console built, the enabled flow always compiles, so the fallback never replaces it. */
    method SelectAuthorizeFlow(tenantID: string, compiles: Compiler) returns (stages: seq<Stage>)
      ensures (forall k :: k in flows ==> !IsEnabled(flows[k], tenantID, AUTHORIZE_STEPUP)) ==> stages == DEFAULT_FLOW
      ensures stages != DEFAULT_FLOW ==> CompiledFromEnabled(flows, tenantID, compiles, stages)
      ensures ConsoleInv(flows, compiles) ==>
                forall k :: k in flows && IsEnabled(flows[k], tenantID, AUTHORIZE_STEPUP) ==> stages == Compiled(flows[k])
    {
      var def := GetEnabledFlow(tenantID, AUTHORIZE_STEPUP);
      if def.None? {
        return DEFAULT_FLOW;
      }
      if ConsoleInv(flows, compiles) {
        assert ValidDefinition(def.value, compiles);
        forall k | k in flows && IsEnabled(flows[k], tenantID, AUTHORIZE_STEPUP) ensures flows[k] == def.value {
          assert !Rivals(flows[k], def.value);
        }
      }
      var built := BuildFlow(def.value, compiles);
      if built.None? {
        return DEFAULT_FLOW;
      }
      return built.value;
    }
  }

  class OwnerConsole {
    const store: FlowStore
    const compiles: Compiler

    constructor (store: FlowStore, compiles: Compiler)
      ensures this.store == store && this.compiles == compiles
    {
      this.store, this.compiles := store, compiles;
    }

    method ApplyFlowTemplate(tenantID: string, freshID: string, now: int) returns (ok: bool)
      requires ConsoleInv(store.flows, compiles)
      modifies store
      ensures store.flows == Operated(old(store.flows), ApplyTemplate(tenantID, freshID, now), compiles)
    {
      var def := RiskAdaptiveDefinition(freshID, tenantID, true);
      ok := ValidateFlowDefinition(def, compiles);
      if ok {
        store.UpsertFlow(def, now);
      }
    }

    /** A foreign id reads as not found, so no workspace can overwrite another's flow. */
    method SaveFlow(tenantID: string, id: string, slug: string, title: string, enabled: bool,
                    parsed: Option<seq<StageConfig>>, freshID: string, now: int) returns (ok: bool)
      requires ConsoleInv(store.flows, compiles)
      modifies store
      ensures store.flows == Operated(old(store.flows), Save(tenantID, id, slug, title, enabled, parsed, freshID, now), compiles)
    {
      if slug == "" || parsed.None? {
        return false;
      }
      var target := freshID;
      if id != "" {
        var existing := store.GetFlow(tenantID, id);
        if existing.None? {
          return false;
        }
        target := id;
      }
      var def := FlowDefinition(target, tenantID, AUTHORIZE_STEPUP, slug, title, enabled, parsed.value, None, 0);
      ok := ValidateFlowDefinition(def, compiles);
      if ok {
        store.UpsertFlow(def, now);
      }
    }

    method SetFlowEnabled(tenantID: string, id: string, enable: bool, now: int) returns (ok: bool)
      requires ConsoleInv(store.flows, compiles)
      modifies store
      ensures store.flows == Operated(old(store.flows), SetEnabled(tenantID, id, enable, now), compiles)
    {
      var def := store.GetFlow(tenantID, id);
      if def.None? {
        return false;
      }
      if enable {
        var valid := ValidateFlowDefinition(def.value, compiles);
        if !valid {
          return false;
        }
      }
      store.UpsertFlow(def.value.(enabled := enable), now);
      return true;
    }

    method DeleteFlow(tenantID: string, id: string)
      modifies store
      ensures store.flows == Operated(old(store.flows), Delete(tenantID, id), compiles)
    {
      var _ := store.DeleteFlow(tenantID, id);
    }
  }
}
