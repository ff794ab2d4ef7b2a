/** What a code's assurance level rests on, over whole runs of /authorize, /authorize/verify and the console
    (services/authentication-service/internal/protection.go, otp.go, oidc.go). */
module StepUpAssurance {
  import opened Common
  import opened Protection
  import opened Desk
  import opened DeskRuns
  import opened Gates
  import opened TokenVault
  import AL = AssuranceLedger
  import E = Engine
  import Words

  // ---- The history of verified step-ups ----

  predicate VerifiesFor(d: Desk, e: Event, sessionID: string, rank: nat) {
    && e.Verify? && Passes(d, e.flowID, e.submitted, e.outcome, e.env.now)
    && d.flows[e.flowID].sessionID == sessionID && d.flows[e.flowID].targetRank == rank
  }

  /** Each verified flow of a session that targets a level is one step of that session; nothing else is. */
  function Extended(history: map<string, AL.Steps>, d: Desk, e: Event): map<string, AL.Steps> {
    if e.Verify? && Passes(d, e.flowID, e.submitted, e.outcome, e.env.now) &&
       d.flows[e.flowID].targetRank > 0 && d.flows[e.flowID].sessionID != "" then
      var s := d.flows[e.flowID].sessionID;
      history[s := AL.Step(if s in history then history[s] else AL.NoStep, d.flows[e.flowID].targetRank, e.env.now)]
    else history
  }

  function HistoryAfter(run: Run, cfg: Config): map<string, AL.Steps> {
    if run.Start? then map[] else Extended(HistoryAfter(run.past, cfg), DeskAfter(run.past, cfg), run.e)
  }

  lemma StartingMintsNothing(d: Desk, spec: Spec, p: Pending, env: Env)
    ensures var (d', r) := StartStepUp(d, spec, p, env); d'.codes == d.codes && d'.entries == d.entries && !r.RedirectCode?
  {
  }

  /** A level that is satisfied is issued at once; otherwise nothing is minted. Either way the ledger is only looked at. */
  lemma LevelGate(d: Desk, cfg: Config, level: Level, sessionID: string, f: Facts, env: Env)
    ensures var (d', r) := HandleProtection(d, cfg, level, sessionID, f, env);
            && d'.entries == Looked(d, cfg, sessionID, env.now).entries
            && if env.redirectParses && Satisfied(d, cfg, level, sessionID, env.now) then Issued(d, d', r, f, level.acr, [], env)
               else d'.codes == d.codes && !r.RedirectCode?
  {
    var looked, spec := Looked(d, cfg, sessionID, env.now), SpecForMethod(level.kind);
    MintIssues(looked, f, level.acr, [], env);
    if spec.Some? {
      StartingMintsNothing(looked, EffectiveSpec(cfg.tenants, f.tenantID, spec.value), NewPending(f, level.acr, level.rank, sessionID), env);
    }
  }

  /** On the default flow the engine leaves the legacy entries, or those entries with some garbage collected. */
  lemma EngineEntries(d: Desk, e: Event, cfg: Config)
    requires e.AuthorizeByEngine?
    ensures var m := After(d, e, cfg).entries; m == d.entries || m == Looked(d, cfg, e.sessionID, e.env.now).entries
  {
    if AdviceRefusal(d, e.acrValues, e.f).None? {
      var w := E.World(cfg, e.env, e.risk, e.evaluate);
      LegacyCodes(d, cfg, e.acrValues, e.sessionID, e.f, e.env);
      if MatchProtection(e.acrValues).Some? {
        E.DefaultFlowOnLevel(d, e.acrValues, e.sessionID, e.f, e.request, w);
      } else if MatchStepUp(e.acrValues).Some? {
        E.DefaultFlowOnMethod(d, e.acrValues, e.sessionID, e.f, e.request, w);
      } else {
        E.DefaultFlowOnPlain(d, e.acrValues, e.sessionID, e.f, e.request, w);
      }
    }
  }

  lemma LookingReflects(d: Desk, cfg: Config, sessionID: string, history: map<string, AL.Steps>, clock: int, now: int)
    requires AL.Reflects(d.entries, history, cfg.ledgerTTL, clock) && clock <= now
    ensures AL.Reflects(Looked(d, cfg, sessionID, now).entries, history, cfg.ledgerTTL, now)
    ensures AL.Reflects(d.entries, history, cfg.ledgerTTL, now)
  {
    AL.CollectingIsInvisible(d.entries, history, cfg.ledgerTTL, clock, now);
    forall s ensures var steps := AL.StepsOf(history, s); AL.NotBefore(steps, now) && (s !in d.entries && steps.Step? ==> now - steps.at > cfg.ledgerTTL) {
      assert AL.NotBefore(AL.StepsOf(history, s), clock);
    }
  }

  /** Every request keeps the ledger equal to the history of verified step-ups. */
  lemma StepKeepsHistory(d: Desk, e: Event, cfg: Config, history: map<string, AL.Steps>, clock: int)
    requires AL.Reflects(d.entries, history, cfg.ledgerTTL, clock) && clock <= Now(e)
    ensures AL.Reflects(After(d, e, cfg).entries, Extended(history, d, e), cfg.ledgerTTL, Now(e))
  {
    match e
    case Authorize(acrValues, sessionID, f, env) =>
      LegacyCodes(d, cfg, acrValues, sessionID, f, env);
      LookingReflects(d, cfg, sessionID, history, clock, env.now);
    case AuthorizeByEngine(_, sessionID, _, _, env, _, _) =>
      EngineEntries(d, e, cfg);
      LookingReflects(d, cfg, sessionID, history, clock, env.now);
    case Verify(flowID, submitted, outcome, env) =>
      VerifyGate(d, cfg, flowID, submitted, outcome, env);
      LookingReflects(d, cfg, "", history, clock, env.now);
      if Passes(d, flowID, submitted, outcome, env.now) {
        var p := d.flows[flowID];
        VerifiedFlow(d, cfg, flowID, submitted, outcome, env);
        if p.targetRank > 0 && p.sessionID != "" {
          AL.RecordingExtends(d.entries, history, cfg.ledgerTTL, clock, p.sessionID, p.targetRank, env.now);
        }
      }
    case _ => LookingReflects(d, cfg, "", history, clock, Now(e));
  }

  /** In every reachable state the ledger tells exactly the history of verified step-ups. */
  lemma {:induction false} LedgerIsVerifiedHistory(run: Run, cfg: Config, clock: int)
    requires Genuine(run, cfg) && NotBefore(run, clock)
    ensures AL.Reflects(DeskAfter(run, cfg).entries, HistoryAfter(run, cfg), cfg.ledgerTTL, clock)
  {
    if run.Then? {
      LedgerIsVerifiedHistory(run.past, cfg, Now(run.e));
      StepKeepsHistory(DeskAfter(run.past, cfg), run.e, Settings(run, cfg), HistoryAfter(run.past, cfg), Now(run.e));
      LookingReflects(DeskAfter(run, cfg), cfg, "", HistoryAfter(run, cfg), Now(run.e), clock);
    }
  }

  function Window(cfg: Config): int {
    if cfg.freshness > 0 then cfg.freshness else 5 * MINUTE
  }

  /** A level is satisfied if and only if the session's history achieves its rank within the freshness window. */
  lemma SatisfiedIff(d: Desk, cfg: Config, level: Level, sessionID: string, history: map<string, AL.Steps>, clock: int, now: int)
    requires AL.Reflects(d.entries, history, cfg.ledgerTTL, clock) && clock <= now && 1 <= level.rank
    ensures Satisfied(d, cfg, level, sessionID, now) <==>
            sessionID != "" && AL.AchievedWithinBy(AL.StepsOf(history, sessionID), cfg.ledgerTTL, Window(cfg), now) >= level.rank
  {
    AL.AnswersAreExact(d.entries, history, cfg.ledgerTTL, clock, now, sessionID, Window(cfg));
  }

  /** What policies see when a flow starts: the user, the request, the rank asked for, the rank that the session's history
      achieves, and no risk yet. */
  lemma PolicyFacts(d: Desk, cfg: Config, acrValues: string, sessionID: string, f: Facts, request: E.RequestFacts, now: int,
                    history: map<string, AL.Steps>, clock: int)
    requires AL.Reflects(d.entries, history, cfg.ledgerTTL, clock) && clock <= now && AL.StepsOf(history, "") == AL.NoStep
    ensures var level := MatchProtection(acrValues);
            E.PolicyEnvOf(E.Begin(d, cfg, acrValues, sessionID, f, request, now))
            == E.PolicyEnv(f.userID, request, if level.Some? then level.value.rank else 0,
                           AL.AchievedBy(AL.StepsOf(history, sessionID), cfg.ledgerTTL, now), None)
  {
    AL.AnswersAreExact(d.entries, history, cfg.ledgerTTL, clock, now, sessionID, 0);
  }

  // ---- Where every code comes from ----

  /** The code was minted by this verification, for the request of its flow. */
  predicate ByVerification(d: Desk, e: Event, ac: AuthCode) {
    && e.Verify? && Passes(d, e.flowID, e.submitted, e.outcome, e.env.now)
    && var p := d.flows[e.flowID];
       CodeFor(ac, p.facts, e.env.code, e.env.now) && ac.acr == if p.targetACR != "" then p.targetACR else MethodACR(p.kind)
  }

  predicate Requests(e: Event) {
    e.Authorize? || e.AuthorizeByEngine?
  }

  /** The code was minted by this request without a challenge: its level is achieved by the session's history, or it asks
      for neither a level nor a method. */
  ghost predicate ByRequest(d: Desk, history: map<string, AL.Steps>, e: Event, cfg: Config, ac: AuthCode) {
    && Requests(e) && AdviceRefusal(d, e.acrValues, e.f).None? && CodeFor(ac, e.f, e.env.code, e.env.now)
    && var level := MatchProtection(e.acrValues);
       if level.Some? then
         && ac.acr == level.value.acr && e.sessionID != ""
         && AL.AchievedWithinBy(AL.StepsOf(history, e.sessionID), cfg.ledgerTTL, Window(cfg), e.env.now) >= level.value.rank
       else MatchStepUp(e.acrValues).None? && ac.acr == ""
  }

  lemma LegacyCodes(d: Desk, cfg: Config, acrValues: string, sessionID: string, f: Facts, env: Env)
    ensures var (d', r) := Legacy(d, cfg, acrValues, sessionID, f, env);
            var level := MatchProtection(acrValues);
            var issues := env.redirectParses &&
                          if level.Some? then Satisfied(d, cfg, level.value, sessionID, env.now) else MatchStepUp(acrValues).None?;
            && d'.entries == (if level.Some? then Looked(d, cfg, sessionID, env.now).entries else d.entries)
            && if issues then Issued(d, d', r, f, if level.Some? then level.value.acr else "", [], env)
               else d'.codes == d.codes && !r.RedirectCode?
  {
    var level, spec := MatchProtection(acrValues), MatchStepUp(acrValues);
    if level.Some? {
      LevelGate(d, cfg, level.value, sessionID, f, env);
    } else if spec.Some? {
      StartingMintsNothing(d, EffectiveSpec(cfg.tenants, f.tenantID, spec.value), NewPending(f, "", 0, ""), env);
    } else {
      MintIssues(d, f, "", [], env);
    }
  }

  /** A code that is there after a step was there before, or this step minted it. */
  lemma StepAccountsForCodes(d: Desk, e: Event, cfg: Config, history: map<string, AL.Steps>, clock: int, code: string)
    requires AL.Reflects(d.entries, history, cfg.ledgerTTL, clock) && clock <= Now(e) && code in After(d, e, cfg).codes
    ensures var ac := After(d, e, cfg).codes[code];
            || (code in d.codes && d.codes[code] == ac) || ByVerification(d, e, ac) || ByRequest(d, history, e, cfg, ac)
  {
    match e
    case Authorize(acrValues, sessionID, f, env) => RequestAccountsForCodes(d, e, cfg, history, clock, code);
    case AuthorizeByEngine(acrValues, sessionID, f, _, env, _, _) =>
      EngineIsLegacy(d, e, cfg);
      RequestAccountsForCodes(d, e, cfg, history, clock, code);
    case Verify(flowID, submitted, outcome, env) =>
      VerifyGate(d, cfg, flowID, submitted, outcome, env);
      if Passes(d, flowID, submitted, outcome, env.now) {
        VerifiedFlow(d, cfg, flowID, submitted, outcome, env);
      }
    case _ =>
  }

  lemma RequestAccountsForCodes(d: Desk, e: Event, cfg: Config, history: map<string, AL.Steps>, clock: int, code: string)
    requires AL.Reflects(d.entries, history, cfg.ledgerTTL, clock) && clock <= Now(e) && Requests(e)
    requires var d' := After(d, Authorize(e.acrValues, e.sessionID, e.f, e.env), cfg); code in d'.codes
    ensures var ac := After(d, Authorize(e.acrValues, e.sessionID, e.f, e.env), cfg).codes[code];
            (code in d.codes && d.codes[code] == ac) || ByRequest(d, history, e, cfg, ac)
  {
    LegacyCodes(d, cfg, e.acrValues, e.sessionID, e.f, e.env);
    var level := MatchProtection(e.acrValues);
    if level.Some? {
      MatchedLevel(Words.Fields(e.acrValues));
      SatisfiedIff(d, cfg, level.value, e.sessionID, history, clock, Now(e));
    }
  }

  /** The code was minted in the run by a verification or by a request that needed none. */
  ghost predicate Earned(run: Run, cfg: Config, ac: AuthCode) {
    run.Then? &&
    (ByVerification(DeskAfter(run.past, cfg), run.e, ac) ||
     ByRequest(DeskAfter(run.past, cfg), HistoryAfter(run.past, cfg), run.e, Settings(run, cfg), ac) ||
     Earned(run.past, cfg, ac))
  }

  /** Every code in every reachable state was minted for its own request, either on a verified challenge, or because the
      session's verified history already reached the level, or because no step-up was asked for. */
  lemma {:induction false} CodesAreEarned(run: Run, cfg: Config, code: string)
    requires Genuine(run, cfg) && code in DeskAfter(run, cfg).codes
    ensures Earned(run, cfg, DeskAfter(run, cfg).codes[code])
  {
    if run.Then? {
      var d, history := DeskAfter(run.past, cfg), HistoryAfter(run.past, cfg);
      LedgerIsVerifiedHistory(run.past, cfg, Now(run.e));
      StepAccountsForCodes(d, run.e, Settings(run, cfg), history, Now(run.e), code);
      if code in d.codes && d.codes[code] == DeskAfter(run, cfg).codes[code] {
        CodesAreEarned(run.past, cfg, code);
      }
    }
  }

  /** Minting a code for a pending transaction completes its row, for the code's user at the code's level, and reports it
      once; minting for any other leaves rows and reports as they were. */
  lemma MintCompletes(d: Desk, f: Facts, acr: string, amr: seq<string>, env: Env)
    requires env.redirectParses
    ensures var d' := Mint(d, f, acr, amr, env).0;
            var row := FindAdvice(d.advice, f.tenantID, f.transactionID);
            if f.transactionID != "" && row.Some? && row.value.completedAt.None? then
              && FindAdvice(d'.advice, f.tenantID, f.transactionID)
                 == Some(row.value.(completedAt := Some(env.now), completedUserID := f.userID, completedACR := acr))
              && d'.emitted == d.emitted + [Emission(f.tenantID, f.userID, f.transactionID, acr, RankOf(acr))]
            else d'.advice == d.advice && d'.emitted == d.emitted
  {
    FindAfterCompletion(d.advice, f.tenantID, f.transactionID, f.userID, acr, env.now, f.tenantID, f.transactionID);
  }

  // ---- Every ranked code goes back to a verified challenge of its rank ----

  predicate FlowsRanked(d: Desk) {
    forall id :: id in d.flows ==> d.flows[id].targetRank == RankOf(d.flows[id].targetACR)
  }

  lemma StartKeepsRanks(d: Desk, spec: Spec, p: Pending, env: Env)
    requires FlowsRanked(d) && p.targetRank == RankOf(p.targetACR)
    ensures FlowsRanked(StartStepUp(d, spec, p, env).0)
  {
    var q := StartShape(d, spec, p, env);
  }

  lemma LegacyKeepsRanks(d: Desk, cfg: Config, acrValues: string, sessionID: string, f: Facts, env: Env)
    requires FlowsRanked(d)
    ensures FlowsRanked(Legacy(d, cfg, acrValues, sessionID, f, env).0)
  {
    var level, spec := MatchProtection(acrValues), MatchStepUp(acrValues);
    PlainMethodsHaveNoRank();
    if level.Some? {
      MatchedLevel(Words.Fields(acrValues));
      var looked := Looked(d, cfg, sessionID, env.now);
      MintIssues(looked, f, level.value.acr, [], env);
      StartKeepsRanks(looked, EffectiveSpec(cfg.tenants, f.tenantID, SpecForMethod(level.value.kind).value),
                      NewPending(f, level.value.acr, level.value.rank, sessionID), env);
    } else if spec.Some? {
      StartKeepsRanks(d, EffectiveSpec(cfg.tenants, f.tenantID, spec.value), NewPending(f, "", 0, ""), env);
    } else {
      MintIssues(d, f, "", [], env);
    }
  }

  lemma StepKeepsRanks(d: Desk, e: Event, cfg: Config)
    requires FlowsRanked(d)
    ensures FlowsRanked(After(d, e, cfg))
  {
    match e
    case Authorize(acrValues, sessionID, f, env) => LegacyKeepsRanks(d, cfg, acrValues, sessionID, f, env);
    case AuthorizeByEngine(acrValues, sessionID, f, _, env, _, _) =>
      EngineIsLegacy(d, e, cfg);
      LegacyKeepsRanks(d, cfg, acrValues, sessionID, f, env);
    case Verify(flowID, submitted, outcome, env) => VerifyKeepsRanks(d, cfg, flowID, submitted, outcome, env);
    case _ =>
  }

  lemma VerifyKeepsRanks(d: Desk, cfg: Config, flowID: string, submitted: bool, outcome: VerifyOutcome, env: Env)
    requires FlowsRanked(d)
    ensures FlowsRanked(AuthorizeVerify(d, cfg, flowID, submitted, outcome, env).0)
  {
    if Passes(d, flowID, submitted, outcome, env.now) {
      VerifiedFlow(d, cfg, flowID, submitted, outcome, env);
    }
  }

  lemma {:induction false} FlowsAreRanked(run: Run, cfg: Config)
    ensures FlowsRanked(DeskAfter(run, cfg))
  {
    if run.Then? {
      FlowsAreRanked(run.past, cfg);
      StepKeepsRanks(DeskAfter(run.past, cfg), run.e, Settings(run, cfg));
    }
  }

  /** A flow of the session with this target rank was verified at that instant of the run. */
  predicate VerifiedAt(run: Run, cfg: Config, sessionID: string, rank: int, at: int) {
    run.Then? &&
    ((rank > 0 && VerifiesFor(DeskAfter(run.past, cfg), run.e, sessionID, rank) && Now(run.e) == at) || VerifiedAt(run.past, cfg, sessionID, rank, at))
  }

  predicate StepIn(steps: AL.Steps, rank: int, at: int) {
    steps.Step? && ((steps.rank == rank && steps.at == at) || StepIn(steps.past, rank, at))
  }

  lemma {:induction false} HistoryIsVerified(run: Run, cfg: Config, sessionID: string, rank: int, at: int)
    requires StepIn(AL.StepsOf(HistoryAfter(run, cfg), sessionID), rank, at)
    ensures VerifiedAt(run, cfg, sessionID, rank, at)
  {
    if run.Then? {
      var before, after := AL.StepsOf(HistoryAfter(run.past, cfg), sessionID), AL.StepsOf(HistoryAfter(run, cfg), sessionID);
      if StepIn(before, rank, at) {
        HistoryIsVerified(run.past, cfg, sessionID, rank, at);
      } else {
        assert after != before;
      }
    }
  }

  lemma {:induction false} ChainIsInHistory(steps: AL.Steps, ttl: int, rank: int, at: int)
    requires StepIn(AL.Chain(steps, ttl), rank, at)
    ensures StepIn(steps, rank, at)
  {
    if StepIn(AL.Chain(steps, ttl).past, rank, at) {
      ChainIsInHistory(steps.past, ttl, rank, at);
    }
  }

  lemma {:induction false} HighestIsInChain(steps: AL.Steps) returns (at: int)
    requires AL.Highest(steps) > 0
    ensures StepIn(steps, AL.Highest(steps), at)
  {
    if AL.Highest(steps.past) >= steps.rank {
      at := HighestIsInChain(steps.past);
    } else {
      at := steps.at;
    }
  }

  /** In an unbroken chain of the session's verified step-ups, whose last one is fresh, one reaches the rank. */
  ghost predicate Reached(run: Run, cfg: Config, sessionID: string, rank: nat, now: int) {
    var steps := AL.StepsOf(HistoryAfter(run, cfg), sessionID);
    && steps.Step? && now - steps.at <= Min(Window(cfg), cfg.ledgerTTL) && VerifiedAt(run, cfg, sessionID, steps.rank, steps.at)
    && exists r, at :: r >= rank && StepIn(AL.Chain(steps, cfg.ledgerTTL), r, at) && VerifiedAt(run, cfg, sessionID, r, at)
  }

  lemma AchievedIsReached(run: Run, cfg: Config, sessionID: string, rank: nat, now: int)
    requires 1 <= rank <= AL.AchievedWithinBy(AL.StepsOf(HistoryAfter(run, cfg), sessionID), cfg.ledgerTTL, Window(cfg), now)
    ensures Reached(run, cfg, sessionID, rank, now)
  {
    var steps := AL.StepsOf(HistoryAfter(run, cfg), sessionID);
    var chain := AL.Chain(steps, cfg.ledgerTTL);
    var at := HighestIsInChain(chain);
    ChainIsInHistory(steps, cfg.ledgerTTL, AL.Highest(chain), at);
    HistoryIsVerified(run, cfg, sessionID, AL.Highest(chain), at);
    assert StepIn(steps, steps.rank, steps.at);
    HistoryIsVerified(run, cfg, sessionID, steps.rank, steps.at);
  }

  /** The code was minted by a verified flow with exactly this target rank, or by a request whose session had reached it. */
  ghost predicate Backed(run: Run, cfg: Config, ac: AuthCode, rank: nat) {
    run.Then? &&
    ((ByVerification(DeskAfter(run.past, cfg), run.e, ac) && DeskAfter(run.past, cfg).flows[run.e.flowID].targetRank == rank) ||
     (Requests(run.e) && CodeFor(ac, run.e.f, run.e.env.code, run.e.env.now) && Reached(run.past, cfg, run.e.sessionID, rank, run.e.env.now)) ||
     Backed(run.past, cfg, ac, rank))
  }

  lemma {:induction false} EarnedIsBacked(run: Run, cfg: Config, ac: AuthCode)
    requires Earned(run, cfg, ac) && 1 <= RankOf(ac.acr)
    ensures Backed(run, cfg, ac, RankOf(ac.acr))
  {
    var d, history := DeskAfter(run.past, cfg), HistoryAfter(run.past, cfg);
    PlainMethodsHaveNoRank();
    if ByVerification(d, run.e, ac) {
      FlowsAreRanked(run.past, cfg);
    } else if ByRequest(d, history, run.e, Settings(run, cfg), ac) {
      MatchedLevel(Words.Fields(run.e.acrValues));
      AchievedIsReached(run.past, cfg, run.e.sessionID, RankOf(ac.acr), run.e.env.now);
    } else {
      EarnedIsBacked(run.past, cfg, ac);
    }
  }

  /** Assurance: in every reachable state, a code that claims a level of rank r was minted by a verified challenge that
      targeted rank r, or for a session with a fresh, unbroken chain of verified challenges one of which reached r. */
  lemma RankedCodesAreBacked(run: Run, cfg: Config, code: string)
    requires Genuine(run, cfg) && code in DeskAfter(run, cfg).codes && 1 <= RankOf(DeskAfter(run, cfg).codes[code].acr)
    ensures var ac := DeskAfter(run, cfg).codes[code]; Backed(run, cfg, ac, RankOf(ac.acr))
  {
    CodesAreEarned(run, cfg, code);
    EarnedIsBacked(run, cfg, DeskAfter(run, cfg).codes[code]);
  }

  // ---- Whatever flow the tenant has stored ----

  /** What an execution may claim: nothing, or the level it asks for when the session's history achieves it. */
  ghost predicate MayClaim(x: E.Execution, w: E.World, history: map<string, AL.Steps>, acr: string) {
    acr == "" ||
    var level := MatchProtection(x.acrValues);
    && level.Some? && acr == level.value.acr && x.sessionID != ""
    && AL.AchievedWithinBy(AL.StepsOf(history, x.sessionID), w.cfg.ledgerTTL, Window(w.cfg), w.env.now) >= level.value.rank
  }

  ghost predicate Faithful(d: Desk, x: E.Execution, w: E.World, history: map<string, AL.Steps>) {
    AL.Reflects(d.entries, history, w.cfg.ledgerTTL, w.env.now) && MayClaim(x, w, history, x.achievedACR)
  }

  /** The desk gained at most one code, for this request, that claims what the execution may. */
  ghost predicate Accounted(d: Desk, d': Desk, x: E.Execution, w: E.World, history: map<string, AL.Steps>) {
    forall code :: code in d'.codes ==>
      || (code in d.codes && d'.codes[code] == d.codes[code])
      || (CodeFor(d'.codes[code], x.facts, w.env.code, w.env.now) && MayClaim(x, w, history, d'.codes[code].acr))
  }

  lemma ValidateMints(d: Desk, x: E.Execution, w: E.World, history: map<string, AL.Steps>)
    requires Faithful(d, x, w, history)
    ensures var o := E.ExecuteValidate(d, x, w);
            && Faithful(o.desk, o.exec, w, history) && o.desk.codes == d.codes
            && o.exec.facts == x.facts && o.exec.acrValues == x.acrValues && o.exec.sessionID == x.sessionID
  {
    var level, spec := MatchProtection(x.acrValues), MatchStepUp(x.acrValues);
    if level.Some? {
      MatchedLevel(Words.Fields(x.acrValues));
      SatisfiedIff(d, w.cfg, level.value, x.sessionID, history, w.env.now, w.env.now);
      LookingReflects(d, w.cfg, x.sessionID, history, w.env.now, w.env.now);
      StartingMintsNothing(Looked(d, w.cfg, x.sessionID, w.env.now),
                           EffectiveSpec(w.cfg.tenants, x.facts.tenantID, SpecForMethod(level.value.kind).value),
                           NewPending(x.facts, level.value.acr, level.value.rank, x.sessionID), w.env);
    } else if spec.Some? {
      StartingMintsNothing(d, EffectiveSpec(w.cfg.tenants, x.facts.tenantID, spec.value), NewPending(x.facts, "", 0, ""), w.env);
    }
  }

  lemma {:induction false} StageMints(stage: E.Stage, d: Desk, x: E.Execution, w: E.World, history: map<string, AL.Steps>)
    requires Faithful(d, x, w, history)
    ensures var o := E.Execute(stage, d, x, w);
            && Faithful(o.desk, o.exec, w, history) && Accounted(d, o.desk, x, w, history)
            && o.exec.facts == x.facts && o.exec.acrValues == x.acrValues && o.exec.sessionID == x.sessionID
            && (o.result.Continue? ==> o.desk.codes == d.codes)
  {
    match stage
    case AuthValidate => ValidateMints(d, x, w, history);
    case Issue => MintIssues(d, x.facts, x.achievedACR, x.achievedAMR, w.env);
    case Gated(inner, _) => StageMints(inner, d, x, w, history);
    case _ =>
  }

  lemma {:induction false} FlowMints(stages: seq<E.Stage>, d: Desk, x: E.Execution, w: E.World, history: map<string, AL.Steps>)
    requires Faithful(d, x, w, history)
    ensures var o := E.RunFlow(stages, d, x, w); Accounted(d, o.desk, x, w, history)
    decreases |stages| - x.cursor
  {
    if x.cursor < |stages| {
      var o := E.Execute(stages[x.cursor], d, x, w);
      StageMints(stages[x.cursor], d, x, w, history);
      E.CursorKept(stages[x.cursor], d, x, w);
      if o.result.Continue? {
        FlowMints(stages, o.desk, o.exec.(cursor := x.cursor + 1), w, history);
      }
    }
  }

  /** No stored flow, whatever its stages and policies, can mint a ranked level that the session has not reached: in every
      reachable state, a code that a request on any flow adds claims no rank, or one that the session's verified
      challenges reached. */
  lemma AnyFlowMintsWhatIsReached(run: Run, cfg: Config, stages: seq<E.Stage>, acrValues: string, sessionID: string, f: Facts,
                                  request: E.RequestFacts, w: E.World, code: string)
    requires Genuine(run, cfg) && NotBefore(run, w.env.now) && w.cfg.ledgerTTL == cfg.ledgerTTL && w.cfg.freshness == cfg.freshness
    requires code in E.EngineAuthorize(stages, DeskAfter(run, cfg), acrValues, sessionID, f, request, w).desk.codes
    ensures var d, ac := DeskAfter(run, cfg), E.EngineAuthorize(stages, DeskAfter(run, cfg), acrValues, sessionID, f, request, w).desk.codes[code];
            || (code in d.codes && ac == d.codes[code])
            || (CodeFor(ac, f, w.env.code, w.env.now) && (RankOf(ac.acr) == 0 || Reached(run, cfg, sessionID, RankOf(ac.acr), w.env.now)))
  {
    var d, history := DeskAfter(run, cfg), HistoryAfter(run, cfg);
    LedgerIsVerifiedHistory(run, cfg, w.env.now);
    LookingReflects(d, w.cfg, sessionID, history, w.env.now, w.env.now);
    var looked, x := Looked(d, w.cfg, sessionID, w.env.now), E.Begin(d, w.cfg, acrValues, sessionID, f, request, w.env.now);
    FlowMints(stages, looked, x, w, history);
    PlainMethodsHaveNoRank();
    var acr := E.RunFlow(stages, looked, x, w).desk.codes[code].acr;
    if !(code in d.codes && d.codes[code] == E.RunFlow(stages, looked, x, w).desk.codes[code]) && acr != "" {
      MatchedLevel(Words.Fields(acrValues));
      AchievedIsReached(run, cfg, sessionID, RankOf(acr), w.env.now);
    }
  }
}
