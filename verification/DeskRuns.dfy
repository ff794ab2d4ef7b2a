/** Safety of step-ups and advice over whole runs of /v1/advice, /authorize and /authorize/verify, on the legacy branch
    and on the default flow. */
module DeskRuns {
  import opened Common
  import opened Protection
  import opened Desk
  import E = Engine
  import AL = AssuranceLedger
  import Words
  import Flows

  /** One atomic request. Advice is asked with the tenant of the authenticated client. */
  datatype Event =
    | Advise(row: AdviceCall, at: int)
    | Authorize(acrValues: string, sessionID: string, f: Facts, env: Env)
    | AuthorizeByEngine(acrValues: string, sessionID: string, f: Facts, request: E.RequestFacts, env: Env, risk: Option<E.Risk>, evaluate: E.Evaluator)
    | Verify(flowID: string, submitted: bool, outcome: VerifyOutcome, env: Env)
    | BeginRegistration(flowID: string, env: Env)
    | FinishRegistration(flowID: string, registration: RegisterOutcome, env: Env)
    | ListAttempts(tenantID: string, at: int)

  function Now(e: Event): int {
    match e
    case Advise(_, at) => at
    case Authorize(_, _, _, env) => env.now
    case AuthorizeByEngine(_, _, _, _, env, _, _) => env.now
    case Verify(_, _, _, env) => env.now
    case BeginRegistration(_, env) => env.now
    case FinishRegistration(_, _, env) => env.now
    case ListAttempts(_, at) => at
  }

  function After(d: Desk, e: Event, cfg: Config): Desk {
    match e
    case Advise(row, _) => d.(advice := d.advice + [row])
    case Authorize(acrValues, sessionID, f, env) =>
      if AdviceRefusal(d, acrValues, f).Some? then d else Legacy(d, cfg, acrValues, sessionID, f, env).0
    case AuthorizeByEngine(acrValues, sessionID, f, request, env, risk, evaluate) =>
      if AdviceRefusal(d, acrValues, f).Some? then d
      else E.EngineAuthorize(E.DEFAULT_FLOW, d, acrValues, sessionID, f, request, E.World(cfg, env, risk, evaluate)).desk
    case Verify(flowID, submitted, outcome, env) => AuthorizeVerify(d, cfg, flowID, submitted, outcome, env).0
    case BeginRegistration(flowID, env) => RegisterBegin(d, flowID, env)
    case FinishRegistration(flowID, outcome, env) => RegisterFinish(d, flowID, outcome, env).0
    case ListAttempts(tenantID, at) => ListByTenant(d, tenantID, at).0
  }

  const EMPTY := Desk(map[], map[], map[], map[], [], [])

  /** A run: its events, latest last, each under the tenant settings of its moment. */
  datatype Run = Start | Then(past: Run, e: Event, tenants: map<string, bool>)

  /** The deployment's settings with the tenant settings of the last event. */
  function Settings(run: Run, cfg: Config): Config
    requires run.Then?
  {
    cfg.(tenants := run.tenants)
  }

  function DeskAfter(run: Run, cfg: Config): Desk {
    if run.Start? then EMPTY else After(DeskAfter(run.past, cfg), run.e, Settings(run, cfg))
  }

  predicate NotBefore(run: Run, now: int) {
    run.Then? ==> Now(run.e) <= now
  }

  /** An advice row is new, pending, and rated by the ladder; a parked flow gets an id no stored flow or attempt uses. */
  predicate Enabled(d: Desk, e: Event) {
    match e
    case Advise(row, _) =>
      row.id != "" && FindAdvice(d.advice, row.tenantID, row.id).None? && row.completedAt.None? && row.rank == RankOf(row.acr) && 1 <= row.rank
    case Authorize(_, _, _, env) => env.flowID !in d.flows && env.flowID !in d.attempts
    case AuthorizeByEngine(_, _, _, _, env, _, _) => env.flowID !in d.flows && env.flowID !in d.attempts
    case _ => true
  }

  predicate Genuine(run: Run, cfg: Config) {
    run.Then? ==> Genuine(run.past, cfg) && NotBefore(run.past, Now(run.e)) && Enabled(DeskAfter(run.past, cfg), run.e)
  }

  // ---- The tracker mirrors the parked flows ----

  predicate FlowLive(d: Desk, id: string, now: int) {
    id in d.flows && now - d.flows[id].createdAt <= FLOW_TTL
  }

  predicate AttemptLive(d: Desk, id: string, now: int) {
    id in d.attempts && now - d.attempts[id].startedAt <= FLOW_TTL
  }

  /** From `now` on, the live attempts are exactly the live flows, with the same tenant, user, method and start. */
  predicate Agree(d: Desk, id: string, now: int) {
    && (FlowLive(d, id, now) || AttemptLive(d, id, now) ==>
          id in d.flows && id in d.attempts && d.attempts[id] == Mirror(id, d.flows[id]))
  }

  ghost predicate Mirrored(d: Desk, now: int) {
    forall id :: Agree(d, id, now)
  }

  /** Starting a step-up changes nothing, or parks the request's facts and targets under the new id. */
  lemma StartShape(d: Desk, spec: Spec, p: Pending, env: Env) returns (q: Pending)
    ensures q.facts == p.facts && q.targetACR == p.targetACR && q.targetRank == p.targetRank && q.createdAt == env.now
    ensures StartStepUp(d, spec, p, env).0 == d || StartStepUp(d, spec, p, env).0 == Started(d, env.flowID, q, env.now)
  {
    q := p.(kind := if spec.kind == FIDO2 then FIDO2 else SMS, createdAt := env.now);
    if env.challenge.Challenge? && (spec.kind != FIDO2 || (env.authenticators.Some? && HasPasskey(env.authenticators.value))) {
      q := q.(challengeID := env.challenge.id, prompt := env.challenge.prompt,
              options := if spec.kind == FIDO2 then env.challenge.options else p.options);
    }
  }

  lemma StartKeepsMirror(d: Desk, spec: Spec, p: Pending, env: Env)
    requires Mirrored(d, env.now)
    ensures Mirrored(StartStepUp(d, spec, p, env).0, env.now)
  {
    var q := StartShape(d, spec, p, env);
    var d' := Started(d, env.flowID, q, env.now);
    forall id ensures Agree(d', id, env.now) {
      assert Agree(d, id, env.now);
    }
  }

  lemma LedgerIsNotMirrored(d: Desk, m: AL.Entries, now: int)
    requires Mirrored(d, now)
    ensures Mirrored(d.(entries := m), now)
  {
    forall id ensures Agree(d.(entries := m), id, now) {
      assert Agree(d, id, now);
    }
  }

  lemma MintKeepsMirror(d: Desk, f: Facts, acr: string, amr: seq<string>, env: Env)
    requires Mirrored(d, env.now)
    ensures Mirrored(Mint(d, f, acr, amr, env).0, env.now)
  {
    forall id ensures Agree(Mint(d, f, acr, amr, env).0, id, env.now) {
      assert Agree(d, id, env.now);
    }
  }

  lemma LegacyKeepsMirror(d: Desk, cfg: Config, acrValues: string, sessionID: string, f: Facts, env: Env)
    requires Mirrored(d, env.now)
    ensures Mirrored(Legacy(d, cfg, acrValues, sessionID, f, env).0, env.now)
  {
    var level := MatchProtection(acrValues);
    var spec := MatchStepUp(acrValues);
    if level.Some? {
      var looked := Looked(d, cfg, sessionID, env.now);
      assert looked == d.(entries := looked.entries);
      LedgerIsNotMirrored(d, looked.entries, env.now);
      MintKeepsMirror(looked, f, level.value.acr, [], env);
      if SpecForMethod(level.value.kind).Some? {
        StartKeepsMirror(looked, EffectiveSpec(cfg.tenants, f.tenantID, SpecForMethod(level.value.kind).value),
                         NewPending(f, level.value.acr, level.value.rank, sessionID), env);
      }
    } else if spec.Some? {
      StartKeepsMirror(d, EffectiveSpec(cfg.tenants, f.tenantID, spec.value), NewPending(f, "", 0, ""), env);
    } else {
      MintKeepsMirror(d, f, "", [], env);
    }
  }

  /** The engine on the default flow leaves the legacy desk, up to ledger garbage. */
  lemma EngineIsLegacy(d: Desk, e: Event, cfg: Config)
    requires e.AuthorizeByEngine?
    ensures var legacy := After(d, Authorize(e.acrValues, e.sessionID, e.f, e.env), cfg);
            After(d, e, cfg) == legacy.(entries := After(d, e, cfg).entries)
  {
    E.DefaultFlowIsLegacy(d, e.acrValues, e.sessionID, e.f, e.request, E.World(cfg, e.env, e.risk, e.evaluate));
  }

  lemma VerifyKeepsMirror(d: Desk, cfg: Config, flowID: string, submitted: bool, outcome: VerifyOutcome, env: Env)
    requires Mirrored(d, env.now)
    ensures Mirrored(AuthorizeVerify(d, cfg, flowID, submitted, outcome, env).0, env.now)
  {
    var dropped, peeked := Dropped(d, flowID), Peeked(d, flowID, env.now);
    forall id ensures Agree(dropped, id, env.now) && Agree(peeked, id, env.now) {
      assert Agree(d, id, env.now);
    }
    if Peeks(d, flowID, env.now) && outcome.Verified? {
      var p := d.flows[flowID];
      if SpecForMethod(p.kind).Some? {
        var spec := SpecForMethod(p.kind).value;
        var recorded := Recorded(dropped, cfg, p.sessionID, p.targetRank, env.now);
        assert recorded == dropped.(entries := recorded.entries);
        LedgerIsNotMirrored(dropped, recorded.entries, env.now);
        MintKeepsMirror(recorded, p.facts, if p.targetACR != "" then p.targetACR else spec.acr,
                        if outcome.amr != [] then outcome.amr else spec.amr, env);
      }
    }
  }

  lemma StepKeepsMirror(d: Desk, e: Event, cfg: Config, clock: int)
    requires Mirrored(d, clock) && clock <= Now(e) && Enabled(d, e)
    ensures Mirrored(After(d, e, cfg), Now(e))
  {
    forall id ensures Agree(d, id, Now(e)) {
      assert Agree(d, id, clock);
    }
    match e
    case Authorize(acrValues, sessionID, f, env) => LegacyKeepsMirror(d, cfg, acrValues, sessionID, f, env);
    case AuthorizeByEngine(acrValues, sessionID, f, _, env, _, _) =>
      EngineIsLegacy(d, e, cfg);
      LegacyKeepsMirror(d, cfg, acrValues, sessionID, f, env);
      LedgerIsNotMirrored(After(d, Authorize(acrValues, sessionID, f, env), cfg), After(d, e, cfg).entries, env.now);
    case Verify(flowID, submitted, outcome, env) => VerifyKeepsMirror(d, cfg, flowID, submitted, outcome, env);
    case _ =>
      forall id ensures Agree(After(d, e, cfg), id, Now(e)) {
        assert Agree(d, id, Now(e));
      }
  }

  lemma {:induction false} MirrorHolds(run: Run, cfg: Config, clock: int)
    requires Genuine(run, cfg) && NotBefore(run, clock)
    ensures Mirrored(DeskAfter(run, cfg), clock)
  {
    if run.Then? {
      MirrorHolds(run.past, cfg, Now(run.e));
      StepKeepsMirror(DeskAfter(run.past, cfg), run.e, Settings(run, cfg), Now(run.e));
      forall id ensures Agree(DeskAfter(run, cfg), id, clock) {
        assert Agree(DeskAfter(run, cfg), id, Now(run.e));
      }
    }
  }

  /** Mirror agreement: at every time, the attempts the consoles list are exactly the unexpired parked flows, each
      with its tenant, user, method and start time. */
  lemma ListedAttemptsAreParkedFlows(run: Run, cfg: Config, tenantID: string, now: int)
    requires Genuine(run, cfg) && NotBefore(run, now)
    ensures var d := DeskAfter(run, cfg);
            ListByTenant(d, tenantID, now).1
            == set id | id in d.flows && FlowLive(d, id, now) && d.flows[id].facts.tenantID == tenantID :: Mirror(id, d.flows[id])
  {
    var d := DeskAfter(run, cfg);
    MirrorHolds(run, cfg, now);
    forall a ensures a in ListByTenant(d, tenantID, now).1 <==>
                     a in set id | id in d.flows && FlowLive(d, id, now) && d.flows[id].facts.tenantID == tenantID :: Mirror(id, d.flows[id])
    {
      var live := LiveAttempts(d.attempts, now);
      if a in ListByTenant(d, tenantID, now).1 {
        var id :| id in live && live[id].tenantID == tenantID && live[id] == a;
        assert Agree(d, id, now);
      }
      if id :| id in d.flows && FlowLive(d, id, now) && d.flows[id].facts.tenantID == tenantID && a == Mirror(id, d.flows[id]) {
        assert Agree(d, id, now) && id in live;
      }
    }
  }

  /** Only because the registration endpoint is one atomic step: were the flow dropped between its read and its
      write, the re-parked flow would be live without an attempt. */
  lemma SplitRegistrationWouldBreakMirror(d: Desk, id: string, now: int)
    requires Mirrored(d, now) && FlowLive(d, id, now)
    ensures !Agree(Parked(Dropped(d, id), id, d.flows[id], now), id, now)
  {
  }

  // ---- Advice binding ----

  /** A completed row was completed for its named user, at a level no weaker than advised. */
  predicate Honoured(row: AdviceCall) {
    row.completedAt.Some? ==>
      (row.userID == "" || row.completedUserID == row.userID) && RankOf(row.completedACR) >= row.rank
  }

  /** Completing the transaction of these facts at this level would honour its advice. */
  predicate Entitled(advice: seq<AdviceCall>, f: Facts, acr: string) {
    f.transactionID != "" ==>
      var row := FindAdvice(advice, f.tenantID, f.transactionID);
      row.Some? && (row.value.userID == "" || row.value.userID == f.userID) && RankOf(acr) >= row.value.rank
  }

  ghost predicate RowsHonoured(advice: seq<AdviceCall>) {
    forall t, id {:trigger FindAdvice(advice, t, id)} ::
      FindAdvice(advice, t, id).Some? ==> Honoured(FindAdvice(advice, t, id).value) && FindAdvice(advice, t, id).value.rank >= 1
  }

  predicate SameID(a: AdviceCall, b: AdviceCall) {
    a.tenantID == b.tenantID && a.id == b.id
  }

  predicate RowsUnique(advice: seq<AdviceCall>) {
    forall i, j :: 0 <= i < j < |advice| ==> !SameID(advice[i], advice[j])
  }

  predicate FlowsEntitled(d: Desk) {
    forall id :: id in d.flows ==> Entitled(d.advice, d.flows[id].facts, d.flows[id].targetACR)
  }

  predicate SameTransaction(a: Emission, b: Emission) {
    a.tenantID == b.tenantID && a.transactionID == b.transactionID
  }

  /** Each emission reports a completed row, and no transaction is reported twice. */
  predicate EmittedOnce(d: Desk) {
    && (forall i :: 0 <= i < |d.emitted| ==>
          var m := d.emitted[i];
          var row := FindAdvice(d.advice, m.tenantID, m.transactionID);
          row.Some? && row.value.completedAt.Some? && row.value.completedUserID == m.userID && row.value.completedACR == m.acr && m.rank == RankOf(m.acr))
    && (forall i, j :: 0 <= i < j < |d.emitted| ==> !SameTransaction(d.emitted[i], d.emitted[j]))
  }

  ghost predicate AdviceInv(d: Desk) {
    RowsHonoured(d.advice) && RowsUnique(d.advice) && FlowsEntitled(d) && EmittedOnce(d)
  }

  lemma {:induction false} FindIsRow(advice: seq<AdviceCall>, t: string, id: string)
    ensures FindAdvice(advice, t, id).Some? ==>
              FindAdvice(advice, t, id).value.tenantID == t && FindAdvice(advice, t, id).value.id == id && FindAdvice(advice, t, id).value in advice
  {
    if advice != [] {
      FindIsRow(advice[1..], t, id);
    }
  }

  lemma {:induction false} FindAfterAdvise(advice: seq<AdviceCall>, row: AdviceCall, t: string, id: string)
    ensures FindAdvice(advice + [row], t, id) ==
            if FindAdvice(advice, t, id).Some? then FindAdvice(advice, t, id)
            else if row.tenantID == t && row.id == id then Some(row) else None
  {
    if advice == [] {
      assert advice + [row] == [row];
    } else {
      assert (advice + [row])[1..] == advice[1..] + [row];
      FindAfterAdvise(advice[1..], row, t, id);
    }
  }

  function Stamp(row: AdviceCall, userID: string, acr: string, now: int): AdviceCall {
    if row.completedAt.Some? then row else row.(completedAt := Some(now), completedUserID := userID, completedACR := acr)
  }

  lemma {:induction false} FindAfterCompletion(advice: seq<AdviceCall>, t: string, id: string, userID: string, acr: string, now: int, u: string, jd: string)
    ensures var before, after := FindAdvice(advice, u, jd), FindAdvice(Completed(advice, t, id, userID, acr, now), u, jd);
            after == if u == t && jd == id && before.Some? then Some(Stamp(before.value, userID, acr, now)) else before
  {
    if advice != [] && !(advice[0].id == id && advice[0].tenantID == t) {
      FindAfterCompletion(advice[1..], t, id, userID, acr, now, u, jd);
    }
  }

  lemma {:induction false} CompletionKeepsRows(advice: seq<AdviceCall>, t: string, id: string, userID: string, acr: string, now: int)
    ensures var after := Completed(advice, t, id, userID, acr, now);
            |after| == |advice| && forall i :: 0 <= i < |advice| ==> SameID(after[i], advice[i])
  {
    if advice != [] && !(advice[0].id == id && advice[0].tenantID == t) {
      CompletionKeepsRows(advice[1..], t, id, userID, acr, now);
    }
  }

  /** With unique rows, looking a row up finds it. */
  lemma {:induction false} UniqueIsFound(advice: seq<AdviceCall>, i: nat)
    requires RowsUnique(advice) && i < |advice|
    ensures FindAdvice(advice, advice[i].tenantID, advice[i].id) == Some(advice[i])
  {
    if i > 0 {
      assert !SameID(advice[0], advice[i]);
      UniqueIsFound(advice[1..], i - 1);
    }
  }

  // ---- Each step keeps the binding ----

  lemma AdviseKeepsInv(d: Desk, row: AdviceCall)
    requires AdviceInv(d) && FindAdvice(d.advice, row.tenantID, row.id).None? && row.completedAt.None? && 1 <= row.rank
    ensures AdviceInv(d.(advice := d.advice + [row]))
  {
    forall t, id ensures FindAdvice(d.advice + [row], t, id) ==
            (if FindAdvice(d.advice, t, id).Some? then FindAdvice(d.advice, t, id)
             else if row.tenantID == t && row.id == id then Some(row) else None) {
      FindAfterAdvise(d.advice, row, t, id);
    }
    forall i | 0 <= i < |d.advice| ensures !SameID(d.advice[i], row) {
      UniqueIsFound(d.advice, i);
    }
  }

  /** Completing an entitled transaction keeps every promise; completing it again, or an unknown one, does nothing. */
  lemma CompleteKeepsInv(d: Desk, f: Facts, acr: string, now: int)
    requires AdviceInv(d) && Entitled(d.advice, f, acr) && f.transactionID != ""
    ensures AdviceInv(AdviceCompleted(d, f, acr, now))
  {
    if CompletionOf(d.advice, f.tenantID, f.transactionID) == Done {
      var d' := AdviceCompleted(d, f, acr, now);
      var row := FindAdvice(d.advice, f.tenantID, f.transactionID).value;
      forall t, id ensures FindAdvice(d'.advice, t, id) ==
              var before := FindAdvice(d.advice, t, id);
              if t == f.tenantID && id == f.transactionID && before.Some? then Some(Stamp(before.value, f.userID, acr, now)) else before {
        FindAfterCompletion(d.advice, f.tenantID, f.transactionID, f.userID, acr, now, t, id);
      }
      CompletionKeepsRows(d.advice, f.tenantID, f.transactionID, f.userID, acr, now);
      assert RowsHonoured(d'.advice);
      assert RowsUnique(d'.advice) by {
        forall i, j | 0 <= i < j < |d'.advice| ensures !SameID(d'.advice[i], d'.advice[j]) {
          assert SameID(d'.advice[i], d.advice[i]) && SameID(d'.advice[j], d.advice[j]) && !SameID(d.advice[i], d.advice[j]);
        }
      }
      CompletionEmitsOnce(d, f, acr, now);
    }
  }

  lemma CompletionEmitsOnce(d: Desk, f: Facts, acr: string, now: int)
    requires EmittedOnce(d) && CompletionOf(d.advice, f.tenantID, f.transactionID) == Done
    ensures EmittedOnce(AdviceCompleted(d, f, acr, now))
  {
    var d' := AdviceCompleted(d, f, acr, now);
    forall i | 0 <= i < |d'.emitted|
      ensures var m := d'.emitted[i];
              var row := FindAdvice(d'.advice, m.tenantID, m.transactionID);
              row.Some? && row.value.completedAt.Some? && row.value.completedUserID == m.userID && row.value.completedACR == m.acr && m.rank == RankOf(m.acr)
      ensures i < |d.emitted| ==> !SameTransaction(d'.emitted[i], d'.emitted[|d.emitted|])
    {
      var m := d'.emitted[i];
      FindAfterCompletion(d.advice, f.tenantID, f.transactionID, f.userID, acr, now, m.tenantID, m.transactionID);
    }
  }

  lemma MintKeepsInv(d: Desk, f: Facts, acr: string, amr: seq<string>, env: Env)
    requires AdviceInv(d) && Entitled(d.advice, f, acr)
    ensures AdviceInv(Mint(d, f, acr, amr, env).0)
  {
    if env.redirectParses && f.transactionID != "" {
      var d1 := d.(codes := Mint(d, f, acr, amr, env).0.codes);
      assert AdviceInv(d1);
      CompleteKeepsInv(d1, f, acr, env.now);
    }
  }

  lemma StartKeepsInv(d: Desk, spec: Spec, p: Pending, env: Env)
    requires AdviceInv(d) && Entitled(d.advice, p.facts, p.targetACR)
    ensures AdviceInv(StartStepUp(d, spec, p, env).0)
  {
    var q := StartShape(d, spec, p, env);
  }

  /** A request that passes the binding check is entitled at the level it asks for. */
  lemma CheckedIsEntitled(d: Desk, acrValues: string, f: Facts)
    requires RowsHonoured(d.advice) && AdviceRefusal(d, acrValues, f).None?
    ensures var level := MatchProtection(acrValues); Entitled(d.advice, f, if level.Some? then level.value.acr else "")
  {
    MatchedLevel(Words.Fields(acrValues));
    PlainMethodsHaveNoRank();
  }

  lemma LegacyKeepsInv(d: Desk, cfg: Config, acrValues: string, sessionID: string, f: Facts, env: Env)
    requires AdviceInv(d) && AdviceRefusal(d, acrValues, f).None?
    ensures AdviceInv(Legacy(d, cfg, acrValues, sessionID, f, env).0)
  {
    CheckedIsEntitled(d, acrValues, f);
    var level := MatchProtection(acrValues);
    var spec := MatchStepUp(acrValues);
    if level.Some? {
      var looked := Looked(d, cfg, sessionID, env.now);
      assert AdviceInv(looked);
      MintKeepsInv(looked, f, level.value.acr, [], env);
      if SpecForMethod(level.value.kind).Some? {
        StartKeepsInv(looked, EffectiveSpec(cfg.tenants, f.tenantID, SpecForMethod(level.value.kind).value),
                      NewPending(f, level.value.acr, level.value.rank, sessionID), env);
      }
    } else if spec.Some? {
      StartKeepsInv(d, EffectiveSpec(cfg.tenants, f.tenantID, spec.value), NewPending(f, "", 0, ""), env);
    } else {
      MintKeepsInv(d, f, "", [], env);
    }
  }

  /** The level a parked flow is finished at is its target, or the plain method's own acr, which has no rank. */
  lemma FinishKeepsInv(d: Desk, cfg: Config, p: Pending, spec: Spec, amr: seq<string>, env: Env)
    requires AdviceInv(d) && Entitled(d.advice, p.facts, p.targetACR)
    ensures AdviceInv(FinishFlow(d, cfg, p, spec, amr, env).0)
  {
    PlainMethodsHaveNoRank();
    MintKeepsInv(Recorded(d, cfg, p.sessionID, p.targetRank, env.now), p.facts,
                 if p.targetACR != "" then p.targetACR else spec.acr, if amr != [] then amr else spec.amr, env);
  }

  lemma VerifyKeepsInv(d: Desk, cfg: Config, flowID: string, submitted: bool, outcome: VerifyOutcome, env: Env)
    requires AdviceInv(d)
    ensures AdviceInv(AuthorizeVerify(d, cfg, flowID, submitted, outcome, env).0)
  {
    assert AdviceInv(Dropped(d, flowID)) && AdviceInv(Peeked(d, flowID, env.now));
    if Peeks(d, flowID, env.now) && outcome.Verified? && SpecForMethod(d.flows[flowID].kind).Some? {
      var p := d.flows[flowID];
      FinishKeepsInv(Dropped(d, flowID), cfg, p, SpecForMethod(p.kind).value, outcome.amr, env);
    }
  }

  lemma RegisterKeepsInv(d: Desk, flowID: string, registration: RegisterOutcome, env: Env)
    requires AdviceInv(d)
    ensures AdviceInv(RegisterFinish(d, flowID, registration, env).0)
  {
  }

  lemma AuthorizeKeepsInv(d: Desk, e: Event, cfg: Config)
    requires AdviceInv(d) && (e.Authorize? || e.AuthorizeByEngine?)
    ensures AdviceInv(After(d, e, cfg))
  {
    if AdviceRefusal(d, e.acrValues, e.f).None? {
      LegacyKeepsInv(d, cfg, e.acrValues, e.sessionID, e.f, e.env);
      if e.AuthorizeByEngine? {
        EngineIsLegacy(d, e, cfg);
      }
    }
  }

  lemma StepKeepsInv(d: Desk, e: Event, cfg: Config)
    requires AdviceInv(d) && Enabled(d, e)
    ensures AdviceInv(After(d, e, cfg))
  {
    match e
    case Advise(row, _) => AdviseKeepsInv(d, row);
    case Authorize(_, _, _, _) => AuthorizeKeepsInv(d, e, cfg);
    case AuthorizeByEngine(_, _, _, _, _, _, _) => AuthorizeKeepsInv(d, e, cfg);
    case Verify(flowID, submitted, outcome, env) => VerifyKeepsInv(d, cfg, flowID, submitted, outcome, env);
    case FinishRegistration(flowID, registration, env) => RegisterKeepsInv(d, flowID, registration, env);
    case _ =>
  }

  lemma {:induction false} AdviceInvHolds(run: Run, cfg: Config)
    requires Genuine(run, cfg)
    ensures AdviceInv(DeskAfter(run, cfg))
  {
    if run.Then? {
      AdviceInvHolds(run.past, cfg);
      StepKeepsInv(DeskAfter(run.past, cfg), run.e, Settings(run, cfg));
    }
  }

  /** Advice binding: in every reachable state each completed row was completed for its own tenant, for its named user
      if it names one, at an acr whose rank is at least the advised rank, whether directly, through a parked flow or
      through one downgraded from FIDO to SMS. Each transaction is emitted at most once, with what its row records. */
  lemma AdviceBinding(run: Run, cfg: Config, i: nat)
    requires Genuine(run, cfg) && i < |DeskAfter(run, cfg).advice|
    ensures Honoured(DeskAfter(run, cfg).advice[i]) && EmittedOnce(DeskAfter(run, cfg))
  {
    AdviceInvHolds(run, cfg);
    UniqueIsFound(DeskAfter(run, cfg).advice, i);
  }

  ghost predicate Extends(later: Run, run: Run) {
    later == run || (later.Then? && Extends(later.past, run))
  }

  /** The row a completed transaction left is never written again. */
  ghost predicate KeepsCompleted(before: Desk, after: Desk, t: string, id: string) {
    var row := FindAdvice(before.advice, t, id);
    row.Some? && row.value.completedAt.Some? ==> FindAdvice(after.advice, t, id) == row
  }

  lemma MintKeepsCompleted(d: Desk, f: Facts, acr: string, amr: seq<string>, env: Env, t: string, id: string)
    ensures KeepsCompleted(d, Mint(d, f, acr, amr, env).0, t, id)
  {
    FindAfterCompletion(d.advice, f.tenantID, f.transactionID, f.userID, acr, env.now, t, id);
  }

  lemma LegacyKeepsCompleted(d: Desk, cfg: Config, acrValues: string, sessionID: string, f: Facts, env: Env, t: string, id: string)
    ensures KeepsCompleted(d, Legacy(d, cfg, acrValues, sessionID, f, env).0, t, id)
  {
    var level := MatchProtection(acrValues);
    var spec := MatchStepUp(acrValues);
    if level.Some? {
      var looked := Looked(d, cfg, sessionID, env.now);
      if Satisfied(d, cfg, level.value, sessionID, env.now) {
        MintKeepsCompleted(looked, f, level.value.acr, [], env, t, id);
      } else if SpecForMethod(level.value.kind).Some? {
        StartKeepsAdvice(looked, EffectiveSpec(cfg.tenants, f.tenantID, SpecForMethod(level.value.kind).value),
                         NewPending(f, level.value.acr, level.value.rank, sessionID), env);
      }
    } else if spec.Some? {
      StartKeepsAdvice(d, EffectiveSpec(cfg.tenants, f.tenantID, spec.value), NewPending(f, "", 0, ""), env);
    } else {
      MintKeepsCompleted(d, f, "", [], env, t, id);
    }
  }

  lemma StartKeepsAdvice(d: Desk, spec: Spec, p: Pending, env: Env)
    ensures StartStepUp(d, spec, p, env).0.advice == d.advice
  {
  }

  lemma VerifyKeepsCompleted(d: Desk, cfg: Config, flowID: string, submitted: bool, outcome: VerifyOutcome, env: Env, t: string, id: string)
    ensures KeepsCompleted(d, AuthorizeVerify(d, cfg, flowID, submitted, outcome, env).0, t, id)
  {
    if Peeks(d, flowID, env.now) && outcome.Verified? && SpecForMethod(d.flows[flowID].kind).Some? {
      var p := d.flows[flowID];
      var spec := SpecForMethod(p.kind).value;
      MintKeepsCompleted(Recorded(Dropped(d, flowID), cfg, p.sessionID, p.targetRank, env.now), p.facts,
                         if p.targetACR != "" then p.targetACR else spec.acr, if outcome.amr != [] then outcome.amr else spec.amr, env, t, id);
    }
  }

  lemma StepKeepsCompleted(d: Desk, e: Event, cfg: Config, t: string, id: string)
    ensures KeepsCompleted(d, After(d, e, cfg), t, id)
  {
    match e
    case Advise(row, _) => FindAfterAdvise(d.advice, row, t, id);
    case Authorize(acrValues, sessionID, f, env) => LegacyKeepsCompleted(d, cfg, acrValues, sessionID, f, env, t, id);
    case AuthorizeByEngine(acrValues, sessionID, f, _, env, _, _) =>
      EngineIsLegacy(d, e, cfg);
      LegacyKeepsCompleted(d, cfg, acrValues, sessionID, f, env, t, id);
    case Verify(flowID, submitted, outcome, env) =>
      VerifyKeepsCompleted(d, cfg, flowID, submitted, outcome, env, t, id);
    case _ =>
  }

  /** A transaction transitions at most once: from its completion on, its row is the same in every continuation. */
  lemma {:induction false} CompletedForever(run: Run, later: Run, cfg: Config, t: string, id: string)
    requires Extends(later, run)
    ensures KeepsCompleted(DeskAfter(run, cfg), DeskAfter(later, cfg), t, id)
  {
    if later != run {
      CompletedForever(run, later.past, cfg, t, id);
      StepKeepsCompleted(DeskAfter(later.past, cfg), later.e, Settings(later, cfg), t, id);
    }
  }

  /** The binding is promised for the legacy branch and the default flow only: the risk-adaptive flow's low-risk skip
      issues a code without any level, so it completes the transaction below the advised rank. */
  lemma LowRiskSkipIgnoresAdvice(d: Desk, x: E.Execution, w: E.World)
    requires x.cursor == 0 && x.achievedACR == "" && w.env.redirectParses && x.facts.transactionID != ""
    requires CompletionOf(d.advice, x.facts.tenantID, x.facts.transactionID) == Done
    requires FindAdvice(d.advice, x.facts.tenantID, x.facts.transactionID).value.rank >= 1
    requires !Flows.Denies(x, w) && Flows.Skips(x, w)
    ensures var after := E.RunFlow(Flows.RISK_ADAPTIVE_FLOW, d, x, w).desk;
            var row := FindAdvice(after.advice, x.facts.tenantID, x.facts.transactionID);
            row.Some? && !Honoured(row.value)
  {
    Flows.RiskAdaptiveMeaning(d, x, w);
    PlainMethodsHaveNoRank();
    FindAfterCompletion(d.advice, x.facts.tenantID, x.facts.transactionID, x.facts.userID, "", w.env.now, x.facts.tenantID, x.facts.transactionID);
  }

  /** Without the low-risk skip the risk-adaptive flow keeps every promise of advice, */
  lemma NoSkipKeepsInv(d: Desk, acrValues: string, sessionID: string, f: Facts, request: E.RequestFacts, w: E.World)
    requires AdviceInv(d) && AdviceRefusal(d, acrValues, f).None?
    requires var x := E.Begin(d, w.cfg, acrValues, sessionID, f, request, w.env.now); Flows.Denies(x, w) || !Flows.Skips(x, w)
    ensures AdviceInv(E.EngineAuthorize(Flows.RISK_ADAPTIVE_FLOW, d, acrValues, sessionID, f, request, w).desk)
  {
    var x := E.Begin(d, w.cfg, acrValues, sessionID, f, request, w.env.now);
    Flows.RiskAdaptiveMeaning(Looked(d, w.cfg, sessionID, w.env.now), x, w);
    AuthorizeKeepsInv(d, AuthorizeByEngine(acrValues, sessionID, f, request, w.env, w.risk, w.evaluate), w.cfg);
  }

  /** so exactly the requests that issue a code under the skip while carrying a transaction break one. */
  lemma RiskAdaptiveHonoursIff(d: Desk, acrValues: string, sessionID: string, f: Facts, request: E.RequestFacts, w: E.World)
    requires AdviceInv(d) && AdviceRefusal(d, acrValues, f).None?
    ensures var x := E.Begin(d, w.cfg, acrValues, sessionID, f, request, w.env.now);
            RowsHonoured(E.EngineAuthorize(Flows.RISK_ADAPTIVE_FLOW, d, acrValues, sessionID, f, request, w).desk.advice) <==>
            Flows.Denies(x, w) || !Flows.Skips(x, w) || !w.env.redirectParses || f.transactionID == ""
  {
    var x := E.Begin(d, w.cfg, acrValues, sessionID, f, request, w.env.now);
    if Flows.Denies(x, w) || !Flows.Skips(x, w) {
      NoSkipKeepsInv(d, acrValues, sessionID, f, request, w);
    } else if !w.env.redirectParses || f.transactionID == "" {
      Flows.RiskAdaptiveMeaning(Looked(d, w.cfg, sessionID, w.env.now), x, w);
    } else {
      LowRiskSkipIgnoresAdvice(Looked(d, w.cfg, sessionID, w.env.now), x, w);
    }
  }
}
