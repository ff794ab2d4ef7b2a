/** The /authorize handlers, the parked-flow map, the step-up tracker, the advice log and the flow executor as written
    (services/authentication-service/internal/otp.go, stepup_tracker.go, webauthn_stepup.go, protection.go,
    flowexec.go, flowstages.go, oidc.go, storage.go), each tied to its function on values. */
module AuthorizeServer {
  import opened Common
  import opened Protection
  import opened Desk
  import opened TokenVault
  import D = Desk
  import E = Engine
  import AL = AssuranceLedger
  import Words

  predicate NewestFirst(l: seq<Attempt>) {
    forall i, j :: 0 <= i < j < |l| ==> l[i].startedAt >= l[j].startedAt
  }

  function Inserted(a: Attempt, l: seq<Attempt>): seq<Attempt> {
    if l == [] || a.startedAt >= l[0].startedAt then [a] + l else [l[0]] + Inserted(a, l[1..])
  }

  lemma {:induction false} InsertedKeepsOrder(a: Attempt, l: seq<Attempt>)
    requires NewestFirst(l)
    ensures NewestFirst(Inserted(a, l)) && |Inserted(a, l)| == |l| + 1
    ensures forall b :: b in Inserted(a, l) <==> b == a || b in l
  {
    if l != [] && a.startedAt < l[0].startedAt {
      InsertedKeepsOrder(a, l[1..]);
      var rest := Inserted(a, l[1..]);
      forall i | 0 <= i < |rest| ensures l[0].startedAt >= rest[i].startedAt {
        assert rest[i] in rest;
      }
    }
  }

  function OfTenant(m: map<string, Attempt>, tenantID: string): set<string> {
    set id | id in m && m[id].tenantID == tenantID
  }

  /** The attempts with those ids, each once, newest first. */
  ghost predicate Lists(out: seq<Attempt>, m: map<string, Attempt>, ids: set<string>)
    requires ids <= m.Keys
  {
    NewestFirst(out) && |out| == |ids| && forall a :: a in out <==> exists id :: id in ids && m[id] == a
  }

  lemma ListsOneMore(out: seq<Attempt>, m: map<string, Attempt>, ids: set<string>, id: string)
    requires ids <= m.Keys && id in m && id !in ids && Lists(out, m, ids)
    ensures Lists(Inserted(m[id], out), m, ids + {id})
  {
    InsertedKeepsOrder(m[id], out);
    forall a ensures a in Inserted(m[id], out) <==> exists j :: j in ids + {id} && m[j] == a {
      if a in out {
        var j :| j in ids && m[j] == a;
        assert j in ids + {id};
      } else if a == m[id] {
        assert id in ids + {id};
      }
    }
  }

  method Gather(m: map<string, Attempt>, tenantID: string) returns (out: seq<Attempt>)
    ensures Lists(out, m, OfTenant(m, tenantID))
  {
    out := [];
    var todo := m.Keys;
    while todo != {}
      invariant todo <= m.Keys && Lists(out, m, OfTenant(m, tenantID) - todo)
    {
      var id :| id in todo;
      ghost var done := OfTenant(m, tenantID) - todo;
      todo := todo - {id};
      if m[id].tenantID == tenantID {
        ListsOneMore(out, m, done, id);
        out := Inserted(m[id], out);
        assert OfTenant(m, tenantID) - todo == done + {id};
      } else {
        assert OfTenant(m, tenantID) - todo == done;
      }
    }
    assert OfTenant(m, tenantID) - todo == OfTenant(m, tenantID);
  }

  class StepUpTracker {
    var m: map<string, Attempt>

    constructor ()
      ensures m == map[]
    {
      m := map[];
    }

    method Start(a: Attempt, now: int)
      modifies this
      ensures m == LiveAttempts(old(m), now)[a.flowID := a]
    {
      GcLocked(now);
      m := m[a.flowID := a];
    }

    method Done(flowID: string)
      modifies this
      ensures m == old(m) - {flowID}
    {
      m := m - {flowID};
    }

    /** The live attempts of the tenant, each once, newest first. */
    method ListByTenant(tenantID: string, now: int) returns (out: seq<Attempt>)
      modifies this
      ensures m == LiveAttempts(old(m), now)
      ensures Lists(out, m, OfTenant(m, tenantID))
    {
      GcLocked(now);
      out := Gather(m, tenantID);
    }

    method GcLocked(now: int)
      modifies this
      ensures m == LiveAttempts(old(m), now)
    {
      var cutoff := now - FLOW_TTL;
      var todo := m.Keys;
      while todo != {}
        invariant todo <= m.Keys <= old(m).Keys
        invariant m == map id | id in old(m) && (id in todo || now - old(m)[id].startedAt <= FLOW_TTL) :: old(m)[id]
        decreases |todo|
      {
        var id :| id in todo;
        if m[id].startedAt < cutoff {
          m := m - {id};
        }
        todo := todo - {id};
      }
    }
  }

  class AdviceLog {
    var rows: seq<AdviceCall>

    constructor ()
      ensures rows == []
    {
      rows := [];
    }

    method RecordAdviceCall(c: AdviceCall)
      modifies this
      ensures rows == old(rows) + [c]
    {
      rows := rows + [c];
    }

    method GetAdviceCall(tenantID: string, id: string) returns (row: Option<AdviceCall>)
      ensures row == FindAdvice(rows, tenantID, id)
    {
      for i := 0 to |rows|
        invariant forall n :: 0 <= n < i ==> !IsRow(rows[n], tenantID, id)
      {
        if rows[i].id == id && rows[i].tenantID == tenantID {
          FirstRow(rows, i, tenantID, id);
          return Some(rows[i]);
        }
      }
      NoRow(rows, tenantID, id);
      return None;
    }

    /** Stamps the row only if it is still pending. */
    method MarkAdviceCallCompleted(tenantID: string, id: string, userID: string, acr: string, now: int) returns (done: Completion)
      modifies this
      ensures done == CompletionOf(old(rows), tenantID, id)
      ensures rows == Completed(old(rows), tenantID, id, userID, acr, now)
    {
      for i := 0 to |rows|
        invariant rows == old(rows)
        invariant forall n :: 0 <= n < i ==> !IsRow(rows[n], tenantID, id)
      {
        if rows[i].id == id && rows[i].tenantID == tenantID {
          FirstRow(rows, i, tenantID, id);
          FirstRowCompleted(rows, i, tenantID, id, userID, acr, now);
          if rows[i].completedAt.Some? {
            assert rows[i := rows[i]] == rows;
            return AlreadyCompleted;
          }
          rows := rows[i := rows[i].(completedAt := Some(now), completedUserID := userID, completedACR := acr)];
          return Done;
        }
      }
      NoRow(rows, tenantID, id);
      NotDoneUnchanged(rows, tenantID, id, userID, acr, now);
      return Unknown;
    }
  }

  predicate IsRow(row: AdviceCall, tenantID: string, id: string) {
    row.id == id && row.tenantID == tenantID
  }

  lemma {:induction false} NoRow(rows: seq<AdviceCall>, tenantID: string, id: string)
    requires forall n :: 0 <= n < |rows| ==> !IsRow(rows[n], tenantID, id)
    ensures FindAdvice(rows, tenantID, id) == None
  {
    if rows != [] {
      NoRow(rows[1..], tenantID, id);
    }
  }

  lemma {:induction false} FirstRow(rows: seq<AdviceCall>, i: nat, tenantID: string, id: string)
    requires i < |rows| && IsRow(rows[i], tenantID, id)
    requires forall n :: 0 <= n < i ==> !IsRow(rows[n], tenantID, id)
    ensures FindAdvice(rows, tenantID, id) == Some(rows[i])
  {
    if i > 0 {
      FirstRow(rows[1..], i - 1, tenantID, id);
    }
  }

  /** Completion writes the first matching row, and only that one. */
  lemma {:induction false} FirstRowCompleted(rows: seq<AdviceCall>, i: nat, tenantID: string, id: string, userID: string, acr: string, now: int)
    requires i < |rows| && IsRow(rows[i], tenantID, id)
    requires forall n :: 0 <= n < i ==> !IsRow(rows[n], tenantID, id)
    ensures Completed(rows, tenantID, id, userID, acr, now) ==
            rows[i := if rows[i].completedAt.Some? then rows[i]
                      else rows[i].(completedAt := Some(now), completedUserID := userID, completedACR := acr)]
  {
    if i > 0 {
      FirstRowCompleted(rows[1..], i - 1, tenantID, id, userID, acr, now);
    }
  }

  /** The running execution; stages write what they achieve into it, only the executor moves the cursor. */
  class FlowExecution {
    var cursor: nat
    var achievedACR: string
    var achievedAMR: seq<string>
    var risk: Option<E.Risk>
    const facts: Facts
    const sessionID: string
    const acrValues: string
    const request: E.RequestFacts
    const requestedRank: nat
    const achievedRank: int

    function View(): E.Execution
      reads this
    {
      E.Execution(cursor, facts, sessionID, acrValues, achievedACR, achievedAMR, request, requestedRank, achievedRank, risk)
    }

    constructor (x: E.Execution)
      ensures View() == x
    {
      cursor, achievedACR, achievedAMR, risk := x.cursor, x.achievedACR, x.achievedAMR, x.risk;
      facts, sessionID, acrValues := x.facts, x.sessionID, x.acrValues;
      request, requestedRank, achievedRank := x.request, x.requestedRank, x.achievedRank;
    }
  }

  class AuthorizeHandlers {
    const cfg: Config
    const stepUps: StepUpTracker
    const protection: AL.ProtectionLedger
    const log: AdviceLog
    var flows: map<string, Pending>
    var codes: map<string, AuthCode>
    var emitted: seq<Emission>

    function View(): Desk
      reads this, stepUps, protection, log
    {
      Desk(protection.m, flows, stepUps.m, codes, log.rows, emitted)
    }

    ghost predicate Ready(now: int)
      reads protection
    {
      protection.Valid() && protection.ttl == cfg.ledgerTTL && protection.clock <= now
    }

    constructor (cfg: Config)
      ensures View() == Desk(map[], map[], map[], map[], [], []) && this.cfg == cfg
      ensures forall now :: 0 <= now ==> Ready(now)
      ensures fresh(stepUps) && fresh(protection) && fresh(log)
    {
      this.cfg := cfg;
      stepUps := new StepUpTracker();
      protection := new AL.ProtectionLedger(cfg.ledgerTTL);
      log := new AdviceLog();
      flows, codes, emitted := map[], map[], [];
    }

    // ---- The parked-flow map ----

    method StoreFlow(id: string, p: Pending, now: int)
      modifies this`flows
      ensures View() == Parked(old(View()), id, p, now)
    {
      SweepFlows(now);
      flows := flows[id := p];
    }

    method SweepFlows(now: int)
      modifies this`flows
      ensures flows == LiveFlows(old(flows), now)
    {
      var cutoff := now - FLOW_TTL;
      var todo := flows.Keys;
      while todo != {}
        invariant todo <= flows.Keys <= old(flows).Keys
        invariant flows == map k | k in old(flows) && (k in todo || now - old(flows)[k].createdAt <= FLOW_TTL) :: old(flows)[k]
        decreases |todo|
      {
        var k :| k in todo;
        if flows[k].createdAt < cutoff {
          flows := flows - {k};
        }
        todo := todo - {k};
      }
    }

    method PeekFlow(id: string, now: int) returns (p: Option<Pending>)
      modifies this`flows
      ensures View() == Peeked(old(View()), id, now)
      ensures p == if Peeks(old(View()), id, now) then Some(old(flows)[id]) else None
    {
      if id !in flows || now - flows[id].createdAt > FLOW_TTL {
        flows := flows - {id};
        return None;
      }
      return Some(flows[id]);
    }

    /** Also clears the tracker's mirror. */
    method DropFlow(id: string)
      modifies this`flows, stepUps
      ensures View() == Dropped(old(View()), id)
    {
      flows := flows - {id};
      stepUps.Done(id);
    }

    method ParkAndTrack(id: string, p: Pending, now: int)
      modifies this`flows, stepUps
      ensures View() == Started(old(View()), id, p, now)
    {
      StoreFlow(id, p, now);
      stepUps.Start(Attempt(id, p.facts.tenantID, p.facts.userID, p.kind, p.createdAt), now);
    }

    // ---- Starting a step-up ----

    method StartStepUpFlow(spec: Spec, p: Pending, env: Env) returns (r: Response)
      modifies this`flows, stepUps
      ensures (View(), r) == StartStepUp(old(View()), spec, p, env)
    {
      if spec.kind == FIDO2 {
        r := StartWebAuthnStepUp(p, env);
        return;
      }
      if env.authenticators.None? {
        return ErrorReply(502, "authenticator_unavailable");
      }
      if env.phone.None? {
        return ErrorReply(409, "no_phone_on_file");
      }
      var auths := env.authenticators.value;
      var enrolled := false;
      for i := 0 to |auths|
        invariant enrolled == exists n :: 0 <= n < i && Usable(auths[n], SMS) && auths[n].phone == env.phone.value
        invariant View() == old(View())
      {
        if auths[i].kind == SMS && !auths[i].disabled && auths[i].phone == env.phone.value {
          enrolled := true;
        }
      }
      if !enrolled && !env.enrolls {
        return ErrorReply(502, "authenticator_unavailable");
      }
      if env.challenge.InvalidNumber? {
        return ErrorReply(422, "invalid_phone_number");
      }
      if env.challenge.Unavailable? {
        return ErrorReply(502, "authenticator_unavailable");
      }
      ParkAndTrack(env.flowID, p.(kind := SMS, challengeID := env.challenge.id, prompt := env.challenge.prompt, createdAt := env.now), env.now);
      return CodePage(env.flowID, env.challenge.prompt, SMS);
    }

    method StartWebAuthnStepUp(p0: Pending, env: Env) returns (r: Response)
      modifies this`flows, stepUps
      ensures (View(), r) == StartWebAuthn(old(View()), p0, env)
    {
      if env.authenticators.None? {
        return ErrorReply(502, "authenticator_unavailable");
      }
      var auths := env.authenticators.value;
      var hasPasskey := false;
      for i := 0 to |auths|
        invariant hasPasskey == exists n :: 0 <= n < i && Usable(auths[n], FIDO2)
      {
        if auths[i].kind == FIDO2 && !auths[i].disabled {
          hasPasskey := true;
        }
      }
      var p := p0.(kind := FIDO2, createdAt := env.now);
      if !hasPasskey {
        ParkAndTrack(env.flowID, p, env.now);
        return RegisterPage(env.flowID);
      }
      if !env.challenge.Challenge? {
        return ErrorReply(502, "authenticator_unavailable");
      }
      p := p.(challengeID := env.challenge.id, prompt := env.challenge.prompt, options := env.challenge.options);
      ParkAndTrack(env.flowID, p, env.now);
      return PasskeyPage(env.flowID, env.challenge.options);
    }

    // ---- Minting ----

    method MintCodeAndRedirect(f: Facts, acr: string, amr: seq<string>, env: Env) returns (r: Response)
      modifies this`codes, this`emitted, log
      ensures (View(), r) == Mint(old(View()), f, acr, amr, env)
    {
      if !env.redirectParses {
        return ErrorReply(400, "invalid_redirect_uri");
      }
      codes := codes[env.code := AuthCode(env.code, f.clientID, f.tenantID, f.userID, f.redirectURI, f.scope, f.state,
                                          f.nonce, f.codeChallenge, env.now, acr, amr, f.transactionID)];
      if f.transactionID != "" {
        CompleteAdviceTransaction(f, acr, env.now);
      }
      return RedirectCode(f.redirectURI, env.code, f.state, f.transactionID);
    }

    /** Only the call that completes the transaction emits. */
    method CompleteAdviceTransaction(f: Facts, acr: string, now: int)
      modifies this`emitted, log
      ensures View() == AdviceCompleted(old(View()), f, acr, now)
    {
      NotDoneUnchanged(log.rows, f.tenantID, f.transactionID, f.userID, acr, now);
      var done := log.MarkAdviceCallCompleted(f.tenantID, f.transactionID, f.userID, acr, now);
      if done == Done {
        emitted := emitted + [Emission(f.tenantID, f.userID, f.transactionID, acr, RankOf(acr))];
      }
    }

    // ---- The legacy branch ----

    method ProtectionSatisfied(level: Level, sessionID: string, now: int) returns (ok: bool)
      requires Ready(now) && 1 <= level.rank
      modifies protection
      ensures Ready(now)
      ensures ok == Satisfied(old(View()), cfg, level, sessionID, now)
      ensures ok <==> sessionID != "" && level.rank <=
                      AL.AchievedWithinBy(AL.StepsOf(old(protection.history), sessionID), cfg.ledgerTTL,
                                          if cfg.freshness > 0 then cfg.freshness else 5 * MINUTE, now)
      ensures View() == Looked(old(View()), cfg, sessionID, now)
    {
      var window := cfg.freshness;
      if window <= 0 {
        window := DEFAULT_FRESHNESS;
      }
      if sessionID == "" {
        return false;
      }
      AL.AnswersAreExact(protection.m, protection.history, protection.ttl, protection.clock, now, sessionID, window);
      var achieved := protection.AchievedWithin(sessionID, window, now);
      ok := achieved >= level.rank;
    }

    method HandleProtection(level: Level, sessionID: string, f: Facts, env: Env) returns (r: Response)
      requires Ready(env.now) && 1 <= level.rank
      modifies this`flows, this`codes, this`emitted, stepUps, protection, log
      ensures Ready(env.now)
      ensures (View(), r) == D.HandleProtection(old(View()), cfg, level, sessionID, f, env)
    {
      var ok := ProtectionSatisfied(level, sessionID, env.now);
      if ok {
        r := MintCodeAndRedirect(f, level.acr, [], env);
        return;
      }
      var spec := SpecForMethod(level.kind);
      if spec.None? {
        return ErrorReply(500, "internal_error");
      }
      r := StartStepUpFlow(EffectiveSpec(cfg.tenants, f.tenantID, spec.value), NewPending(f, level.acr, level.rank, sessionID), env);
    }

    // ---- The flow executor ----

    method ExecuteValidate(exec: FlowExecution, w: E.World) returns (result: E.StageResult, sent: seq<Response>)
      requires Ready(w.env.now) && w.cfg == cfg
      modifies this`flows, stepUps, protection, exec
      ensures Ready(w.env.now)
      ensures E.Outcome(View(), exec.View(), result, sent) == E.ExecuteValidate(old(View()), old(exec.View()), w)
    {
      MatchedLevel(Words.Fields(exec.acrValues));
      var level := MatchProtection(exec.acrValues);
      if level.Some? {
        var ok := ProtectionSatisfied(level.value, exec.sessionID, w.env.now);
        if ok {
          exec.achievedACR := level.value.acr;
          return E.Continue, [];
        }
        var spec := SpecForMethod(level.value.kind);
        if spec.None? {
          return E.DenyResult, [ErrorReply(500, "internal_error")];
        }
        var r := StartStepUpFlow(EffectiveSpec(cfg.tenants, exec.facts.tenantID, spec.value),
                                 NewPending(exec.facts, level.value.acr, level.value.rank, exec.sessionID), w.env);
        return E.Respond, [r];
      }
      var spec := MatchStepUp(exec.acrValues);
      if spec.Some? {
        var r := StartStepUpFlow(EffectiveSpec(cfg.tenants, exec.facts.tenantID, spec.value), NewPending(exec.facts, "", 0, ""), w.env);
        return E.Respond, [r];
      }
      return E.Continue, [];
    }

    /** The first policy that does not pass stops the evaluation. */
    method ShouldRun(policies: seq<E.Binding>, exec: FlowExecution, w: E.World) returns (run: bool)
      ensures run == E.ShouldRun(policies, exec.View(), w)
    {
      for i := 0 to |policies|
        invariant forall n :: 0 <= n < i ==> E.Passes(policies[n], n, exec.View(), w)
      {
        var b := policies[i];
        var pass := false;
        if b.program.Some? {
          pass := w.evaluate(exec.cursor, i, b.program.value, E.PolicyEnvOf(exec.View())) == E.Holds;
        }
        if b.negate {
          pass := !pass;
        }
        if !pass {
          assert !E.Passes(b, i, exec.View(), w);
          return false;
        }
      }
      return true;
    }

    method Execute(stage: E.Stage, exec: FlowExecution, w: E.World) returns (result: E.StageResult, sent: seq<Response>)
      requires Ready(w.env.now) && w.cfg == cfg
      modifies this`flows, this`codes, this`emitted, stepUps, protection, log, exec
      ensures Ready(w.env.now)
      ensures E.Outcome(View(), exec.View(), result, sent) == E.Execute(stage, old(View()), old(exec.View()), w)
      decreases stage
    {
      match stage
      case AuthValidate =>
        result, sent := ExecuteValidate(exec, w);
      case Issue =>
        var r := MintCodeAndRedirect(exec.facts, exec.achievedACR, exec.achievedAMR, w.env);
        return E.Complete, [r];
      case RiskEvaluation =>
        exec.risk := Some(if w.risk.Some? then w.risk.value else E.NO_RISK);
        return E.Continue, [];
      case Deny(_) =>
        if !w.env.redirectParses || exec.facts.redirectURI == "" {
          return E.DenyResult, [ErrorReply(403, "access_denied")];
        }
        return E.DenyResult, [RedirectError(exec.facts.redirectURI, exec.facts.state, "access_denied")];
      case Gated(inner, policies) =>
        var run := ShouldRun(policies, exec, w);
        if !run {
          return E.Continue, [];
        }
        result, sent := Execute(inner, exec, w);
    }

    /** Advances past silent stages and returns at the first that answers or at the end of the list. */
    method RunFlow(stages: seq<E.Stage>, exec: FlowExecution, w: E.World) returns (result: E.StageResult, sent: seq<Response>)
      requires Ready(w.env.now) && w.cfg == cfg
      modifies this`flows, this`codes, this`emitted, stepUps, protection, log, exec
      ensures Ready(w.env.now)
      ensures E.Outcome(View(), exec.View(), result, sent) == E.RunFlow(stages, old(View()), old(exec.View()), w)
    {
      ghost var target := E.RunFlow(stages, View(), exec.View(), w);
      sent := [];
      while exec.cursor < |stages|
        invariant Ready(w.env.now)
        invariant sent == []
        invariant E.RunFlow(stages, View(), exec.View(), w) == target
        decreases |stages| - exec.cursor
      {
        E.CursorKept(stages[exec.cursor], View(), exec.View(), w);
        ghost var before := exec.cursor;
        var res, replies := Execute(stages[exec.cursor], exec, w);
        if !res.Continue? {
          return res, replies;
        }
        exec.cursor := exec.cursor + 1;
        assert [] + E.RunFlow(stages, View(), exec.View(), w).sent == E.RunFlow(stages, View(), exec.View(), w).sent;
      }
      return E.Complete, [];
    }

    // ---- /authorize and its follow-ups ----

    /** /authorize from the advice check on. With the engine, `stages` is the flow selected for the tenant. */
    method Authorize(acrValues: string, sessionID: string, f: Facts, request: E.RequestFacts, engine: bool,
                     stages: seq<E.Stage>, w: E.World) returns (sent: seq<Response>)
      requires Ready(w.env.now) && w.cfg == cfg
      modifies this, stepUps, protection, log
      ensures Ready(w.env.now)
      ensures var d := old(View());
              var refusal := AdviceRefusal(d, acrValues, f);
              if refusal.Some? then View() == d && sent == [refusal.value]
              else if engine then
                var o := E.EngineAuthorize(stages, d, acrValues, sessionID, f, request, w); View() == o.desk && sent == o.sent
              else
                var (d', r) := Legacy(d, cfg, acrValues, sessionID, f, w.env); View() == d' && sent == [r]
    {
      var refusal := CheckAdvice(acrValues, f);
      if refusal.Some? {
        return [refusal.value];
      }
      if engine {
        sent := ViaEngine(acrValues, sessionID, f, request, stages, w);
        return;
      }
      var r := ViaLegacy(acrValues, sessionID, f, w.env);
      return [r];
    }

    method CheckAdvice(acrValues: string, f: Facts) returns (refusal: Option<Response>)
      ensures refusal == AdviceRefusal(View(), acrValues, f)
    {
      if f.transactionID == "" {
        return None;
      }
      var row := log.GetAdviceCall(f.tenantID, f.transactionID);
      if row.None? {
        return Some(ErrorReply(400, "unknown transaction_id"));
      }
      if row.value.completedAt.Some? {
        return Some(ErrorReply(400, "transaction_id has already been used"));
      }
      if row.value.userID != "" && row.value.userID != f.userID {
        return Some(ErrorReply(403, "access_denied"));
      }
      var level := MatchProtection(acrValues);
      var requested := if level.Some? then level.value.rank else 0;
      if row.value.rank > 0 && requested < row.value.rank {
        return Some(ErrorReply(400, "invalid_request"));
      }
      return None;
    }

    method ViaLegacy(acrValues: string, sessionID: string, f: Facts, env: Env) returns (r: Response)
      requires Ready(env.now)
      modifies this`flows, this`codes, this`emitted, stepUps, protection, log
      ensures Ready(env.now)
      ensures (View(), r) == Legacy(old(View()), cfg, acrValues, sessionID, f, env)
    {
      MatchedLevel(Words.Fields(acrValues));
      var level := MatchProtection(acrValues);
      if level.Some? {
        r := HandleProtection(level.value, sessionID, f, env);
        return;
      }
      var spec := MatchStepUp(acrValues);
      if spec.Some? {
        r := StartStepUpFlow(EffectiveSpec(cfg.tenants, f.tenantID, spec.value), NewPending(f, "", 0, ""), env);
        return;
      }
      r := MintCodeAndRedirect(f, "", [], env);
    }

    method ViaEngine(acrValues: string, sessionID: string, f: Facts, request: E.RequestFacts, stages: seq<E.Stage>, w: E.World)
      returns (sent: seq<Response>)
      requires Ready(w.env.now) && w.cfg == cfg
      modifies this`flows, this`codes, this`emitted, stepUps, protection, log
      ensures Ready(w.env.now)
      ensures var o := E.EngineAuthorize(stages, old(View()), acrValues, sessionID, f, request, w);
              View() == o.desk && sent == o.sent
    {
      var level := MatchProtection(acrValues);
      var achieved := 0;
      if sessionID != "" {
        AL.AnswersAreExact(protection.m, protection.history, protection.ttl, protection.clock, w.env.now, sessionID, 0);
        achieved := protection.Achieved(sessionID, w.env.now);
      }
      var exec := new FlowExecution(E.Execution(0, f, sessionID, acrValues, "", [], request,
                                                if level.Some? then level.value.rank else 0, achieved, None));
      var result;
      result, sent := RunFlow(stages, exec, w);
    }

    method AuthorizeVerify(flowID: string, submitted: bool, outcome: VerifyOutcome, env: Env) returns (r: Response)
      requires Ready(env.now)
      modifies this`flows, this`codes, this`emitted, stepUps, protection, log
      ensures Ready(env.now)
      ensures (View(), r) == D.AuthorizeVerify(old(View()), cfg, flowID, submitted, outcome, env)
    {
      if flowID == "" {
        return ErrorReply(400, "invalid_request");
      }
      var flow := PeekFlow(flowID, env.now);
      if flow.None? {
        return ErrorReply(400, "invalid_grant");
      }
      var p := flow.value;
      var spec := SpecForMethod(p.kind);
      if spec.None? {
        DropFlow(flowID);
        return ErrorReply(400, "invalid_grant");
      }
      if !submitted {
        return ErrorReply(400, "invalid_request");
      }
      match outcome
      case Gone =>
        DropFlow(flowID);
        return ErrorReply(400, "challenge_closed");
      case TooMany => return RetryPage(429, flowID);
      case Failing => return ErrorReply(502, "authenticator_unavailable");
      case Refused(max) =>
        if max {
          DropFlow(flowID);
          return ErrorReply(400, "challenge_closed");
        }
        return RetryPage(401, flowID);
      case Verified(amr) =>
        DropFlow(flowID);
        r := FinishVerified(p, spec.value, amr, env);
    }

    method FinishVerified(p: Pending, spec: Spec, reported: seq<string>, env: Env) returns (r: Response)
      requires Ready(env.now)
      modifies this`codes, this`emitted, protection, log
      ensures Ready(env.now)
      ensures (View(), r) == FinishFlow(old(View()), cfg, p, spec, reported, env)
    {
      var acr := spec.acr;
      if p.targetACR != "" {
        acr := p.targetACR;
      }
      if p.targetRank > 0 {
        protection.Record(p.sessionID, p.targetRank, env.now);
      }
      var amr := spec.amr;
      if |reported| > 0 {
        amr := reported;
      }
      r := MintCodeAndRedirect(p.facts, acr, amr, env);
    }

    method AuthorizeWebAuthnRegisterFinish(flowID: string, outcome: RegisterOutcome, env: Env) returns (r: Response)
      modifies this`flows
      ensures (View(), r) == RegisterFinish(old(View()), flowID, outcome, env)
    {
      var flow := PeekFlow(flowID, env.now);
      if flow.None? || flow.value.kind != FIDO2 {
        return ErrorReply(400, "invalid_grant");
      }
      if outcome.Rejected? {
        return ErrorReply(400, "registration_failed");
      }
      if outcome.RegistrationUnavailable? || !env.challenge.Challenge? {
        return ErrorReply(502, "authenticator_unavailable");
      }
      var p := flow.value.(challengeID := env.challenge.id, prompt := env.challenge.prompt, options := env.challenge.options);
      StoreFlow(flowID, p, env.now);
      return Options(env.challenge.options);
    }
  }

  /** Marking a transaction that is unknown or already completed leaves every row as it was. */
  lemma {:induction false} NotDoneUnchanged(rows: seq<AdviceCall>, tenantID: string, id: string, userID: string, acr: string, now: int)
    ensures CompletionOf(rows, tenantID, id) != Done ==> Completed(rows, tenantID, id, userID, acr, now) == rows
  {
    if rows != [] {
      assert rows == [rows[0]] + rows[1..];
      if !(rows[0].id == id && rows[0].tenantID == tenantID) {
        NotDoneUnchanged(rows[1..], tenantID, id, userID, acr, now);
      }
    }
  }
}
