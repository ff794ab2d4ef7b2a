/** What one request at the /authorize endpoints may do, and exactly when: stated on the request and the desk alone
    (services/authentication-service/internal/otp.go, webauthn_stepup.go, protection.go, oidc.go). */
module Gates {
  import opened Common
  import opened Protection
  import opened Desk
  import opened TokenVault
  import AL = AssuranceLedger
  import Words

  // ---- /authorize/verify ----

  /** The flow is parked, at most ten minutes old, of a known method, and the form carried what the method needs. */
  predicate Presented(d: Desk, flowID: string, submitted: bool, now: int) {
    && flowID != "" && flowID in d.flows && now <= d.flows[flowID].createdAt + 10 * MINUTE
    && (d.flows[flowID].kind == "sms" || d.flows[flowID].kind == "fido2") && submitted
  }

  predicate Passes(d: Desk, flowID: string, submitted: bool, outcome: VerifyOutcome, now: int) {
    Presented(d, flowID, submitted, now) && outcome.Verified?
  }

  /** A code is minted only for a verified challenge. */
  lemma VerifyGate(d: Desk, cfg: Config, flowID: string, submitted: bool, outcome: VerifyOutcome, env: Env)
    ensures var (d', r) := AuthorizeVerify(d, cfg, flowID, submitted, outcome, env);
            && (r.RedirectCode? <==> Passes(d, flowID, submitted, outcome, env.now) && env.redirectParses)
            && (!Passes(d, flowID, submitted, outcome, env.now) ==>
                  d'.codes == d.codes && d'.entries == d.entries && d'.advice == d.advice && d'.emitted == d.emitted)
  {
    if Passes(d, flowID, submitted, outcome, env.now) {
      VerifiedFlow(d, cfg, flowID, submitted, outcome, env);
    }
  }

  /** A rejected, throttled or failing challenge that may be retried, and a form without its answer, change nothing at
      all; a closed challenge only drops the flow, and so does a verified one as far as flows go. */
  lemma VerifyLeaves(d: Desk, cfg: Config, flowID: string, submitted: bool, outcome: VerifyOutcome, env: Env)
    requires Presented(d, flowID, true, env.now)
    ensures var (d', r) := AuthorizeVerify(d, cfg, flowID, submitted, outcome, env);
            var without := d.(flows := d.flows - {flowID}, attempts := d.attempts - {flowID});
            if !submitted then d' == d && r.ErrorReply?
            else match outcome
              case TooMany => d' == d && r == RetryPage(429, flowID)
              case Failing => d' == d && r.ErrorReply?
              case Refused(max) => if max then d' == without && r.ErrorReply? else d' == d && r == RetryPage(401, flowID)
              case Gone => d' == without && r.ErrorReply?
              case Verified(_) => d'.flows == without.flows && d'.attempts == without.attempts
  {
    if submitted && outcome.Verified? {
      VerifiedFlow(d, cfg, flowID, submitted, outcome, env);
    }
  }

  /** The code stands for this request: every fact of it is in the code. */
  predicate CodeFor(ac: AuthCode, f: Facts, code: string, now: int) {
    && ac.code == code && ac.clientID == f.clientID && ac.tenantID == f.tenantID && ac.userID == f.userID
    && ac.redirectURI == f.redirectURI && ac.scope == f.scope && ac.state == f.state && ac.nonce == f.nonce
    && ac.codeChallenge == f.codeChallenge && ac.createdAt == now && ac.transactionID == f.transactionID
  }

  /** The desk gained exactly this code, and the client is sent back with it to its own redirect URI. */
  predicate Issued(d: Desk, d': Desk, r: Response, f: Facts, acr: string, amr: seq<string>, env: Env) {
    && r == RedirectCode(f.redirectURI, env.code, f.state, f.transactionID)
    && env.code in d'.codes && d'.codes == d.codes[env.code := d'.codes[env.code]]
    && CodeFor(d'.codes[env.code], f, env.code, env.now) && d'.codes[env.code].acr == acr && d'.codes[env.code].amr == amr
  }

  lemma MintIssues(d: Desk, f: Facts, acr: string, amr: seq<string>, env: Env)
    ensures var (d', r) := Mint(d, f, acr, amr, env);
            && d'.entries == d.entries && d'.flows == d.flows && d'.attempts == d.attempts
            && if env.redirectParses then Issued(d, d', r, f, acr, amr, env) else d' == d && r == ErrorReply(400, "invalid_redirect_uri")
  {
  }

  function MethodACR(kind: string): string {
    if kind == "sms" then "urn:xauth:otp:sms" else "urn:xauth:fido2"
  }

  function MethodAMR(kind: string): seq<string> {
    if kind == "sms" then ["otp", "sms"] else ["user", "swk"]
  }

  /** A verified flow yields a code for its own request, at its target level or at its method's acr, and records the
      target rank for its session. */
  lemma VerifiedFlow(d: Desk, cfg: Config, flowID: string, submitted: bool, outcome: VerifyOutcome, env: Env)
    requires Passes(d, flowID, submitted, outcome, env.now)
    ensures var p := d.flows[flowID];
            var (d', r) := AuthorizeVerify(d, cfg, flowID, submitted, outcome, env);
            && d'.entries == (if p.targetRank == 0 then d.entries else AL.Recorded(d.entries, cfg.ledgerTTL, p.sessionID, p.targetRank, env.now))
            && d'.flows == d.flows - {flowID} && d'.attempts == d.attempts - {flowID}
            && (env.redirectParses ==>
                  Issued(d, d', r, p.facts, if p.targetACR != "" then p.targetACR else MethodACR(p.kind),
                         if outcome.amr != [] then outcome.amr else MethodAMR(p.kind), env))
            && (!env.redirectParses ==> d'.codes == d.codes && r.ErrorReply?)
  {
    var p := d.flows[flowID];
    var spec := SpecForMethod(p.kind).value;
    MintIssues(Recorded(Dropped(d, flowID), cfg, p.sessionID, p.targetRank, env.now), p.facts,
               if p.targetACR != "" then p.targetACR else spec.acr, if outcome.amr != [] then outcome.amr else spec.amr, env);
  }

  // ---- Starting a step-up ----

  predicate SameRequest(q: Pending, p: Pending) {
    q.facts == p.facts && q.targetACR == p.targetACR && q.targetRank == p.targetRank && q.sessionID == p.sessionID
  }

  /** The flow parked under the id is for this request, target and session, challenged by this method. */
  predicate ParkedFor(d': Desk, p: Pending, kind: string, env: Env) {
    && env.flowID in d'.flows && SameRequest(d'.flows[env.flowID], p) && d'.flows[env.flowID].kind == kind && d'.flows[env.flowID].createdAt == env.now
    && env.flowID in d'.attempts && d'.attempts[env.flowID] == Attempt(env.flowID, p.facts.tenantID, p.facts.userID, kind, env.now)
  }

  /** Beside the one under `id`, the flows at most ten minutes old are still there, unchanged, and no others. */
  ghost predicate OthersKept(d: Desk, d': Desk, id: string, now: int) {
    forall k :: k != id ==>
      && (k in d'.flows <==> k in d.flows && now <= d.flows[k].createdAt + 10 * MINUTE)
      && (k in d'.flows ==> d'.flows[k] == d.flows[k])
  }

  ghost predicate OtherAttemptsKept(d: Desk, d': Desk, id: string, now: int) {
    forall k :: k != id ==>
      && (k in d'.attempts <==> k in d.attempts && now <= d.attempts[k].startedAt + 10 * MINUTE)
      && (k in d'.attempts ==> d'.attempts[k] == d.attempts[k])
  }

  /** What starting a step-up answers. An SMS challenge needs a phone on file that is enrolled or enrols, and a dispatched
      code; a passkey challenge needs a passkey and a dispatched assertion, and without a passkey one is registered
      first. A missing phone and an invalid one are told apart from an outage. */
  lemma StartGate(d: Desk, spec: Spec, p: Pending, env: Env)
    requires spec.kind == "sms" || spec.kind == "fido2"
    ensures var r := StartStepUp(d, spec, p, env).1;
            var sms := spec.kind == "sms";
            var ready := sms && env.authenticators.Some? && env.phone.Some? && (HasPhone(env.authenticators.value, env.phone.value) || env.enrolls);
            && (r.CodePage? <==> ready && env.challenge.Challenge?)
            && (r.CodePage? ==> r == CodePage(env.flowID, env.challenge.prompt, "sms"))
            && (r.RegisterPage? <==> !sms && env.authenticators.Some? && !HasPasskey(env.authenticators.value))
            && (r.PasskeyPage? <==> !sms && env.authenticators.Some? && HasPasskey(env.authenticators.value) && env.challenge.Challenge?)
            && (r.PasskeyPage? ==> r == PasskeyPage(env.flowID, env.challenge.options))
            && (r.ErrorReply? || r.CodePage? || r.RegisterPage? || r.PasskeyPage?)
            && (r.ErrorReply? && r.status == 409 <==> sms && env.authenticators.Some? && env.phone.None?)
            && (r.ErrorReply? && r.status == 422 <==> ready && env.challenge.InvalidNumber?)
  {
  }

  /** Starting a step-up parks the flow for this request, under the challenge that was dispatched, and otherwise changes
      nothing; it never mints, records or completes anything. */
  lemma StartParks(d: Desk, spec: Spec, p: Pending, env: Env)
    requires spec.kind == "sms" || spec.kind == "fido2"
    ensures var (d', r) := StartStepUp(d, spec, p, env);
            && d'.codes == d.codes && d'.entries == d.entries && d'.advice == d.advice && d'.emitted == d.emitted
            && (r.CodePage? || r.PasskeyPage? ==> ParkedFor(d', p, spec.kind, env) && d'.flows[env.flowID].challengeID == env.challenge.id)
            && (r.RegisterPage? ==> ParkedFor(d', p, spec.kind, env))
            && (r.ErrorReply? ==> d' == d)
  {
  }

  lemma StartIsStarted(d: Desk, spec: Spec, p: Pending, env: Env)
    ensures var (d', r) := StartStepUp(d, spec, p, env);
            !r.ErrorReply? ==> env.flowID in d'.flows && d' == Started(d, env.flowID, d'.flows[env.flowID], env.now)
  {
  }

  /** Parking a flow drops the expired flows and attempts, and no others. */
  lemma StartedKeepsOthers(d: Desk, id: string, p: Pending, now: int)
    ensures OthersKept(d, Started(d, id, p, now), id, now) && OtherAttemptsKept(d, Started(d, id, p, now), id, now)
  {
  }

  /** Registering a passkey for a parked flow goes on to its assertion only when the registration succeeded and the
      assertion was dispatched; otherwise the flow stays as it was. */
  lemma RegisterGate(d: Desk, flowID: string, outcome: RegisterOutcome, env: Env)
    ensures var (d', r) := RegisterFinish(d, flowID, outcome, env);
            var live := flowID in d.flows && env.now <= d.flows[flowID].createdAt + 10 * MINUTE;
            && d'.codes == d.codes && d'.entries == d.entries && d'.advice == d.advice && d'.emitted == d.emitted
            && (r.Options? <==> live && d.flows[flowID].kind == "fido2" && outcome.Registered? && env.challenge.Challenge?)
            && (r.Options? ==>
                  flowID in d'.flows && d'.flows[flowID] ==
                    d.flows[flowID].(challengeID := env.challenge.id, prompt := env.challenge.prompt, options := env.challenge.options))
            && (r.Options? ==> OthersKept(d, d', flowID, env.now) && d'.attempts == d.attempts)
            && (live && !r.Options? ==> d' == d && r.ErrorReply?)
            && (!live ==> r.ErrorReply? && flowID !in d'.flows)
  {
  }

  // ---- Which level, which method ----

  /** The request is at the first value the client names that is on the ladder. */
  lemma {:induction false} FirstLevelWins(wants: seq<string>)
    ensures var level := FirstRequestedLevel(wants);
            && (level.None? <==> forall i :: 0 <= i < |wants| ==> ProtectionByACR(wants[i]).None?)
            && (level.Some? ==> exists i :: 0 <= i < |wants| && level.value.acr == wants[i] && ProtectionByACR(wants[i]) == level &&
                                  forall j :: 0 <= j < i ==> ProtectionByACR(wants[j]).None?)
  {
    if wants != [] {
      if ProtectionByACR(wants[0]).Some? {
        KnownLevel(LEVELS, wants[0]);
      } else {
        FirstLevelWins(wants[1..]);
        assert forall i :: 0 < i < |wants| ==> wants[i] == wants[1..][i - 1];
        if FirstRequestedLevel(wants[1..]).Some? {
          var i :| 0 <= i < |wants| - 1 && FirstRequestedLevel(wants).value.acr == wants[1..][i] &&
                   forall j :: 0 <= j < i ==> ProtectionByACR(wants[1..][j]).None?;
          assert wants[i + 1] == wants[1..][i];
        }
      }
    }
  }

  /** A request for a plain method is at the first value the client names that is one. */
  lemma {:induction false} FirstMethodWins(wants: seq<string>)
    ensures var spec := FirstRequestedSpec(wants);
            && (spec.None? <==> forall i :: 0 <= i < |wants| ==> wants[i] != ACR_SMS_OTP && wants[i] != ACR_FIDO2)
            && (spec.Some? ==> exists i :: 0 <= i < |wants| && wants[i] == spec.value.acr && spec.value.acr == MethodACR(spec.value.kind) &&
                                 forall j :: 0 <= j < i ==> wants[j] != ACR_SMS_OTP && wants[j] != ACR_FIDO2)
  {
    if wants != [] {
      if SpecByACR(wants[0]).None? {
        FirstMethodWins(wants[1..]);
        assert forall i :: 0 < i < |wants| ==> wants[i] == wants[1..][i - 1];
        if FirstRequestedSpec(wants[1..]).Some? {
          var i :| 0 <= i < |wants| - 1 && wants[1..][i] == FirstRequestedSpec(wants).value.acr &&
                   forall j :: 0 <= j < i ==> wants[1..][j] != ACR_SMS_OTP && wants[1..][j] != ACR_FIDO2;
          assert wants[i + 1] == wants[1..][i];
        }
      } else {
        assert wants[0] == SpecByACR(wants[0]).value.acr;
      }
    }
  }

  /** The first two rungs are challenged by SMS, the six above them by a passkey. */
  lemma {:induction false} RungMethods(levels: seq<Level>, acr: string)
    requires forall i :: 0 <= i < |levels| ==> levels[i].kind == if levels[i].rank <= 2 then "sms" else "fido2"
    ensures var level := FirstLevel(levels, acr);
            level.Some? ==> level.value.kind == if level.value.rank <= 2 then "sms" else "fido2"
  {
    if levels != [] {
      RungMethods(levels[1..], acr);
    }
  }

  /** The method that a level is challenged by: a passkey from rank 3 on, unless the tenant has turned FIDO off. */
  lemma LevelIsChallengedBy(tenants: map<string, bool>, tenantID: string, wants: seq<string>)
    ensures var level := FirstRequestedLevel(wants);
            level.Some? ==>
              && SpecForMethod(level.value.kind).Some?
              && var spec := EffectiveSpec(tenants, tenantID, SpecForMethod(level.value.kind).value);
                 var fidoOff := tenantID != "" && tenantID in tenants && !tenants[tenantID];
                 spec.kind == if level.value.rank <= 2 || fidoOff then "sms" else "fido2"
  {
    MatchedLevel(wants);
    LevelsAreKinds();
    FirstLevelWins(wants);
    if FirstRequestedLevel(wants).Some? {
      RungMethods(LEVELS, FirstRequestedLevel(wants).value.acr);
    }
  }

  lemma LevelsAreKinds()
    ensures forall i :: 0 <= i < |LEVELS| ==> LEVELS[i].kind == if LEVELS[i].rank <= 2 then "sms" else "fido2"
  {
  }

  // ---- The advice check ----

  /** A transaction id passes exactly when it is on record for the tenant, unused, for this user if it names one, and
      advised no more than what is asked for. Another user is told so only about an unused one. */
  lemma AdviceCheckIff(d: Desk, acrValues: string, f: Facts)
    ensures var r := AdviceRefusal(d, acrValues, f);
            var row := FindAdvice(d.advice, f.tenantID, f.transactionID);
            var level := MatchProtection(acrValues);
            var unused := f.transactionID != "" && row.Some? && row.value.completedAt.None?;
            && (r.None? <==>
                  f.transactionID == "" ||
                  (unused && (row.value.userID == "" || row.value.userID == f.userID) &&
                   (row.value.rank == 0 || (level.Some? && row.value.rank <= level.value.rank))))
            && (r == Some(ErrorReply(403, "access_denied")) <==> unused && row.value.userID != "" && row.value.userID != f.userID)
            && (r == Some(ErrorReply(400, "unknown transaction_id")) <==> f.transactionID != "" && row.None?)
            && (r == Some(ErrorReply(400, "transaction_id has already been used")) <==>
                  f.transactionID != "" && row.Some? && row.value.completedAt.Some?)
  {
  }
}
