/** The state behind /authorize and what its handlers do to it, as functions on values
    (services/authentication-service/internal/otp.go, webauthn_stepup.go, stepup_tracker.go, advice.go, protection.go). */
module Desk {
  import opened Common
  import opened Protection
  import opened TokenVault
  import AL = AssuranceLedger

  const FLOW_TTL: int := 10 * MINUTE
  const DEFAULT_FRESHNESS: int := 5 * MINUTE

  /** The validated facts of one /authorize request. */
  datatype Facts = Facts(
    clientID: string, tenantID: string, userID: string, redirectURI: string, scope: string,
    state: string, nonce: string, codeChallenge: string, transactionID: string)

  /** A parked /authorize request awaiting step-up verification. */
  datatype Pending = Pending(
    facts: Facts, kind: string, challengeID: string, prompt: string, options: string, createdAt: int,
    targetACR: string, targetRank: nat, sessionID: string)

  /** The tracker's mirror of a parked flow. */
  datatype Attempt = Attempt(flowID: string, tenantID: string, userID: string, kind: string, startedAt: int)

  /** One advice row; completed at most once. */
  datatype AdviceCall = AdviceCall(
    id: string, tenantID: string, userID: string, acr: string, rank: nat,
    completedAt: Option<int>, completedUserID: string, completedACR: string)

  /** The completion event sent to the risk service. */
  datatype Emission = Emission(tenantID: string, userID: string, transactionID: string, acr: string, rank: nat)

  datatype Desk = Desk(
    entries: AL.Entries, flows: map<string, Pending>, attempts: map<string, Attempt>,
    codes: map<string, AuthCode>, advice: seq<AdviceCall>, emitted: seq<Emission>)

  /** Deployment settings. `freshness` of zero or less stands for the default. */
  datatype Config = Config(ledgerTTL: int, freshness: int, tenants: map<string, bool>)

  datatype Authenticator = Authenticator(kind: string, disabled: bool, phone: string)

  datatype ChallengeReply = Challenge(id: string, prompt: string, options: string) | InvalidNumber | Unavailable

  /** What one HTTP request finds outside: the clock, fresh ids, and the answers of the services it calls. */
  datatype Env = Env(
    now: int, flowID: string, code: string, redirectParses: bool,
    authenticators: Option<seq<Authenticator>>, phone: Option<string>, enrolls: bool, challenge: ChallengeReply)

  datatype Response =
    | RedirectCode(redirectURI: string, code: string, state: string, transactionID: string)
    | RedirectError(redirectURI: string, state: string, error: string)
    | ErrorReply(status: int, error: string)
    | CodePage(flowID: string, prompt: string, kind: string)
    | RegisterPage(flowID: string)
    | PasskeyPage(flowID: string, options: string)
    | RetryPage(status: int, flowID: string)
    | Options(options: string)

  // ---- Advice rows ----

  datatype Completion = Done | AlreadyCompleted | Unknown

  function FindAdvice(advice: seq<AdviceCall>, tenantID: string, id: string): Option<AdviceCall> {
    if advice == [] then None
    else if advice[0].id == id && advice[0].tenantID == tenantID then Some(advice[0])
    else FindAdvice(advice[1..], tenantID, id)
  }

  /** Stamps the first row with that id and tenant, unless it is already completed. */
  function Completed(advice: seq<AdviceCall>, tenantID: string, id: string, userID: string, acr: string, now: int): seq<AdviceCall> {
    if advice == [] then []
    else if advice[0].id == id && advice[0].tenantID == tenantID then
      [if advice[0].completedAt.Some? then advice[0]
       else advice[0].(completedAt := Some(now), completedUserID := userID, completedACR := acr)] + advice[1..]
    else [advice[0]] + Completed(advice[1..], tenantID, id, userID, acr, now)
  }

  function CompletionOf(advice: seq<AdviceCall>, tenantID: string, id: string): Completion {
    var row := FindAdvice(advice, tenantID, id);
    if row.None? then Unknown else if row.value.completedAt.Some? then AlreadyCompleted else Done
  }

  /** Completes the transaction and, only when this call completed it, emits the event. */
  function AdviceCompleted(d: Desk, f: Facts, acr: string, now: int): Desk {
    if CompletionOf(d.advice, f.tenantID, f.transactionID) != Done then d
    else d.(advice := Completed(d.advice, f.tenantID, f.transactionID, f.userID, acr, now),
            emitted := d.emitted + [Emission(f.tenantID, f.userID, f.transactionID, acr, RankOf(acr))])
  }

  // ---- Minting, parking, dropping ----

  /** Persists the one-shot code, completes the advice transaction and redirects to the client. */
  function Mint(d: Desk, f: Facts, acr: string, amr: seq<string>, env: Env): (Desk, Response) {
    if !env.redirectParses then (d, ErrorReply(400, "invalid_redirect_uri"))
    else
      var ac := AuthCode(env.code, f.clientID, f.tenantID, f.userID, f.redirectURI, f.scope, f.state, f.nonce,
                         f.codeChallenge, env.now, acr, amr, f.transactionID);
      var d1 := d.(codes := d.codes[env.code := ac]);
      (if f.transactionID == "" then d1 else AdviceCompleted(d1, f, acr, env.now),
       RedirectCode(f.redirectURI, env.code, f.state, f.transactionID))
  }

  function LiveFlows(flows: map<string, Pending>, now: int): map<string, Pending> {
    map id | id in flows && now - flows[id].createdAt <= FLOW_TTL :: flows[id]
  }

  function LiveAttempts(attempts: map<string, Attempt>, now: int): map<string, Attempt> {
    map id | id in attempts && now - attempts[id].startedAt <= FLOW_TTL :: attempts[id]
  }

  function Mirror(id: string, p: Pending): Attempt {
    Attempt(id, p.facts.tenantID, p.facts.userID, p.kind, p.createdAt)
  }

  /** storeFlow: sweeps the expired flows, then parks this one. */
  function Parked(d: Desk, id: string, p: Pending, now: int): Desk {
    d.(flows := LiveFlows(d.flows, now)[id := p])
  }

  /** Parks the flow and starts its tracker entry. */
  function Started(d: Desk, id: string, p: Pending, now: int): Desk {
    Parked(d, id, p, now).(attempts := LiveAttempts(d.attempts, now)[id := Mirror(id, p)])
  }

  function Dropped(d: Desk, id: string): Desk {
    d.(flows := d.flows - {id}, attempts := d.attempts - {id})
  }

  predicate Peeks(d: Desk, id: string, now: int) {
    id in d.flows && now - d.flows[id].createdAt <= FLOW_TTL
  }

  /** peekFlow: an expired flow is removed, a live one stays. */
  function Peeked(d: Desk, id: string, now: int): Desk {
    if Peeks(d, id, now) then d else d.(flows := d.flows - {id})
  }

  // ---- Starting a step-up ----

  function NewPending(f: Facts, targetACR: string, targetRank: nat, sessionID: string): Pending {
    Pending(f, "", "", "", "", 0, targetACR, targetRank, sessionID)
  }

  predicate Usable(a: Authenticator, kind: string) {
    a.kind == kind && !a.disabled
  }

  predicate HasPasskey(auths: seq<Authenticator>) {
    exists i :: 0 <= i < |auths| && Usable(auths[i], FIDO2)
  }

  predicate HasPhone(auths: seq<Authenticator>, phone: string) {
    exists i :: 0 <= i < |auths| && Usable(auths[i], SMS) && auths[i].phone == phone
  }

  function StartWebAuthn(d: Desk, p0: Pending, env: Env): (Desk, Response) {
    if env.authenticators.None? then (d, ErrorReply(502, "authenticator_unavailable"))
    else
      var p := p0.(kind := FIDO2, createdAt := env.now);
      if !HasPasskey(env.authenticators.value) then (Started(d, env.flowID, p, env.now), RegisterPage(env.flowID))
      else if !env.challenge.Challenge? then (d, ErrorReply(502, "authenticator_unavailable"))
      else
        var q := p.(challengeID := env.challenge.id, prompt := env.challenge.prompt, options := env.challenge.options);
        (Started(d, env.flowID, q, env.now), PasskeyPage(env.flowID, env.challenge.options))
  }

  function StartSMS(d: Desk, p0: Pending, env: Env): (Desk, Response) {
    if env.authenticators.None? then (d, ErrorReply(502, "authenticator_unavailable"))
    else if env.phone.None? then (d, ErrorReply(409, "no_phone_on_file"))
    else if !HasPhone(env.authenticators.value, env.phone.value) && !env.enrolls then (d, ErrorReply(502, "authenticator_unavailable"))
    else match env.challenge
      case InvalidNumber => (d, ErrorReply(422, "invalid_phone_number"))
      case Unavailable => (d, ErrorReply(502, "authenticator_unavailable"))
      case Challenge(id, prompt, _) =>
        (Started(d, env.flowID, p0.(kind := SMS, challengeID := id, prompt := prompt, createdAt := env.now), env.now),
         CodePage(env.flowID, prompt, SMS))
  }

  function StartStepUp(d: Desk, spec: Spec, p: Pending, env: Env): (Desk, Response) {
    if spec.kind == FIDO2 then StartWebAuthn(d, p, env) else StartSMS(d, p, env)
  }

  // ---- The legacy /authorize branch ----

  function Freshness(cfg: Config): int {
    if cfg.freshness <= 0 then DEFAULT_FRESHNESS else cfg.freshness
  }

  /** Looking at the ledger collects its stale entries, except for the empty session. */
  function Looked(d: Desk, cfg: Config, sessionID: string, now: int): Desk {
    if sessionID == "" then d else d.(entries := AL.Collected(d.entries, cfg.ledgerTTL, now))
  }

  predicate Satisfied(d: Desk, cfg: Config, level: Level, sessionID: string, now: int) {
    sessionID != "" &&
    var m := AL.Collected(d.entries, cfg.ledgerTTL, now);
    sessionID in m && now - m[sessionID].at <= Freshness(cfg) && m[sessionID].rank >= level.rank
  }

  function HandleProtection(d: Desk, cfg: Config, level: Level, sessionID: string, f: Facts, env: Env): (Desk, Response) {
    var looked := Looked(d, cfg, sessionID, env.now);
    if Satisfied(d, cfg, level, sessionID, env.now) then Mint(looked, f, level.acr, [], env)
    else
      var spec := SpecForMethod(level.kind);
      if spec.None? then (looked, ErrorReply(500, "internal_error"))
      else StartStepUp(looked, EffectiveSpec(cfg.tenants, f.tenantID, spec.value), NewPending(f, level.acr, level.rank, sessionID), env)
  }

  function Legacy(d: Desk, cfg: Config, acrValues: string, sessionID: string, f: Facts, env: Env): (Desk, Response) {
    var level := MatchProtection(acrValues);
    var spec := MatchStepUp(acrValues);
    if level.Some? then HandleProtection(d, cfg, level.value, sessionID, f, env)
    else if spec.Some? then StartStepUp(d, EffectiveSpec(cfg.tenants, f.tenantID, spec.value), NewPending(f, "", 0, ""), env)
    else Mint(d, f, "", [], env)
  }

  /** The binding of a presented transaction id: known to the tenant, unused, for this user if it names one, and not
      asking for less than was advised. */
  function AdviceRefusal(d: Desk, acrValues: string, f: Facts): Option<Response> {
    if f.transactionID == "" then None
    else
      var row := FindAdvice(d.advice, f.tenantID, f.transactionID);
      var level := MatchProtection(acrValues);
      if row.None? then Some(ErrorReply(400, "unknown transaction_id"))
      else if row.value.completedAt.Some? then Some(ErrorReply(400, "transaction_id has already been used"))
      else if row.value.userID != "" && row.value.userID != f.userID then Some(ErrorReply(403, "access_denied"))
      else if row.value.rank > 0 && (if level.Some? then level.value.rank else 0) < row.value.rank then Some(ErrorReply(400, "invalid_request"))
      else None
  }

  // ---- /authorize/verify and the passkey registration endpoints ----

  datatype VerifyOutcome = Gone | TooMany | Failing | Refused(maxAttempts: bool) | Verified(amr: seq<string>)

  function Recorded(d: Desk, cfg: Config, sessionID: string, rank: nat, now: int): Desk {
    if rank == 0 then d else d.(entries := AL.Recorded(d.entries, cfg.ledgerTTL, sessionID, rank, now))
  }

  function FinishFlow(d: Desk, cfg: Config, p: Pending, spec: Spec, amr: seq<string>, env: Env): (Desk, Response) {
    Mint(Recorded(d, cfg, p.sessionID, p.targetRank, env.now), p.facts,
         if p.targetACR != "" then p.targetACR else spec.acr,
         if amr != [] then amr else spec.amr, env)
  }

  /** `submitted` says whether the form carried the code or assertion the method needs. */
  function AuthorizeVerify(d: Desk, cfg: Config, flowID: string, submitted: bool, outcome: VerifyOutcome, env: Env): (Desk, Response) {
    if flowID == "" then (d, ErrorReply(400, "invalid_request"))
    else if !Peeks(d, flowID, env.now) then (Peeked(d, flowID, env.now), ErrorReply(400, "invalid_grant"))
    else
      var p := d.flows[flowID];
      var spec := SpecForMethod(p.kind);
      if spec.None? then (Dropped(d, flowID), ErrorReply(400, "invalid_grant"))
      else if !submitted then (d, ErrorReply(400, "invalid_request"))
      else match outcome
        case Gone => (Dropped(d, flowID), ErrorReply(400, "challenge_closed"))
        case TooMany => (d, RetryPage(429, flowID))
        case Failing => (d, ErrorReply(502, "authenticator_unavailable"))
        case Refused(max) => if max then (Dropped(d, flowID), ErrorReply(400, "challenge_closed")) else (d, RetryPage(401, flowID))
        case Verified(amr) => FinishFlow(Dropped(d, flowID), cfg, p, spec.value, amr, env)
  }

  datatype RegisterOutcome = Registered | Rejected | RegistrationUnavailable

  function RegisterBegin(d: Desk, flowID: string, env: Env): Desk {
    Peeked(d, flowID, env.now)
  }

  /** Re-parks the same flow, with its creation stamp, once the new passkey has an assertion challenge. */
  function RegisterFinish(d: Desk, flowID: string, outcome: RegisterOutcome, env: Env): (Desk, Response) {
    if !Peeks(d, flowID, env.now) then (Peeked(d, flowID, env.now), ErrorReply(400, "invalid_grant"))
    else
      var p := d.flows[flowID];
      if p.kind != FIDO2 then (d, ErrorReply(400, "invalid_grant"))
      else match outcome
        case Rejected => (d, ErrorReply(400, "registration_failed"))
        case RegistrationUnavailable => (d, ErrorReply(502, "authenticator_unavailable"))
        case Registered =>
          if !env.challenge.Challenge? then (d, ErrorReply(502, "authenticator_unavailable"))
          else
            var q := p.(challengeID := env.challenge.id, prompt := env.challenge.prompt, options := env.challenge.options);
            (Parked(d, flowID, q, env.now), Options(env.challenge.options))
  }

  /** The console's list of live attempts of a tenant; listing drops the expired ones. */
  function ListByTenant(d: Desk, tenantID: string, now: int): (Desk, set<Attempt>) {
    var live := LiveAttempts(d.attempts, now);
    (d.(attempts := live), set id | id in live && live[id].tenantID == tenantID :: live[id])
  }
}
