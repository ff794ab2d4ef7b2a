/** Cross-App Access: issuing an identity assertion by token exchange and redeeming one for an access token
    (services/authentication-service/internal/idjag.go, idjag_redemption.go and storage.go). */
module IdentityAssertions {
  import opened Common
  import opened TokenVault
  import CS = ClaimSets
  import Grants
  import Jwt
  import Scopes
  import Words

  const ID_JAG: string := "oauth-id-jag+jwt"
  const ID_JAG_TTL: int := 300

  // ---- Single use of the jti ----

  type Records = map<string, int>

  function Unexpired(used: Records, now: int): Records {
    map j | j in used && now <= used[j] :: used[j]
  }

  /** Drops the expired records, then records the jti unless it is still there. */
  function Burnt(used: Records, jti: string, expiresAt: int, now: int): (Records, bool) {
    var live := Unexpired(used, now);
    if jti in live then (live, false) else (live[jti := expiresAt], true)
  }

  class JTIStore {
    var used: Records

    constructor ()
      ensures used == map[]
    {
      used := map[];
    }

    method RedeemIDJAGJTI(jti: string, expiresAt: int, now: int) returns (ok: bool)
      modifies this
      ensures (used, ok) == Burnt(old(used), jti, expiresAt, now)
    {
      var todo := used.Keys;
      while todo != {}
        invariant todo <= used.Keys <= old(used).Keys
        invariant used == map j | j in old(used) && (j in todo || now <= old(used)[j]) :: old(used)[j]
        decreases |todo|
      {
        var j :| j in todo;
        if now > used[j] {
          used := used - {j};
        }
        todo := todo - {j};
      }
      assert used == Unexpired(old(used), now);
      if jti in used {
        return false;
      }
      used := used[jti := expiresAt];
      return true;
    }
  }

  /** The redemption attempts so far, latest last. */
  datatype History = NoneYet | Attempt(earlier: History, jti: string, expiresAt: int, at: int)

  function RecordsAfter(h: History): Records {
    match h
    case NoneYet => map[]
    case Attempt(earlier, jti, expiresAt, at) => Burnt(RecordsAfter(earlier), jti, expiresAt, at).0
  }

  predicate Succeeded(h: History) {
    h.Attempt? && Burnt(RecordsAfter(h.earlier), h.jti, h.expiresAt, h.at).1
  }

  predicate Ordered(h: History, now: int) {
    h.Attempt? ==> h.at <= now && Ordered(h.earlier, h.at)
  }

  /** Some earlier successful redemption of the jti has not expired yet. */
  predicate Blocked(h: History, jti: string, now: int) {
    h.Attempt? && ((h.jti == jti && now <= h.expiresAt && Succeeded(h)) || Blocked(h.earlier, jti, now))
  }

  lemma {:induction false} BlockedLater(h: History, jti: string, now: int, later: int)
    requires now <= later && Blocked(h, jti, later)
    ensures Blocked(h, jti, now)
  {
    if Blocked(h.earlier, jti, later) {
      BlockedLater(h.earlier, jti, now, later);
    }
  }

  lemma {:induction false} BlockedIsRecorded(h: History, jti: string, now: int)
    requires Ordered(h, now)
    ensures Blocked(h, jti, now) <==> jti in RecordsAfter(h) && now <= RecordsAfter(h)[jti]
  {
    if h.Attempt? {
      BlockedIsRecorded(h.earlier, jti, h.at);
      BlockedIsRecorded(h.earlier, jti, now);
      if Blocked(h.earlier, jti, now) {
        BlockedLater(h.earlier, jti, h.at, now);
      }
    }
  }

  /** Whatever has happened, with records evicted along the way, a jti can be redeemed if and only if every earlier
      successful redemption of it has expired. */
  lemma {:induction false} SingleUse(h: History, jti: string, expiresAt: int, now: int)
    requires Ordered(h, now)
    ensures Succeeded(Attempt(h, jti, expiresAt, now)) <==> !Blocked(h, jti, now)
  {
    BlockedIsRecorded(h, jti, now);
  }

  // ---- Registries ----

  datatype MCPServer = MCPServer(resourceURI: string, enabled: bool, scopes: seq<string>)

  datatype TrustedIDP = TrustedIDP(issuer: string, jwksURI: string, enabled: bool, scopes: seq<string>)

  /** What the handlers consult: the library, this server's issuer and hash function, the registered clients with their
      tenants, and the two registries by tenant, each in list order. */
  datatype Env = Env(
    lib: Jwt.Library, issuer: string, hashOf: string -> string, absolute: string -> bool, clients: map<string, string>,
    servers: map<string, seq<MCPServer>>, idps: map<string, seq<TrustedIDP>>)

  function Listed<T>(m: map<string, seq<T>>, tenantID: string): seq<T> {
    if tenantID in m then m[tenantID] else []
  }

  /** The first enabled entry for the target. */
  function ServerFor(servers: seq<MCPServer>, target: string): Option<MCPServer> {
    if servers == [] then None
    else if servers[0].resourceURI == target && servers[0].enabled then Some(servers[0])
    else ServerFor(servers[1..], target)
  }

  function IDPFor(idps: seq<TrustedIDP>, iss: string): Option<TrustedIDP> {
    if idps == [] then None
    else if idps[0].issuer == iss && idps[0].enabled then Some(idps[0])
    else IDPFor(idps[1..], iss)
  }

  /** A disabled or unlisted server is not found, an enabled one always is. */
  lemma {:induction false} ServerForIsEnabled(servers: seq<MCPServer>, target: string)
    ensures ServerFor(servers, target).Some? <==> exists i :: 0 <= i < |servers| && servers[i].resourceURI == target && servers[i].enabled
    ensures ServerFor(servers, target).Some? ==>
              ServerFor(servers, target).value in servers &&
              ServerFor(servers, target).value.resourceURI == target && ServerFor(servers, target).value.enabled
  {
    if servers != [] {
      ServerForIsEnabled(servers[1..], target);
      forall i | 0 <= i < |servers| - 1 ensures servers[1..][i] == servers[i + 1] {
      }
      assert forall i :: 0 < i < |servers| ==> servers[i] == servers[1..][i - 1];
    }
  }

  lemma {:induction false} IDPForIsEnabled(idps: seq<TrustedIDP>, iss: string)
    ensures IDPFor(idps, iss).Some? <==> exists i :: 0 <= i < |idps| && idps[i].issuer == iss && idps[i].enabled
    ensures IDPFor(idps, iss).Some? ==>
              IDPFor(idps, iss).value in idps && IDPFor(idps, iss).value.issuer == iss && IDPFor(idps, iss).value.enabled
  {
    if idps != [] {
      IDPForIsEnabled(idps[1..], iss);
      forall i | 0 <= i < |idps| - 1 ensures idps[1..][i] == idps[i + 1] {
      }
      assert forall i :: 0 < i < |idps| ==> idps[i] == idps[1..][i - 1];
    }
  }

  method AuthorizedMCPServer(env: Env, tenantID: string, target: string) returns (m: Option<MCPServer>)
    ensures m == ServerFor(Listed(env.servers, tenantID), target)
  {
    var servers := Listed(env.servers, tenantID);
    for i := 0 to |servers|
      invariant ServerFor(servers, target) == ServerFor(servers[i..], target)
    {
      assert servers[i..][1..] == servers[i + 1..];
      if servers[i].resourceURI == target && servers[i].enabled {
        return Some(servers[i]);
      }
    }
    return None;
  }

  method FindTrustedIDP(env: Env, tenantID: string, iss: string) returns (p: Option<TrustedIDP>)
    ensures p == IDPFor(Listed(env.idps, tenantID), iss)
  {
    var idps := Listed(env.idps, tenantID);
    for i := 0 to |idps|
      invariant IDPFor(idps, iss) == IDPFor(idps[i..], iss)
    {
      assert idps[i..][1..] == idps[i + 1..];
      if idps[i].issuer == iss && idps[i].enabled {
        return Some(idps[i]);
      }
    }
    return None;
  }

  // ---- Unverified reads of a token ----

  function TypOf(lib: Jwt.Library, token: string): Option<string> {
    var head := Jwt.Split(token)[0];
    if head == "" then None
    else
      var bytes := lib.unb64(head);
      var header := if bytes.None? then None else lib.readHeader(bytes.value);
      if header.None? then None else Some(header.value.typ)
  }

  /** The issuer named in the payload, used only to select the key set. */
  function IssuerOf(lib: Jwt.Library, token: string): string {
    var parts := Jwt.Split(token);
    if |parts| != 3 then ""
    else
      var bytes := lib.unb64(parts[1]);
      var doc := if bytes.None? then None else lib.readDoc(bytes.value);
      if doc.None? || exists i :: 0 <= i < |doc.value| && MistypedIssuer(doc.value[i]) then "" else CS.TextIn(doc.value, "iss")
  }

  predicate MistypedIssuer(m: CS.Member) {
    CS.Fold(m.name) == "iss" && !m.value.Null? && !m.value.Str?
  }

  // ---- Verification against an issuer's published keys ----

  type KeySet = map<string, Jwt.PublicKey>

  function Answer(lib: Jwt.Library, keys: Option<KeySet>, issuer: string, token: string, now: int): Option<Jwt.Result> {
    if keys.None? then None else Some(Jwt.Verify(lib, keys.value, issuer, token, now))
  }

  /** The key set holds a key under which the token's signature checks. */
  predicate Vouched(lib: Jwt.Library, keys: Option<KeySet>, token: string) {
    keys.Some? && Jwt.Authentic(lib, keys.value, token)
  }

  lemma AcceptedIsVouched(lib: Jwt.Library, keys: Option<KeySet>, issuer: string, token: string, now: int)
    ensures Accepts(Answer(lib, keys, issuer, token, now)) ==> Vouched(lib, keys, token)
  {
    if keys.Some? && Jwt.Verify(lib, keys.value, issuer, token, now).Accepted? {
      var r := Jwt.Verify(lib, keys.value, issuer, token, now);
      Jwt.AcceptedIff(lib, keys.value, issuer, token, now, r.claims, r.raw);
    }
  }

  predicate Accepts(r: Option<Jwt.Result>) {
    r.Some? && r.value.Accepted?
  }

  /** Key sets per issuer and JWKS address, fetched when missing and once more when verification fails. */
  class IDPVerifierCache {
    var vers: map<(string, string), KeySet>

    constructor ()
      ensures vers == map[]
    {
      vers := map[];
    }

    /** `published` answers the first fetch of this call and `again` a later one; None stands for a failed fetch. An
        accepted token verifies under the cached or a fetched key set, and a token that verifies under the published set
        is accepted whatever was cached. */
    method Verify(lib: Jwt.Library, issuer: string, jwksURI: string, token: string, now: int,
                  published: Option<KeySet>, again: Option<KeySet>) returns (r: Option<Jwt.Result>)
      modifies this
      ensures r.Some? && r.value.Accepted? ==>
                || r == Answer(lib, Lookup(old(vers), (issuer, jwksURI)), issuer, token, now)
                || r == Answer(lib, published, issuer, token, now)
                || r == Answer(lib, again, issuer, token, now)
      ensures Accepts(r) ==>
                Vouched(lib, Lookup(old(vers), (issuer, jwksURI)), token) || Vouched(lib, published, token) || Vouched(lib, again, token)
      ensures Accepts(Answer(lib, published, issuer, token, now)) ==> Accepts(r)
      ensures forall k :: k != (issuer, jwksURI) ==> (k in vers <==> k in old(vers)) && (k in vers ==> vers[k] == old(vers)[k])
    {
      var k := (issuer, jwksURI);
      AcceptedIsVouched(lib, Lookup(vers, k), issuer, token, now);
      AcceptedIsVouched(lib, published, issuer, token, now);
      AcceptedIsVouched(lib, again, issuer, token, now);
      var fetched := k !in vers;
      if fetched {
        if published.None? {
          return None;
        }
        vers := vers[k := published.value];
      }
      r := Some(Jwt.Verify(lib, vers[k], issuer, token, now));
      if r.value.Accepted? {
        return;
      }
      var rotated := if fetched then again else published;
      if rotated.Some? {
        vers := vers[k := rotated.value];
        r := Some(Jwt.Verify(lib, vers[k], issuer, token, now));
      }
    }
  }

  // ---- Issuing ----

  datatype SubjectKind = AccessToken | IDTokenKind | OtherKind

  datatype ExchangeRequest = ExchangeRequest(
    wantsIDJAG: bool, subjectToken: string, subjectKind: SubjectKind, resource: string, audience: string,
    creds: Grants.Creds, scope: string)

  datatype Refusal = InvalidRequest | InvalidClient | InvalidGrant | InvalidTarget | InvalidScope | InternalError

  datatype ExchangeReply = NotIssued(why: Refusal) | Assertion(token: string, scope: string)

  function Target(req: ExchangeRequest): string {
    if req.resource == "" then req.audience else req.resource
  }

  predicate WellFormed(env: Env, req: ExchangeRequest) {
    req.wantsIDJAG && req.subjectToken != "" && !req.subjectKind.OtherKind? && Target(req) != "" && env.absolute(Target(req))
  }

  /** The subject token verifies as an ordinary token of this server that names tenant, subject and audience; an access
      token is also on record, live and unrevoked. */
  predicate SubjectUsable(env: Env, v: Vault, req: ExchangeRequest, answer: Jwt.Result, at: int) {
    && answer.Accepted? && TypOf(env.lib, req.subjectToken) == Some("JWT")
    && CS.TextOf(answer.claims, "tenant_id") != "" && CS.TextOf(answer.claims, "sub") != "" && CS.TextOf(answer.claims, "aud") != ""
    && (req.subjectKind.AccessToken? ==> LiveAccess(v, env.hashOf(req.subjectToken), at))
  }

  predicate LiveAccess(v: Vault, hash: string, at: int) {
    Grants.Known(v, hash, Access) && Unrevoked(v.tokens[hash]) && at <= v.tokens[hash].expiresAt
  }

  /** Optional text claims that are empty are left out. */
  function Filled(text: map<string, string>): map<string, string> {
    map k | k in text && (k in CS.REQUIRED_TEXT || text[k] != "") :: text[k]
  }

  function AssertionClaims(env: Env, subject: CS.Claims, server: MCPServer, scope: string, jti: string, at: int): CS.Claims {
    CS.Claims(
      Filled(map["sub" := CS.TextOf(subject, "sub"), "iss" := env.issuer, "aud" := server.resourceURI, "jti" := jti,
                 "tenant_id" := CS.TextOf(subject, "tenant_id"), "scope" := scope]),
      (at + ID_JAG_TTL * SECOND) / SECOND, at / SECOND, [])
  }

  function Exchange(env: Env, v: Vault, key: Jwt.PrivateKey, req: ExchangeRequest, answer: Jwt.Result, jti: string, at: int): ExchangeReply {
    if !WellFormed(env, req) then NotIssued(InvalidRequest)
    else if !SubjectUsable(env, v, req, answer, at) then NotIssued(InvalidGrant)
    else if req.creds.BadCreds? then NotIssued(InvalidClient)
    else
      var c := answer.claims;
      var app := CS.TextOf(c, "aud");
      if req.creds.clientID != "" && req.creds.clientID != app then NotIssued(InvalidGrant)
      else
        var server := ServerFor(Listed(env.servers, CS.TextOf(c, "tenant_id")), Target(req));
        if server.None? then NotIssued(InvalidTarget)
        else
          var granted := Scopes.GrantedScopes(server.value.scopes, Words.Fields(req.scope));
          if granted.None? then NotIssued(InvalidScope)
          else
            var scope := Words.Join(granted.value);
            var token := Jwt.SignTyped(env.lib, key, AssertionClaims(env, c, server.value, scope, jti, at), AppName(app), ID_JAG);
            if token.None? then NotIssued(InternalError) else Assertion(token.value, scope)
  }

  lemma AssertionClaimsNormal(env: Env, subject: CS.Claims, server: MCPServer, scope: string, jti: string, at: int)
    ensures CS.Normal(AssertionClaims(env, subject, server, scope, jti, at))
    ensures var c := AssertionClaims(env, subject, server, scope, jti, at);
            && CS.TextOf(c, "scope") == scope && CS.TextOf(c, "aud") == server.resourceURI && CS.TextOf(c, "iss") == env.issuer
            && CS.TextOf(c, "sub") == CS.TextOf(subject, "sub") && CS.TextOf(c, "jti") == jti
            && CS.TextOf(c, "tenant_id") == CS.TextOf(subject, "tenant_id")
  {
  }

  /** What an issued assertion promises: the target is an enabled server of the subject's tenant, the scopes stay within
      its list when it has one, an access-token subject is live, and the token carries just the subject's identity. */
  lemma IssuedWithinPolicy(env: Env, v: Vault, key: Jwt.PrivateKey, req: ExchangeRequest, answer: Jwt.Result, jti: string, at: int)
    requires forall m :: m in Listed(env.servers, TenantOf(answer)) ==> Words.AllWords(m.scopes)
    ensures var reply := Exchange(env, v, key, req, answer, jti, at);
            && reply != NotIssued(InternalError)
            && (reply.Assertion? ==>
                  exists m :: m in Listed(env.servers, TenantOf(answer)) && m.resourceURI == Target(req) && m.enabled &&
                    IssuedFor(env, v, key, req, answer, jti, at, m, reply))
  {
    var reply := Exchange(env, v, key, req, answer, jti, at);
    var server := ServerFor(Listed(env.servers, TenantOf(answer)), Target(req));
    ServerForIsEnabled(Listed(env.servers, TenantOf(answer)), Target(req));
    if answer.Accepted? && server.Some? && Scopes.GrantedScopes(server.value.scopes, Words.Fields(req.scope)).Some? {
      var m := server.value;
      var granted := Scopes.GrantedScopes(m.scopes, Words.Fields(req.scope)).value;
      SigningNeverFails(env, key, answer.claims, m, Words.Join(granted), jti, at);
      if m.scopes != [] {
        Scopes.ScopesStayWithinTheServer(m.scopes, req.scope, "", []);
      }
      if reply.Assertion? {
        assert IssuedFor(env, v, key, req, answer, jti, at, m, reply);
      }
    }
  }

  lemma SigningNeverFails(env: Env, key: Jwt.PrivateKey, subject: CS.Claims, server: MCPServer, scope: string, jti: string, at: int)
    ensures Jwt.SignTyped(env.lib, key, AssertionClaims(env, subject, server, scope, jti, at), AppName(CS.TextOf(subject, "aud")), ID_JAG).Some?
  {
    AssertionClaimsNormal(env, subject, server, scope, jti, at);
    ClientIDIsNoClaim(CS.TextOf(subject, "aud"));
    CS.ForeignExtrasLeaveClaims(env.lib.numbers, AssertionClaims(env, subject, server, scope, jti, at), AppName(CS.TextOf(subject, "aud")));
  }

  /** Exactly when an assertion is issued. */
  lemma IssuedIff(env: Env, v: Vault, key: Jwt.PrivateKey, req: ExchangeRequest, answer: Jwt.Result, jti: string, at: int)
    ensures Exchange(env, v, key, req, answer, jti, at).Assertion? <==>
            && req.wantsIDJAG && req.subjectToken != "" && (req.subjectKind.AccessToken? || req.subjectKind.IDTokenKind?)
            && var target := if req.resource != "" then req.resource else req.audience;
            && target != "" && env.absolute(target)
            && answer.Accepted? && TypOf(env.lib, req.subjectToken) == Some("JWT")
            && CS.TextOf(answer.claims, "tenant_id") != "" && CS.TextOf(answer.claims, "sub") != "" && CS.TextOf(answer.claims, "aud") != ""
            && (req.subjectKind.AccessToken? ==>
                  var hash := env.hashOf(req.subjectToken);
                  hash in v.tokens && v.tokens[hash].kind.Access? && v.tokens[hash].revokedAt.None? && at <= v.tokens[hash].expiresAt)
            && req.creds.Creds? && (req.creds.clientID == "" || req.creds.clientID == CS.TextOf(answer.claims, "aud"))
            && var server := ServerFor(Listed(env.servers, CS.TextOf(answer.claims, "tenant_id")), target);
               && server.Some?
               && (server.value.scopes == [] || Scopes.Within(Words.Fields(req.scope), server.value.scopes))
  {
    if answer.Accepted? {
      var server := ServerFor(Listed(env.servers, CS.TextOf(answer.claims, "tenant_id")), Target(req));
      if server.Some? && Scopes.GrantedScopes(server.value.scopes, Words.Fields(req.scope)).Some? {
        var scope := Words.Join(Scopes.GrantedScopes(server.value.scopes, Words.Fields(req.scope)).value);
        SigningNeverFails(env, key, answer.claims, server.value, scope, jti, at);
      }
    }
  }

  /** Why none is issued: the target names no enabled server of the subject's tenant, or the request asks for a scope
      outside that server's list. */
  lemma IssuanceRefusals(env: Env, v: Vault, key: Jwt.PrivateKey, req: ExchangeRequest, answer: Jwt.Result, jti: string, at: int)
    ensures var r := Exchange(env, v, key, req, answer, jti, at);
            var servers := Listed(env.servers, TenantOf(answer));
            && (r == NotIssued(InvalidTarget) ==> forall m :: m in servers ==> m.resourceURI != Target(req) || !m.enabled)
            && (r == NotIssued(InvalidScope) ==>
                  exists m :: m in servers && m.resourceURI == Target(req) && m.enabled && m.scopes != [] &&
                    !Scopes.Within(Words.Fields(req.scope), m.scopes))
            && (r == NotIssued(InvalidClient) ==> req.creds.BadCreds?)
            && (r == NotIssued(InvalidRequest) <==>
                  !(req.wantsIDJAG && req.subjectToken != "" && !req.subjectKind.OtherKind? && Target(req) != "" && env.absolute(Target(req))))
            && r != NotIssued(InternalError)
  {
    var servers := Listed(env.servers, TenantOf(answer));
    ServerForIsEnabled(servers, Target(req));
    assert forall m :: m in servers ==> exists i :: 0 <= i < |servers| && servers[i] == m;
    if answer.Accepted? && ServerFor(servers, Target(req)).Some? {
      var m := ServerFor(servers, Target(req)).value;
      if Scopes.GrantedScopes(m.scopes, Words.Fields(req.scope)).Some? {
        SigningNeverFails(env, key, answer.claims, m, Words.Join(Scopes.GrantedScopes(m.scopes, Words.Fields(req.scope)).value), jti, at);
      }
    }
  }

  /** An assertion lives five minutes from the second it is issued in. */
  lemma AssertionTimes(env: Env, subject: CS.Claims, server: MCPServer, scope: string, jti: string, at: int)
    ensures var c := AssertionClaims(env, subject, server, scope, jti, at);
            c.iat * SECOND <= at < (c.iat + 1) * SECOND && c.exp == c.iat + 300
  {
  }

  /** A signed token shows its type and its issuer to whoever reads it unverified. */
  lemma SignedTokenShows(lib: Jwt.Library, key: Jwt.PrivateKey, c: CS.Claims, app: string, typ: string)
    requires Jwt.Lawful(lib) && CS.Normal(c) && typ != ""
    ensures var token := Jwt.SignTyped(lib, key, c, AppName(app), typ);
            token.Some? && TypOf(lib, token.value) == Some(typ)
            && (CS.ReadClaims(CS.Payload(lib.numbers, c, AppName(app)).value).Some? ==> IssuerOf(lib, token.value) == CS.TextOf(c, "iss"))
  {
    ClientIDIsNoClaim(app);
    CS.ForeignExtrasLeaveClaims(lib.numbers, c, AppName(app));
    Jwt.SignedParts(lib, key, c, AppName(app), typ);
    ReadsIssuer(lib, CS.Payload(lib.numbers, c, AppName(app)).value, c);
  }

  lemma ReadsIssuer(lib: Jwt.Library, doc: CS.Doc, c: CS.Claims)
    requires CS.Normal(c)
    ensures CS.ReadClaims(doc).Some? && CS.ReadClaims(doc).value.text == c.text ==>
              CS.TextIn(doc, "iss") == CS.TextOf(c, "iss") && forall i :: 0 <= i < |doc| ==> !MistypedIssuer(doc[i])
  {
    if CS.ReadClaims(doc).Some? && CS.ReadClaims(doc).value.text == c.text {
      CS.ReadsAs(doc, c);
      assert "iss" in CS.TEXT_FIELDS;
      forall i | 0 <= i < |doc| ensures !MistypedIssuer(doc[i]) {
        assert CS.Fits(doc[i].name, doc[i].value);
      }
    }
  }

  /** It verifies with the issuer's key from issuance until five minutes and the leeway have passed, as what it says. */
  lemma FreshAssertionVerifies(env: Env, key: Jwt.PrivateKey, keys: KeySet, subject: CS.Claims, server: MCPServer, scope: string,
                               jti: string, app: string, at: int, now: int)
    requires Jwt.Lawful(env.lib) && env.lib.keyID(key.pub) in keys && keys[env.lib.keyID(key.pub)] == key.pub
    requires SECOND <= at < (CS.TWO53 - 299) * SECOND
    ensures var c := AssertionClaims(env, subject, server, scope, jti, at);
            var token := Jwt.SignTyped(env.lib, key, c, AppName(app), ID_JAG);
            && token.Some?
            && var r := Jwt.Verify(env.lib, keys, env.issuer, token.value, now);
               && (r.Accepted? <==> c.iat * SECOND - Jwt.LEEWAY <= now <= (c.iat + 300) * SECOND + Jwt.LEEWAY)
               && (r.Accepted? ==> r.claims == c)
  {
    var c := AssertionClaims(env, subject, server, scope, jti, at);
    AssertionClaimsNormal(env, subject, server, scope, jti, at);
    AssertionTimes(env, subject, server, scope, jti, at);
    ClientIDIsNoClaim(app);
    Jwt.OrdinaryRoundTrip(env.lib, key, keys, env.issuer, c, AppName(app), ID_JAG, now);
  }

  function TenantOf(answer: Jwt.Result): string {
    if answer.Accepted? then CS.TextOf(answer.claims, "tenant_id") else ""
  }

  predicate IssuedFor(env: Env, v: Vault, key: Jwt.PrivateKey, req: ExchangeRequest, answer: Jwt.Result, jti: string, at: int,
                      m: MCPServer, reply: ExchangeReply)
  {
    && answer.Accepted? && reply.Assertion?
    && (m.scopes != [] ==> Scopes.Within(Words.Fields(reply.scope), m.scopes))
    && (req.subjectKind.AccessToken? ==> LiveAccess(v, env.hashOf(req.subjectToken), at))
    && Some(reply.token) == Jwt.SignTyped(env.lib, key, AssertionClaims(env, answer.claims, m, reply.scope, jti, at),
                                          AppName(CS.TextOf(answer.claims, "aud")), ID_JAG)
  }

  function AppName(app: string): CS.Object {
    map["client_id" := CS.Str(app)]
  }

  lemma ClientIDIsNoClaim(app: string)
    ensures CS.Foreign(AppName(app))
  {
    CS.LowerFolds("client_id");
  }

  // ---- Redeeming ----

  datatype RedeemRequest = RedeemRequest(assertion: string, creds: Grants.Creds, scope: string)

  datatype RedeemReply = NotRedeemed(why: Refusal) | Redeemed(access: string, scope: string)

  datatype Gate = Stop(why: Refusal) | Go(clientID: string, tenantID: string, idp: TrustedIDP)

  /** Everything checked before the signature. */
  function GateFor(env: Env, req: RedeemRequest): Gate {
    if req.assertion == "" then Stop(InvalidRequest)
    else if TypOf(env.lib, req.assertion) != Some(ID_JAG) then Stop(InvalidGrant)
    else if req.creds.BadCreds? || req.creds.clientID == "" || req.creds.clientID !in env.clients then Stop(InvalidClient)
    else
      var tenantID, iss := env.clients[req.creds.clientID], IssuerOf(env.lib, req.assertion);
      if tenantID == "" || iss == "" then Stop(InvalidGrant)
      else
        var idp := IDPFor(Listed(env.idps, tenantID), iss);
        if idp.None? then Stop(InvalidGrant) else Go(req.creds.clientID, tenantID, idp.value)
  }

  /** The verified assertion is meant for this server and this client, and names a subject and a jti. */
  predicate Addressed(env: Env, clientID: string, r: Option<Jwt.Result>) {
    && Accepts(r)
    && CS.TextOf(r.value.claims, "aud") == env.issuer && CS.RawText(r.value.raw, "client_id") == clientID
    && CS.TextOf(r.value.claims, "sub") != "" && CS.TextOf(r.value.claims, "jti") != ""
  }

  datatype State = State(vault: Vault, used: Records)

  /** The session and the single access token a redemption leaves; no refresh token. */
  function Minted(v: Vault, sub: string, tenantID: string, clientID: string, scope: string, ids: Grants.Fresh, now: int): Vault {
    v.(sessions := v.sessions[ids.sessionID := Session(ids.sessionID, tenantID, sub, "low", false, now, now, now + SESSION_TTL, None)],
       tokens := v.tokens[ids.access := Token(ids.access, ids.sessionID, sub, tenantID, clientID, ids.familyID, Access, scope, now, now + ACCESS_TTL, None)])
  }

  /** `r` is the verification answer, `at` the instant the jti is burned, `later` the instant the token is minted. The
      jti is burned before the scopes are looked at. */
  function Redeem(env: Env, s: State, req: RedeemRequest, r: Option<Jwt.Result>, ids: Grants.Fresh, at: int, later: int): (State, RedeemReply) {
    var gate := GateFor(env, req);
    if gate.Stop? then (s, NotRedeemed(gate.why))
    else if !Addressed(env, gate.clientID, r) then (s, NotRedeemed(InvalidGrant))
    else
      var c := r.value.claims;
      var (used, ok) := Burnt(s.used, CS.TextOf(c, "jti"), Jwt.UnixTime(c.exp), at);
      var s1 := s.(used := used);
      if !ok then (s1, NotRedeemed(InvalidGrant))
      else
        var scopes := Scopes.RedeemScopes(CS.TextOf(c, "scope"), req.scope, gate.idp.scopes);
        if scopes.None? then (s1, NotRedeemed(InvalidScope))
        else
          (s1.(vault := Minted(s1.vault, CS.TextOf(c, "sub"), gate.tenantID, gate.clientID, Words.Join(scopes.value), ids, later)),
           Redeemed(ids.access, Words.Join(scopes.value)))
  }

  /** Exactly what passes the gate: an ID-JAG, from a registered client bound to a tenant, whose issuer is an enabled
      trusted provider of that tenant. */
  lemma GateIff(env: Env, req: RedeemRequest)
    ensures var gate := GateFor(env, req);
            && (gate.Go? <==>
                  && req.assertion != "" && TypOf(env.lib, req.assertion) == Some("oauth-id-jag+jwt")
                  && req.creds.Creds? && req.creds.clientID != "" && req.creds.clientID in env.clients && env.clients[req.creds.clientID] != ""
                  && IssuerOf(env.lib, req.assertion) != ""
                  && exists p :: p in Listed(env.idps, env.clients[req.creds.clientID]) && p.enabled && p.issuer == IssuerOf(env.lib, req.assertion))
            && (gate.Go? ==>
                  && gate.clientID == req.creds.clientID && gate.tenantID == env.clients[req.creds.clientID]
                  && gate.idp in Listed(env.idps, gate.tenantID) && gate.idp.enabled && gate.idp.issuer == IssuerOf(env.lib, req.assertion))
  {
    if req.creds.Creds? && req.creds.clientID in env.clients {
      var idps := Listed(env.idps, env.clients[req.creds.clientID]);
      IDPForIsEnabled(idps, IssuerOf(env.lib, req.assertion));
      assert forall p :: p in idps ==> exists i :: 0 <= i < |idps| && idps[i] == p;
    }
  }

  /** A redemption adds one session and one access token, both of the assertion's subject in the client's tenant, and
      nothing else: in particular no refresh token. */
  lemma RedeemedToken(env: Env, s: State, req: RedeemRequest, r: Option<Jwt.Result>, ids: Grants.Fresh, at: int, later: int)
    ensures var (s', reply) := Redeem(env, s, req, r, ids, at, later);
            if !reply.Redeemed? then s'.vault == s.vault
            else
              && GateFor(env, req).Go? && req.creds.Creds? && req.creds.clientID in env.clients
              && Accepts(r) && CS.TextOf(r.value.claims, "aud") == env.issuer && CS.RawText(r.value.raw, "client_id") == req.creds.clientID
              && CS.TextOf(r.value.claims, "sub") != "" && CS.TextOf(r.value.claims, "jti") != ""
              && reply.access == ids.access
              && s'.vault.tokens.Keys == s.vault.tokens.Keys + {ids.access} && s'.vault.codes == s.vault.codes
              && (forall h :: h in s.vault.tokens && h != ids.access ==> s'.vault.tokens[h] == s.vault.tokens[h])
              && s'.vault.sessions.Keys == s.vault.sessions.Keys + {ids.sessionID}
              && var t, sess := s'.vault.tokens[ids.access], s'.vault.sessions[ids.sessionID];
                 && t.kind.Access? && Unrevoked(t) && t.expiresAt == later + 3600 * SECOND && t.clientID == req.creds.clientID
                 && t.sessionID == ids.sessionID && sess.invalidatedAt.None? && sess.riskLevel == "low" && !sess.stepUp && sess.createdAt == later
                 && sess.expiresAt == later + 3600 * SECOND
                 && t.tenantID == sess.tenantID == env.clients[req.creds.clientID]
                 && t.userID == sess.userID == CS.TextOf(r.value.claims, "sub")
  {
  }

  class RedemptionHandlers {
    const env: Env
    const store: MemStorage
    const jtis: JTIStore

    constructor (env: Env)
      ensures store.View() == Vault(map[], map[], map[]) && jtis.used == map[] && this.env == env && fresh(store) && fresh(jtis)
    {
      this.env := env;
      store := new MemStorage();
      jtis := new JTIStore();
    }

    /** The gate in the order the checks are made. */
    method Admit(req: RedeemRequest) returns (gate: Gate)
      ensures gate == GateFor(env, req)
    {
      if req.assertion == "" {
        return Stop(InvalidRequest);
      }
      if TypOf(env.lib, req.assertion) != Some(ID_JAG) {
        return Stop(InvalidGrant);
      }
      if req.creds.BadCreds? || req.creds.clientID == "" {
        return Stop(InvalidClient);
      }
      if req.creds.clientID !in env.clients {
        return Stop(InvalidClient);
      }
      var tenantID := env.clients[req.creds.clientID];
      if tenantID == "" {
        return Stop(InvalidGrant);
      }
      var iss := IssuerOf(env.lib, req.assertion);
      if iss == "" {
        return Stop(InvalidGrant);
      }
      var idp := FindTrustedIDP(env, tenantID, iss);
      return if idp.None? then Stop(InvalidGrant) else Go(req.creds.clientID, tenantID, idp.value);
    }

    method HandleJWTBearerGrant(req: RedeemRequest, r: Option<Jwt.Result>, ids: Grants.Fresh, at: int, later: int) returns (reply: RedeemReply)
      modifies store, jtis
      ensures (State(store.View(), jtis.used), reply) == Redeem(env, old(State(store.View(), jtis.used)), req, r, ids, at, later)
    {
      var gate := Admit(req);
      if gate.Stop? {
        return NotRedeemed(gate.why);
      }
      if !Addressed(env, gate.clientID, r) {
        return NotRedeemed(InvalidGrant);
      }
      var c := r.value.claims;
      var ok := jtis.RedeemIDJAGJTI(CS.TextOf(c, "jti"), Jwt.UnixTime(c.exp), at);
      if !ok {
        return NotRedeemed(InvalidGrant);
      }
      var granted := Scopes.NarrowScopes(CS.TextOf(c, "scope"), req.scope, gate.idp.scopes);
      if granted.None? {
        return NotRedeemed(InvalidScope);
      }
      var scope, sub := Words.Join(granted.value), CS.TextOf(c, "sub");
      store.CreateSession(Session(ids.sessionID, gate.tenantID, sub, "low", false, later, later, later + SESSION_TTL, None));
      store.PutToken(Token(ids.access, ids.sessionID, sub, gate.tenantID, gate.clientID, ids.familyID, Access, scope, later, later + ACCESS_TTL, None));
      return Redeemed(ids.access, scope);
    }
  }

  /** Why none is redeemed: the assertion is missing; the client is not a registered one; the assertion lacks a scope that
      the request names, though its jti is then spent all the same. Everything else is an invalid grant. */
  lemma RedemptionRefusals(env: Env, s: State, req: RedeemRequest, r: Option<Jwt.Result>, ids: Grants.Fresh, at: int, later: int)
    ensures var (s', reply) := Redeem(env, s, req, r, ids, at, later);
            && (reply == NotRedeemed(InvalidRequest) <==> req.assertion == "")
            && (reply == NotRedeemed(InvalidClient) ==> req.creds.BadCreds? || req.creds.clientID == "" || req.creds.clientID !in env.clients)
            && (reply == NotRedeemed(InvalidScope) ==>
                  Accepts(r) && CS.TextOf(r.value.claims, "jti") in s'.used &&
                  !Scopes.Within(Words.Fields(req.scope), Words.Fields(CS.TextOf(r.value.claims, "scope"))))
            && (reply.Redeemed? || reply.why in {InvalidRequest, InvalidClient, InvalidScope, InvalidGrant})
            && (reply == NotRedeemed(InvalidGrant) && Accepts(r) && CS.TextOf(r.value.claims, "jti") !in s.used ==> s' == s)
  {
    if Accepts(r) {
      Scopes.RedeemedScopes(CS.TextOf(r.value.claims, "scope"), req.scope, []);
      if GateFor(env, req).Go? {
        Scopes.RedeemedScopes(CS.TextOf(r.value.claims, "scope"), req.scope, GateFor(env, req).idp.scopes);
      }
    }
  }

  /** A redeemed assertion is authentic under the keys that answered for its provider, timely, and issued by that
      provider; under that provider's own key, and unless its signature is forged, it is one of its assertions. */
  lemma RedeemedWasIssued(env: Env, s: State, req: RedeemRequest, keys: KeySet, ids: Grants.Fresh, now: int, at: int, later: int,
                          idpKey: Jwt.PrivateKey, issued: set<Jwt.Issue>)
    requires var r := Answer(env.lib, Some(keys), IssuerOf(env.lib, req.assertion), req.assertion, now);
             Redeem(env, s, req, r, ids, at, later).1.Redeemed?
    ensures var c := Jwt.Verify(env.lib, keys, IssuerOf(env.lib, req.assertion), req.assertion, now).claims;
            && Jwt.Authentic(env.lib, keys, req.assertion) && Jwt.Timely(c, now) && CS.TextOf(c, "iss") == IssuerOf(env.lib, req.assertion)
    ensures Jwt.Lawful(env.lib) && !Jwt.Forged(env.lib, idpKey, issued, req.assertion) && (forall kid :: kid in keys ==> keys[kid] == idpKey.pub) ==>
              exists i :: i in issued && CS.Payload(env.lib.numbers, i.c, i.extra).Some? &&
                          Jwt.DocOf(env.lib, req.assertion) == CS.Payload(env.lib.numbers, i.c, i.extra)
  {
    var issuer := IssuerOf(env.lib, req.assertion);
    var r := Jwt.Verify(env.lib, keys, issuer, req.assertion, now);
    GateIff(env, req);
    Jwt.AcceptedIff(env.lib, keys, issuer, req.assertion, now, r.claims, r.raw);
    if Jwt.Lawful(env.lib) && !Jwt.Forged(env.lib, idpKey, issued, req.assertion) && (forall kid :: kid in keys ==> keys[kid] == idpKey.pub) {
      Jwt.AuthenticWasIssued(env.lib, idpKey, keys, issued, req.assertion);
    }
  }

  /** The jti gate over any history of attempts: an assertion that passes the earlier checks and whose scopes fit is
      redeemed if and only if no unexpired redemption of its jti is on record; otherwise nothing is minted. */
  lemma RedeemedOnce(env: Env, s: State, h: History, req: RedeemRequest, r: Option<Jwt.Result>, ids: Grants.Fresh, at: int, later: int)
    requires s.used == RecordsAfter(h) && Ordered(h, at)
    requires GateFor(env, req).Go? && Addressed(env, GateFor(env, req).clientID, r)
    ensures var jti := CS.TextOf(r.value.claims, "jti");
            var carried := CS.TextOf(r.value.claims, "scope");
            var (s', reply) := Redeem(env, s, req, r, ids, at, later);
            && (reply.Redeemed? <==> !Blocked(h, jti, at) && Scopes.Within(Words.Fields(req.scope), Words.Fields(carried)))
            && (!reply.Redeemed? ==> s'.vault == s.vault)
            && s'.used == RecordsAfter(Attempt(h, jti, Jwt.UnixTime(r.value.claims.exp), at))
  {
    SingleUse(h, CS.TextOf(r.value.claims, "jti"), Jwt.UnixTime(r.value.claims.exp), at);
    Scopes.RedeemedScopes(CS.TextOf(r.value.claims, "scope"), req.scope, GateFor(env, req).idp.scopes);
  }

  predicate OneExpiry(h: History, jti: string, expiresAt: int) {
    h.Attempt? ==> (h.jti == jti ==> h.expiresAt == expiresAt) && OneExpiry(h.earlier, jti, expiresAt)
  }

  predicate RedeemedBefore(h: History, jti: string) {
    h.Attempt? && ((h.jti == jti && Succeeded(h)) || RedeemedBefore(h.earlier, jti))
  }

  lemma {:induction false} BlockedUntilExpiry(h: History, jti: string, expiresAt: int, now: int)
    requires OneExpiry(h, jti, expiresAt)
    ensures Blocked(h, jti, now) <==> RedeemedBefore(h, jti) && now <= expiresAt
  {
    if h.Attempt? {
      BlockedUntilExpiry(h.earlier, jti, expiresAt, now);
    }
  }

  /** A token accepted once is accepted at a later instant if and only if its deadline has not passed, with the same
      claims. */
  lemma AcceptedAgain(lib: Jwt.Library, keys: KeySet, issuer: string, token: string, first: int, now: int)
    requires Jwt.Verify(lib, keys, issuer, token, first).Accepted? && first <= now
    ensures var r0, r := Jwt.Verify(lib, keys, issuer, token, first), Jwt.Verify(lib, keys, issuer, token, now);
            if r0.claims.exp == 0 || now <= Jwt.Deadline(r0.claims.exp) then r == r0 else r.Refused?
  {
  }

  /** Over every history in which the jti always came with the same expiry: an assertion that verified at some instant,
      for this server and client, is redeemed later if and only if it still verifies and either its expiry has passed
      or it was never redeemed. So it can be redeemed any number of times within the leeway after its expiry, and
      without end when it carries none. */
  lemma SecondRedemption(env: Env, s: State, h: History, req: RedeemRequest, keys: KeySet, ids: Grants.Fresh, first: int, now: int, at: int, later: int)
    requires s.used == RecordsAfter(h) && Ordered(h, at) && GateFor(env, req).Go? && first <= now
    requires Addressed(env, GateFor(env, req).clientID, Answer(env.lib, Some(keys), GateFor(env, req).idp.issuer, req.assertion, first))
    requires var c := Jwt.Verify(env.lib, keys, GateFor(env, req).idp.issuer, req.assertion, first).claims;
             && OneExpiry(h, CS.TextOf(c, "jti"), Jwt.UnixTime(c.exp))
             && Scopes.Within(Words.Fields(req.scope), Words.Fields(CS.TextOf(c, "scope")))
    ensures var issuer := GateFor(env, req).idp.issuer;
            var c := Jwt.Verify(env.lib, keys, issuer, req.assertion, first).claims;
            && Redeem(env, s, req, Answer(env.lib, Some(keys), issuer, req.assertion, now), ids, at, later).1.Redeemed?
            <==>
            && (c.exp == 0 || now <= Jwt.Deadline(c.exp))
            && (Jwt.UnixTime(c.exp) < at || !RedeemedBefore(h, CS.TextOf(c, "jti")))
  {
    var issuer := GateFor(env, req).idp.issuer;
    var c := Jwt.Verify(env.lib, keys, issuer, req.assertion, first).claims;
    var r := Answer(env.lib, Some(keys), issuer, req.assertion, now);
    AcceptedAgain(env.lib, keys, issuer, req.assertion, first, now);
    if c.exp == 0 || now <= Jwt.Deadline(c.exp) {
      RedeemedOnce(env, s, h, req, r, ids, at, later);
      BlockedUntilExpiry(h, CS.TextOf(c, "jti"), Jwt.UnixTime(c.exp), at);
    }
  }

  /** So single use is not kept for the whole life of an assertion: this one is redeemed ten seconds before its expiry,
      and again ten and twenty seconds after it. */
  lemma ReplayWithinLeeway(raw: CS.Object)
    ensures var c := CS.Claims(map["sub" := "u", "iss" := "i", "jti" := "j"], 1000, 700, []);
            && (forall now :: 990 * SECOND <= now <= 1020 * SECOND ==> Jwt.CheckWindow(c, raw, "i", now).Accepted?)
            && var once := Attempt(NoneYet, "j", Jwt.UnixTime(c.exp), 990 * SECOND);
               var twice := Attempt(once, "j", Jwt.UnixTime(c.exp), 1010 * SECOND);
               Succeeded(once) && Succeeded(twice) && Succeeded(Attempt(twice, "j", Jwt.UnixTime(c.exp), 1020 * SECOND))
  {
    var e := 1000 * SECOND;
    Jwt.UnixTimeIsExact(1000);
    Jwt.UnixTimeIsExact(700);
    var once := Attempt(NoneYet, "j", e, 990 * SECOND);
    SingleUse(once, "j", e, 1010 * SECOND);
    SingleUse(Attempt(once, "j", e, 1010 * SECOND), "j", e, 1020 * SECOND);
  }

  /** A sweep is invisible to any single later token exchange. */
  lemma SweepIsInvisibleToIssuance(env: Env, v: Vault, key: Jwt.PrivateKey, req: ExchangeRequest, answer: Jwt.Result, jti: string, sweep: int, at: int)
    requires sweep <= at
    ensures Exchange(env, PurgedVault(v, sweep), key, req, answer, jti, at) == Exchange(env, v, key, req, answer, jti, at)
  {
    var hash := env.hashOf(req.subjectToken);
    assert LiveAccess(PurgedVault(v, sweep), hash, at) == LiveAccess(v, hash, at);
  }

  /** An assertion signed here and accepted under the signer's key reads as the text claims that were signed. */
  lemma AssertionReads(env: Env, key: Jwt.PrivateKey, keys: KeySet, c: CS.Claims, app: string, token: string, now: int)
    requires Jwt.Lawful(env.lib) && env.lib.keyID(key.pub) in keys && keys[env.lib.keyID(key.pub)] == key.pub
    requires CS.Normal(c) && Some(token) == Jwt.SignTyped(env.lib, key, c, AppName(app), ID_JAG)
    requires Jwt.Verify(env.lib, keys, env.issuer, token, now).Accepted?
    ensures Jwt.Verify(env.lib, keys, env.issuer, token, now).claims.text == c.text
  {
    ClientIDIsNoClaim(app);
    Jwt.SignedTokenReads(env.lib, key, keys, env.issuer, c, AppName(app), ID_JAG, now);
    CS.ForeignExtrasLeaveClaims(env.lib.numbers, c, AppName(app));
  }

  /** From issuance to redemption: an assertion issued here for a server with a non-empty list, verified with this
      server's published key, yields an access token for the subject whose scopes lie within the server's list, within
      the request if it names any, and within the registry's cap if there is one. */
  lemma ScopesEndToEnd(env: Env, resource: Env, v: Vault, s: State, key: Jwt.PrivateKey, keys: KeySet, req: ExchangeRequest,
                       subject: Jwt.Result, jti: string, m: MCPServer, redeem: RedeemRequest, ids: Grants.Fresh,
                       issuedAt: int, now: int, at: int, later: int)
    requires Jwt.Lawful(env.lib) && env.lib.keyID(key.pub) in keys && keys[env.lib.keyID(key.pub)] == key.pub
    requires IssuedFor(env, v, key, req, subject, jti, issuedAt, m, Exchange(env, v, key, req, subject, jti, issuedAt))
    requires redeem.assertion == Exchange(env, v, key, req, subject, jti, issuedAt).token
    requires m.scopes != [] && Words.AllWords(m.scopes)
    requires Redeem(resource, s, redeem, Answer(env.lib, Some(keys), env.issuer, redeem.assertion, now), ids, at, later).1.Redeemed?
    ensures var (s', reply) := Redeem(resource, s, redeem, Answer(env.lib, Some(keys), env.issuer, redeem.assertion, now), ids, at, later);
            && ids.access in s'.vault.tokens && s'.vault.tokens[ids.access].scope == reply.scope
            && s'.vault.tokens[ids.access].userID == CS.TextOf(subject.claims, "sub")
            && Confined(Words.Fields(reply.scope), m.scopes, Words.Fields(redeem.scope), GateFor(resource, redeem).idp.scopes)
  {
    var scope := Exchange(env, v, key, req, subject, jti, issuedAt).scope;
    var c := AssertionClaims(env, subject.claims, m, scope, jti, issuedAt);
    AssertionClaimsNormal(env, subject.claims, m, scope, jti, issuedAt);
    AssertionReads(env, key, keys, c, CS.TextOf(subject.claims, "aud"), redeem.assertion, now);
    RedeemedConfined(scope, redeem.scope, m.scopes, GateFor(resource, redeem).idp.scopes);
  }

  predicate Confined(granted: seq<string>, list: seq<string>, requested: seq<string>, cap: seq<string>) {
    && Scopes.Within(granted, list)
    && (requested != [] ==> Scopes.Within(granted, requested))
    && (cap != [] ==> Scopes.Within(granted, cap))
  }

  lemma RedeemedConfined(scope: string, requestScope: string, list: seq<string>, cap: seq<string>)
    requires Scopes.Within(Words.Fields(scope), list) && Scopes.RedeemScopes(scope, requestScope, cap).Some?
    ensures Confined(Words.Fields(Words.Join(Scopes.RedeemScopes(scope, requestScope, cap).value)), list, Words.Fields(requestScope), cap)
  {
    var granted := Scopes.RedeemScopes(scope, requestScope, cap).value;
    Scopes.RedeemedScopes(scope, requestScope, cap);
    assert forall i :: 0 <= i < |granted| ==> granted[i] in granted;
  }
}
