/** The token endpoint's code and refresh grants, /revoke, /userinfo and the session endpoints
    (services/authentication-service/internal/oidc.go and sessions.go), as steps on the vault. */
module Grants {
  import opened Common
  import opened TokenVault
  import Words

  /** Outcome of client authentication; an empty id means the caller did not identify itself. */
  datatype Creds = BadCreds | Creds(clientID: string)

  /** Fresh identifiers a grant may use: session, family, and the two token hashes. */
  datatype Fresh = Fresh(sessionID: string, familyID: string, access: string, refresh: string)

  datatype IDToken = IDToken(sub: string, aud: string, nonce: string, acr: string, amr: seq<string>, transactionID: string)

  datatype TokenReply =
    | InvalidRequest | InvalidClient | InvalidGrant | FamilyRevoked(count: nat)
    | Issued(access: string, refresh: string, scope: string, idToken: Option<IDToken>)

  /** S256: the transformation of the verifier that must equal the stored challenge (RFC 7636, section 4.6). */
  type Transform = string -> string

  predicate VerifyPKCE(s256: Transform, challenge: string, verifier: string) {
    challenge != "" && verifier != "" && s256(verifier) == challenge
  }

  // ---- The grants on values ----

  function NewSession(ac: AuthCode, id: string, now: int): Session {
    Session(id, ac.tenantID, ac.userID, "low", ac.amr != [], now, now, now + SESSION_TTL, None)
  }

  function PairIssued(v: Vault, sess: Session, scope: string, clientID: string, familyID: string, ids: Fresh, now: int): Vault {
    v.(tokens := v.tokens
         [ids.access := Token(ids.access, sess.id, sess.userID, sess.tenantID, clientID, familyID, Access, scope, now, now + ACCESS_TTL, None)]
         [ids.refresh := Token(ids.refresh, sess.id, sess.userID, sess.tenantID, clientID, familyID, Refresh, scope, now, now + REFRESH_TTL, None)])
  }

  function IDTokenFor(ac: AuthCode): Option<IDToken> {
    if "openid" in Words.Fields(ac.scope) then
      Some(IDToken(ac.userID, ac.clientID, ac.nonce, ac.acr, ac.amr, ac.transactionID))
    else None
  }

  /** Everything a stored code must pass to be redeemed. */
  predicate CodeAcceptable(ac: AuthCode, redirectURI: string, verifier: string, clientID: string, s256: Transform, now: int) {
    && (clientID != "" ==> clientID == ac.clientID)
    && now - ac.createdAt <= CODE_TTL
    && (redirectURI != "" ==> redirectURI == ac.redirectURI)
    && VerifyPKCE(s256, ac.codeChallenge, verifier)
  }

  /** `now` stamps the session, `later` the tokens: the handler reads the clock twice. */
  function CodeGrant(v: Vault, code: string, redirectURI: string, verifier: string, creds: Creds, s256: Transform,
                     ids: Fresh, now: int, later: int): (Vault, TokenReply)
  {
    if code == "" || verifier == "" then (v, InvalidRequest)
    else if creds.BadCreds? then (v, InvalidClient)
    else if code !in v.codes then (v, InvalidGrant)
    else
      var ac := v.codes[code];
      var v1 := v.(codes := v.codes - {code});
      if creds.clientID != "" && creds.clientID != ac.clientID then (v1, InvalidClient)
      else if !CodeAcceptable(ac, redirectURI, verifier, creds.clientID, s256, now) then (v1, InvalidGrant)
      else
        var sess := NewSession(ac, ids.sessionID, now);
        var v2 := v1.(sessions := v1.sessions[sess.id := sess]);
        (PairIssued(v2, sess, ac.scope, ac.clientID, ids.familyID, ids, later),
         Issued(ids.access, ids.refresh, ac.scope, IDTokenFor(ac)))
  }

  predicate Known(v: Vault, hash: string, kind: TokenKind) {
    hash in v.tokens && v.tokens[hash].kind == kind
  }

  /** Everything an unrevoked refresh token must pass to be rotated. */
  predicate Rotatable(v: Vault, t: Token, clientID: string, now: int) {
    && now <= t.expiresAt
    && (clientID != "" && t.clientID != "" ==> clientID == t.clientID)
    && SessionIn(v, t.tenantID, t.sessionID).Some?
    && SessionIn(v, t.tenantID, t.sessionID).value.invalidatedAt.None?
  }

  function Audience(t: Token, clientID: string): string {
    if t.clientID == "" then clientID else t.clientID
  }

  function RefreshGrant(v: Vault, hash: string, creds: Creds, ids: Fresh, now: int, later: int): (Vault, TokenReply) {
    if hash == "" then (v, InvalidRequest)
    else if creds.BadCreds? then (v, InvalidClient)
    else if !Known(v, hash, Refresh) then (v, InvalidGrant)
    else
      var t := v.tokens[hash];
      if !Unrevoked(t) then
        (RevokedFamilies(v, OneFamily(t.familyID), now), FamilyRevoked(|LiveIn(v, OneFamily(t.familyID))|))
      else if !Rotatable(v, t, creds.clientID, now) then (v, InvalidGrant)
      else
        var sess := v.sessions[t.sessionID].(expiresAt := now + SESSION_TTL, updatedAt := now);
        var v1 := v.(sessions := v.sessions[t.sessionID := sess]);
        (PairIssued(RevokedByHash(v1, hash, now), sess, t.scope, Audience(t, creds.clientID), t.familyID, ids, later),
         Issued(ids.access, ids.refresh, t.scope, None))
  }

  /** Whether /userinfo answers: the bearer verifies as a JWT, its record is a live access token, and its user exists. */
  predicate UserInfoAccepts(v: Vault, hash: string, jwtValid: bool, userExists: bool, now: int) {
    jwtValid && Known(v, hash, Access) && Unrevoked(v.tokens[hash]) && now <= v.tokens[hash].expiresAt && userExists
  }

  /** What the session endpoints do to a session that has not been invalidated. */
  datatype SessionChange = Extend | Invalidate | Upgrade(riskLevel: string, stepUp: bool)

  function Changed(s: Session, change: SessionChange, now: int): Session {
    match change
    case Extend => s.(expiresAt := now + SESSION_TTL)
    case Invalidate => s.(invalidatedAt := Some(now))
    case Upgrade(risk, stepUp) => s.(riskLevel := if risk == "" then s.riskLevel else risk, stepUp := stepUp)
  }

  function SessionChanged(v: Vault, tenantID: string, id: string, change: SessionChange, now: int): Vault {
    var found := SessionIn(v, tenantID, id);
    if found.None? || found.value.invalidatedAt.Some? then v
    else v.(sessions := v.sessions[id := Changed(found.value, change, now).(updatedAt := now)])
  }

  /** Sessions are stored under their own id. */
  predicate WellKeyed(v: Vault) {
    forall id :: id in v.sessions ==> v.sessions[id].id == id
  }

  // ---- What the grants promise ----

  /** The reply hands out the pair under its own names. */
  predicate HandsOut(reply: TokenReply, after: Vault, scope: string) {
    && reply.Issued? && Known(after, reply.access, Access) && Known(after, reply.refresh, Refresh)
    && reply.scope == scope == after.tokens[reply.access].scope == after.tokens[reply.refresh].scope
  }

  /** The vault gained exactly this pair, both for the session: an access token for an hour, a refresh token for 30 days. */
  predicate PairAdded(before: Vault, after: Vault, sess: Session, familyID: string, ids: Fresh, scope: string, clientID: string, at: int) {
    && after.tokens.Keys == before.tokens.Keys + {ids.access, ids.refresh}
    && Known(after, ids.access, Access) && Known(after, ids.refresh, Refresh)
    && after.tokens[ids.access].expiresAt == at + 3600 * SECOND && after.tokens[ids.refresh].expiresAt == at + 30 * 24 * 3600 * SECOND
    && forall h :: h in {ids.access, ids.refresh} ==>
         var t := after.tokens[h];
         && Unrevoked(t) && t.familyID == familyID && t.issuedAt == at && t.scope == scope && t.clientID == clientID
         && t.sessionID == sess.id && t.userID == sess.userID && t.tenantID == sess.tenantID
  }

  /** A code is exchanged if and only if it is stored, at most five minutes old, presented with its own client and
      redirect URI where they are given, and with the verifier of its challenge. The tokens belong to a new session of
      the code's user; an ID token with the code's nonce comes with the openid scope only. */
  lemma ExchangedIff(v: Vault, code: string, uri: string, verifier: string, creds: Creds, s256: Transform, ids: Fresh, now: int, later: int)
    requires ids.access != ids.refresh
    ensures var (v', reply) := CodeGrant(v, code, uri, verifier, creds, s256, ids, now, later);
            && (reply.Issued? <==>
                  && code != "" && verifier != "" && creds.Creds? && code in v.codes
                  && var ac := v.codes[code];
                     && (creds.clientID == "" || creds.clientID == ac.clientID) && (uri == "" || uri == ac.redirectURI)
                     && now <= ac.createdAt + 300 * SECOND && ac.codeChallenge != "" && s256(verifier) == ac.codeChallenge)
            && (reply.Issued? ==>
                  var ac := v.codes[code];
                  && ids.sessionID in v'.sessions && PairAdded(v, v', v'.sessions[ids.sessionID], ids.familyID, ids, ac.scope, ac.clientID, later)
                  && HandsOut(reply, v', ac.scope) && {reply.access, reply.refresh} == {ids.access, ids.refresh}
                  && v'.sessions[ids.sessionID].tenantID == ac.tenantID && v'.sessions[ids.sessionID].invalidatedAt.None?
                  && (v'.sessions[ids.sessionID].stepUp <==> ac.amr != []) && v'.codes == v.codes - {code}
                  && (forall h :: h in v.tokens && h != ids.access && h != ids.refresh ==> v'.tokens[h] == v.tokens[h])
                  && v'.sessions[ids.sessionID].userID == ac.userID && v'.sessions[ids.sessionID].expiresAt == now + 3600 * SECOND
                  && (reply.idToken.Some? <==> "openid" in Words.Fields(ac.scope))
                  && (reply.idToken.Some? ==>
                        reply.idToken.value == IDToken(ac.userID, ac.clientID, ac.nonce, ac.acr, ac.amr, ac.transactionID)))
            && (!reply.Issued? ==> v'.tokens == v.tokens && v'.sessions == v.sessions)
  {
  }

  /** A refresh token is rotated if and only if it is on record, unrevoked and unexpired, presented by its client where
      both are named, and its session is stored and not invalidated. It is then revoked, its session extended, and the
      new pair joins its family. */
  lemma RotatedIff(v: Vault, hash: string, creds: Creds, ids: Fresh, now: int, later: int)
    requires ids.access != ids.refresh && hash != ids.access && hash != ids.refresh && WellKeyed(v)
    ensures var (v', reply) := RefreshGrant(v, hash, creds, ids, now, later);
            && (reply.Issued? <==>
                  && hash != "" && creds.Creds? && Known(v, hash, Refresh)
                  && var t := v.tokens[hash];
                     && Unrevoked(t) && now <= t.expiresAt && (creds.clientID == "" || t.clientID == "" || creds.clientID == t.clientID)
                     && t.sessionID in v.sessions && v.sessions[t.sessionID].tenantID == t.tenantID
                     && v.sessions[t.sessionID].invalidatedAt.None?)
            && (reply.FamilyRevoked? <==> hash != "" && creds.Creds? && Known(v, hash, Refresh) && !Unrevoked(v.tokens[hash]))
            && (!reply.Issued? && !reply.FamilyRevoked? ==> v' == v)
            && (reply.Issued? ==>
                  var t := v.tokens[hash];
                  && PairAdded(v, v', v.sessions[t.sessionID], t.familyID, ids, t.scope, if t.clientID == "" then creds.clientID else t.clientID, later)
                  && HandsOut(reply, v', t.scope) && {reply.access, reply.refresh} == {ids.access, ids.refresh} && reply.idToken.None?
                  && v'.tokens[hash] == t.(revokedAt := Some(now)) && v'.codes == v.codes
                  && (forall h :: h in v.tokens && h != hash && h != ids.access && h != ids.refresh ==> v'.tokens[h] == v.tokens[h])
                  && v'.sessions == v.sessions[t.sessionID := v.sessions[t.sessionID].(expiresAt := now + 3600 * SECOND, updatedAt := now)])
  {
  }

  /** What a client can do with a handed-out pair, next, at any instant from its issuance on: the access token is answered
      at /userinfo until an hour has passed, the refresh token is granted, with the same scope, until 30 days have passed,
      and neither serves as the other. */
  predicate PairWorks(v: Vault, reply: TokenReply, clientID: string, issuedAt: int, next: Fresh, now: int, later: int)
    requires reply.Issued?
  {
    var refreshed := RefreshGrant(v, reply.refresh, Creds(clientID), next, now, later).1;
    && (UserInfoAccepts(v, reply.access, true, true, now) <==> now <= issuedAt + 3600 * SECOND)
    && (refreshed.Issued? <==> now <= issuedAt + 30 * 24 * 3600 * SECOND)
    && (refreshed.Issued? ==> refreshed.scope == reply.scope)
    && !UserInfoAccepts(v, reply.refresh, true, true, now)
    && !RefreshGrant(v, reply.access, Creds(clientID), next, now, later).1.Issued?
  }

  lemma ExchangedPairWorks(v: Vault, code: string, uri: string, verifier: string, creds: Creds, s256: Transform, ids: Fresh, at: int, issuedAt: int,
                           clientID: string, next: Fresh, now: int, later: int)
    requires ids.access != ids.refresh && ids.refresh != ""
    requires CodeGrant(v, code, uri, verifier, creds, s256, ids, at, issuedAt).1.Issued?
    requires clientID == "" || clientID == v.codes[code].clientID
    ensures var (v', reply) := CodeGrant(v, code, uri, verifier, creds, s256, ids, at, issuedAt);
            PairWorks(v', reply, clientID, issuedAt, next, now, later)
  {
  }

  lemma RotatedPairWorks(v: Vault, hash: string, creds: Creds, ids: Fresh, at: int, issuedAt: int, clientID: string, next: Fresh, now: int, later: int)
    requires ids.access != ids.refresh && ids.refresh != "" && WellKeyed(v)
    requires RefreshGrant(v, hash, creds, ids, at, issuedAt).1.Issued?
    requires clientID == "" || clientID == Audience(v.tokens[hash], creds.clientID)
    ensures var (v', reply) := RefreshGrant(v, hash, creds, ids, at, issuedAt);
            PairWorks(v', reply, clientID, issuedAt, next, now, later)
  {
  }

  /** Why a grant is refused: a parameter is missing; the client fails to authenticate or the code is another client's;
      anything else, and in particular an unknown or expired code or token, is an invalid grant. */
  lemma GrantRefusals(v: Vault, code: string, uri: string, verifier: string, creds: Creds, s256: Transform, ids: Fresh, now: int, later: int)
    ensures var r := CodeGrant(v, code, uri, verifier, creds, s256, ids, now, later).1;
            && (r == InvalidRequest <==> code == "" || verifier == "")
            && (r == InvalidClient <==>
                  code != "" && verifier != "" &&
                  (creds.BadCreds? || (creds.clientID != "" && code in v.codes && v.codes[code].clientID != creds.clientID)))
            && (r.Issued? || r == InvalidRequest || r == InvalidClient || r == InvalidGrant)
    ensures var r := RefreshGrant(v, code, creds, ids, now, later).1;
            && (r == InvalidRequest <==> code == "")
            && (r == InvalidClient <==> code != "" && creds.BadCreds?)
            && (r.Issued? || r.FamilyRevoked? || r == InvalidRequest || r == InvalidClient || r == InvalidGrant)
  {
  }

  /** /userinfo answers exactly the bearer of a live, unrevoked access token that verifies, for a user that exists. */
  lemma UserInfoIff(v: Vault, hash: string, jwtValid: bool, userExists: bool, now: int)
    ensures UserInfoAccepts(v, hash, jwtValid, userExists, now) <==>
            && jwtValid && userExists && hash in v.tokens
            && v.tokens[hash].kind.Access? && v.tokens[hash].revokedAt.None? && now <= v.tokens[hash].expiresAt
  {
  }

  /** What the session endpoints do to a stored, valid session of the tenant: one hour from now, the end, or a new risk
      level (kept when none is given) and step-up flag; nothing else of it changes but its stamp. */
  lemma ChangedSession(v: Vault, tenantID: string, id: string, change: SessionChange, now: int)
    requires id in v.sessions && v.sessions[id].tenantID == tenantID && v.sessions[id].invalidatedAt.None?
    ensures var s, v' := v.sessions[id], SessionChanged(v, tenantID, id, change, now);
            && id in v'.sessions && v' == v.(sessions := v.sessions[id := v'.sessions[id]])
            && var t := v'.sessions[id];
               && t.id == s.id && t.tenantID == s.tenantID && t.userID == s.userID && t.createdAt == s.createdAt && t.updatedAt == now
               && (t.invalidatedAt.Some? <==> change.Invalidate?)
               && t.expiresAt == (if change.Extend? then now + 3600 * SECOND else s.expiresAt)
               && t.riskLevel == (if change.Upgrade? && change.riskLevel != "" then change.riskLevel else s.riskLevel)
               && t.stepUp == (if change.Upgrade? then change.stepUp else s.stepUp)
  {
  }

  // ---- The handlers as written ----

  class OIDCHandlers {
    const store: MemStorage
    const s256: Transform

    constructor (s256: Transform)
      ensures store.View() == Vault(map[], map[], map[]) && this.s256 == s256 && fresh(store)
    {
      this.s256 := s256;
      store := new MemStorage();
    }

    method HandleCodeGrant(code: string, redirectURI: string, verifier: string, creds: Creds, ids: Fresh, now: int, later: int)
      returns (reply: TokenReply)
      requires ids.access != ids.refresh
      modifies store
      ensures (store.View(), reply) == CodeGrant(old(store.View()), code, redirectURI, verifier, creds, s256, ids, now, later)
    {
      if code == "" {
        return InvalidRequest;
      }
      if verifier == "" {
        return InvalidRequest;
      }
      if creds.BadCreds? {
        return InvalidClient;
      }
      var found := store.ConsumeAuthCode(code);
      if found.None? {
        assert store.codes == old(store.codes);
        return InvalidGrant;
      }
      var ac := found.value;
      if creds.clientID != "" && creds.clientID != ac.clientID {
        return InvalidClient;
      }
      if now - ac.createdAt > CODE_TTL {
        return InvalidGrant;
      }
      if redirectURI != "" && redirectURI != ac.redirectURI {
        return InvalidGrant;
      }
      if !VerifyPKCE(s256, ac.codeChallenge, verifier) {
        return InvalidGrant;
      }
      var sess := Session(ids.sessionID, ac.tenantID, ac.userID, "low", |ac.amr| > 0, now, now, now + SESSION_TTL, None);
      store.CreateSession(sess);
      IssueTokenPair(sess, ac.scope, ac.clientID, ids.familyID, ids, later);
      return Issued(ids.access, ids.refresh, ac.scope, IDTokenFor(ac));
    }

    method IssueTokenPair(sess: Session, scope: string, clientID: string, familyID: string, ids: Fresh, now: int)
      modifies store
      ensures store.View() == PairIssued(old(store.View()), sess, scope, clientID, familyID, ids, now)
    {
      store.PutToken(Token(ids.access, sess.id, sess.userID, sess.tenantID, clientID, familyID, Access, scope, now, now + ACCESS_TTL, None));
      store.PutToken(Token(ids.refresh, sess.id, sess.userID, sess.tenantID, clientID, familyID, Refresh, scope, now, now + REFRESH_TTL, None));
    }

    method HandleRefreshGrant(hash: string, creds: Creds, ids: Fresh, now: int, later: int) returns (reply: TokenReply)
      requires WellKeyed(store.View())
      modifies store
      ensures (store.View(), reply) == RefreshGrant(old(store.View()), hash, creds, ids, now, later)
    {
      if hash == "" {
        return InvalidRequest;
      }
      if creds.BadCreds? {
        return InvalidClient;
      }
      var found := store.GetTokenByHash(hash);
      if found.None? || found.value.kind != Refresh {
        return InvalidGrant;
      }
      var t := found.value;
      if t.revokedAt.Some? {
        var revoked := store.RevokeTokenFamily(t.familyID, now);
        return FamilyRevoked(revoked);
      }
      if now > t.expiresAt {
        return InvalidGrant;
      }
      if creds.clientID != "" && t.clientID != "" && creds.clientID != t.clientID {
        return InvalidGrant;
      }
      var live := store.GetSession(t.tenantID, t.sessionID);
      if live.None? || live.value.invalidatedAt.Some? {
        return InvalidGrant;
      }
      var sess := live.value.(expiresAt := now + SESSION_TTL);
      var _ := store.UpdateSession(sess, now);
      var _ := store.RevokeTokenByHash(hash, now);
      IssueTokenPair(sess, t.scope, Audience(t, creds.clientID), t.familyID, ids, later);
      return Issued(ids.access, ids.refresh, t.scope, None);
    }

    /** RFC 7009, section 2.2: an unknown token is acknowledged like a known one. */
    method Revoke(hash: string, now: int)
      modifies store
      ensures store.View() == RevokedByHash(old(store.View()), hash, now)
    {
      var _ := store.RevokeTokenByHash(hash, now);
    }

    method UserInfo(hash: string, jwtValid: bool, userExists: bool, now: int) returns (accepted: bool)
      ensures accepted == UserInfoAccepts(store.View(), hash, jwtValid, userExists, now)
    {
      if !jwtValid {
        return false;
      }
      var found := store.GetTokenByHash(hash);
      if found.None? || found.value.kind != Access || found.value.revokedAt.Some? || now > found.value.expiresAt {
        return false;
      }
      return userExists;
    }

    /** POST /v1/sessions/{id}/refresh, /invalidate and /upgrade; a risk level reaches this point checked. */
    method ChangeSession(tenantID: string, id: string, change: SessionChange, now: int) returns (ok: bool)
      requires WellKeyed(store.View())
      modifies store
      ensures store.View() == SessionChanged(old(store.View()), tenantID, id, change, now)
      ensures ok == (SessionIn(old(store.View()), tenantID, id).Some? &&
                     (change.Invalidate? || SessionIn(old(store.View()), tenantID, id).value.invalidatedAt.None?))
    {
      var found := store.GetSession(tenantID, id);
      if found.None? {
        return false;
      }
      var s := found.value;
      if s.invalidatedAt.Some? {
        return change.Invalidate?;
      }
      match change {
        case Extend =>
          s := s.(expiresAt := now + SESSION_TTL);
        case Invalidate =>
          s := s.(invalidatedAt := Some(now));
        case Upgrade(risk, stepUp) =>
          if risk != "" {
            s := s.(riskLevel := risk);
          }
          s := s.(stepUp := stepUp);
      }
      ok := store.UpdateSession(s, now);
    }
  }
}
