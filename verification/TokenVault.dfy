/** Tokens, sessions and authorization codes in memory (services/authentication-service/internal/storage.go). */
module TokenVault {
  import opened Common

  const SESSION_TTL: int := 3600 * SECOND
  const ACCESS_TTL: int := 3600 * SECOND
  const REFRESH_TTL: int := 2592000 * SECOND
  const CODE_TTL: int := 300 * SECOND

  datatype TokenKind = Access | Refresh

  datatype Token = Token(
    hash: string, sessionID: string, userID: string, tenantID: string, clientID: string, familyID: string,
    kind: TokenKind, scope: string, issuedAt: int, expiresAt: int, revokedAt: Option<int>)

  datatype Session = Session(
    id: string, tenantID: string, userID: string, riskLevel: string, stepUp: bool,
    createdAt: int, updatedAt: int, expiresAt: int, invalidatedAt: Option<int>)

  datatype AuthCode = AuthCode(
    code: string, clientID: string, tenantID: string, userID: string, redirectURI: string, scope: string,
    state: string, nonce: string, codeChallenge: string, createdAt: int, acr: string, amr: seq<string>, transactionID: string)

  /** Tokens are keyed by the hash of their plaintext, which identifies them; sessions and codes by id. */
  datatype Vault = Vault(tokens: map<string, Token>, sessions: map<string, Session>, codes: map<string, AuthCode>)

  // ---- What each operation does to the vault ----

  predicate Unrevoked(t: Token) {
    t.revokedAt.None?
  }

  function Stamped(t: Token, now: int): Token {
    t.(revokedAt := Some(now))
  }

  function RevokedByHash(v: Vault, hash: string, now: int): Vault {
    if hash in v.tokens then v.(tokens := v.tokens[hash := Stamped(v.tokens[hash], now)]) else v
  }

  predicate Hit(t: Token, families: set<string>) {
    t.familyID in families && Unrevoked(t)
  }

  function StampedIf(t: Token, families: set<string>, now: int): Token {
    if Hit(t, families) then Stamped(t, now) else t
  }

  /** Stamps every unrevoked token of the given families; earlier stamps stay. */
  function RevokedFamilies(v: Vault, families: set<string>, now: int): Vault {
    v.(tokens := map h | h in v.tokens :: StampedIf(v.tokens[h], families, now))
  }

  function LiveIn(v: Vault, families: set<string>): set<string> {
    set h | h in v.tokens && Hit(v.tokens[h], families)
  }

  /** The non-empty families with a stored token issued against the session. */
  function FamiliesOf(v: Vault, tenantID: string, sessionID: string): set<string> {
    set h | h in v.tokens && v.tokens[h].sessionID == sessionID && v.tokens[h].tenantID == tenantID &&
            v.tokens[h].familyID != "" :: v.tokens[h].familyID
  }

  function OneFamily(familyID: string): set<string> {
    if familyID == "" then {} else {familyID}
  }

  predicate TokenGone(t: Token, now: int) {
    now > t.expiresAt
  }

  predicate CodeGone(c: AuthCode, now: int) {
    c.createdAt < now - CODE_TTL
  }

  predicate SessionGone(s: Session, now: int) {
    s.expiresAt < now - REFRESH_TTL
  }

  function PurgedVault(v: Vault, now: int): Vault {
    Vault(map h | h in v.tokens && !TokenGone(v.tokens[h], now) :: v.tokens[h],
          map s | s in v.sessions && !SessionGone(v.sessions[s], now) :: v.sessions[s],
          map c | c in v.codes && !CodeGone(v.codes[c], now) :: v.codes[c])
  }

  function Size(v: Vault): nat {
    |v.tokens| + |v.sessions| + |v.codes|
  }

  function SessionIn(v: Vault, tenantID: string, id: string): Option<Session> {
    if id in v.sessions && v.sessions[id].tenantID == tenantID then Some(v.sessions[id]) else None
  }

  /** What a sweep keeps, exactly: tokens up to their expiry, codes for five minutes, sessions for thirty days after
      theirs; what it keeps it does not change. */
  lemma SweepKeepsExactly(v: Vault, now: int)
    ensures var w := PurgedVault(v, now);
            && (forall h :: h in w.tokens <==> h in v.tokens && now <= v.tokens[h].expiresAt)
            && (forall c :: c in w.codes <==> c in v.codes && now <= v.codes[c].createdAt + 300 * SECOND)
            && (forall s :: s in w.sessions <==> s in v.sessions && now <= v.sessions[s].expiresAt + 30 * 24 * 3600 * SECOND)
            && (forall h :: h in w.tokens ==> w.tokens[h] == v.tokens[h])
            && (forall c :: c in w.codes ==> w.codes[c] == v.codes[c])
            && (forall s :: s in w.sessions ==> w.sessions[s] == v.sessions[s])
  {
  }

  /** Some stored token of family `f` was issued against the session for the tenant. */
  ghost predicate Touched(v: Vault, tenantID: string, sessionID: string, f: string) {
    f != "" && exists g :: g in v.tokens && v.tokens[g].familyID == f && v.tokens[g].sessionID == sessionID && v.tokens[g].tenantID == tenantID
  }

  /** Session-wide revocation, stated on its own: it stamps exactly the unrevoked tokens whose family the session
      touched and leaves every other token, with its earlier stamp, as it was. */
  lemma SessionWideRevocation(v: Vault, tenantID: string, sessionID: string, now: int)
    ensures var w := RevokedFamilies(v, FamiliesOf(v, tenantID, sessionID), now);
            && w.tokens.Keys == v.tokens.Keys
            && forall h :: h in v.tokens ==>
                 var t := v.tokens[h];
                 w.tokens[h] == if Touched(v, tenantID, sessionID, t.familyID) && Unrevoked(t) then Stamped(t, now) else t
  {
  }

  /** Revoking the session a second time finds the same families, changes nothing and counts nothing. */
  lemma SessionWideRevocationIsIdempotent(v: Vault, tenantID: string, sessionID: string, now: int, later: int)
    ensures var fs := FamiliesOf(v, tenantID, sessionID);
            var w := RevokedFamilies(v, fs, now);
            FamiliesOf(w, tenantID, sessionID) == fs && LiveIn(w, fs) == {} && RevokedFamilies(w, fs, later) == w
  {
    var fs := FamiliesOf(v, tenantID, sessionID);
    var w := RevokedFamilies(v, fs, now);
    forall f ensures f in FamiliesOf(w, tenantID, sessionID) <==> f in fs {
      if f in fs {
        var g :| g in v.tokens && v.tokens[g].sessionID == sessionID && v.tokens[g].tenantID == tenantID &&
                 v.tokens[g].familyID != "" && f == v.tokens[g].familyID;
        assert g in w.tokens && w.tokens[g].familyID == f;
      }
    }
    assert RevokedFamilies(w, fs, later).tokens == w.tokens;
  }

  /** The stamping pass shared by both revocations. */
  method StampFamilies(tokens: map<string, Token>, families: set<string>, now: int)
    returns (stamped: map<string, Token>, revoked: nat)
    ensures stamped == map h | h in tokens :: StampedIf(tokens[h], families, now)
    ensures revoked == |set h | h in tokens && Hit(tokens[h], families)|
  {
    stamped, revoked := tokens, 0;
    var todo := tokens.Keys;
    ghost var done: set<string> := {};
    while todo != {}
      invariant todo <= tokens.Keys == stamped.Keys
      invariant revoked == |done|
      invariant forall h :: h in done <==> h in tokens && h !in todo && Hit(tokens[h], families)
      invariant forall h :: h in tokens ==> stamped[h] == if h in todo then tokens[h] else StampedIf(tokens[h], families, now)
      decreases |todo|
    {
      var h :| h in todo;
      var t := stamped[h];
      todo := todo - {h};
      if t.familyID in families && t.revokedAt.None? {
        stamped := stamped[h := t.(revokedAt := Some(now))];
        revoked := revoked + 1;
        done := done + {h};
      }
    }
    assert done == set h | h in tokens && Hit(tokens[h], families);
  }

  // ---- The storage as written ----

  class MemStorage {
    var sessions: map<string, Session>
    var tokens: map<string, Token>
    var codes: map<string, AuthCode>

    function View(): Vault
      reads this
    {
      Vault(tokens, sessions, codes)
    }

    constructor ()
      ensures View() == Vault(map[], map[], map[])
    {
      sessions, tokens, codes := map[], map[], map[];
    }

    method CreateSession(s: Session)
      modifies this
      ensures View() == old(View()).(sessions := old(sessions)[s.id := s])
    {
      sessions := sessions[s.id := s];
    }

    method GetSession(tenantID: string, id: string) returns (s: Option<Session>)
      ensures s == SessionIn(View(), tenantID, id)
    {
      if id !in sessions || sessions[id].tenantID != tenantID {
        return None;
      }
      return Some(sessions[id]);
    }

    /** Replaces the row, keeping its creation stamp. */
    method UpdateSession(s: Session, now: int) returns (found: bool)
      modifies this
      ensures found == SessionIn(old(View()), s.tenantID, s.id).Some?
      ensures View() == if found
                        then old(View()).(sessions := old(sessions)[s.id := s.(createdAt := old(sessions)[s.id].createdAt, updatedAt := now)])
                        else old(View())
    {
      var existing := GetSession(s.tenantID, s.id);
      if existing.None? {
        return false;
      }
      sessions := sessions[s.id := s.(createdAt := existing.value.createdAt, updatedAt := now)];
      return true;
    }

    method PutToken(t: Token)
      modifies this
      ensures View() == old(View()).(tokens := old(tokens)[t.hash := t])
    {
      tokens := tokens[t.hash := t];
    }

    method GetTokenByHash(hash: string) returns (t: Option<Token>)
      ensures t == Lookup(View().tokens, hash)
    {
      return if hash in tokens then Some(tokens[hash]) else None;
    }

    method RevokeTokenByHash(hash: string, now: int) returns (found: bool)
      modifies this
      ensures found == (hash in old(tokens))
      ensures View() == RevokedByHash(old(View()), hash, now)
    {
      if hash !in tokens {
        return false;
      }
      tokens := tokens[hash := tokens[hash].(revokedAt := Some(now))];
      return true;
    }

    method RevokeTokenFamily(familyID: string, now: int) returns (revoked: nat)
      modifies this
      ensures View() == RevokedFamilies(old(View()), OneFamily(familyID), now)
      ensures revoked == |LiveIn(old(View()), OneFamily(familyID))|
    {
      if familyID == "" {
        assert RevokedFamilies(View(), {}, now).tokens == tokens;
        return 0;
      }
      tokens, revoked := StampFamilies(tokens, {familyID}, now);
    }

    /** First collects the families the session touched, then stamps every live token in them. */
    method RevokeTokenFamiliesBySession(tenantID: string, sessionID: string, now: int) returns (revoked: nat)
      modifies this
      ensures sessionID == "" ==> revoked == 0 && View() == old(View())
      ensures sessionID != "" ==>
                && View() == RevokedFamilies(old(View()), FamiliesOf(old(View()), tenantID, sessionID), now)
                && revoked == |LiveIn(old(View()), FamiliesOf(old(View()), tenantID, sessionID))|
    {
      if sessionID == "" {
        return 0;
      }
      var families: set<string> := {};
      var todo := tokens.Keys;
      while todo != {}
        invariant todo <= tokens.Keys
        invariant families == set h | h in tokens && h !in todo && tokens[h].sessionID == sessionID &&
                                      tokens[h].tenantID == tenantID && tokens[h].familyID != "" :: tokens[h].familyID
        decreases |todo|
      {
        var h :| h in todo;
        var t := tokens[h];
        todo := todo - {h};
        if t.sessionID == sessionID && t.tenantID == tenantID && t.familyID != "" {
          families := families + {t.familyID};
        }
      }
      assert families == FamiliesOf(View(), tenantID, sessionID);
      if families == {} {
        assert RevokedFamilies(View(), {}, now).tokens == tokens;
        return 0;
      }
      tokens, revoked := StampFamilies(tokens, families, now);
    }

    method PutAuthCode(ac: AuthCode)
      modifies this
      ensures View() == old(View()).(codes := old(codes)[ac.code := ac])
    {
      codes := codes[ac.code := ac];
    }

    /** Reads and removes the code in one critical section. */
    method ConsumeAuthCode(code: string) returns (ac: Option<AuthCode>)
      modifies this
      ensures ac == Lookup(old(codes), code)
      ensures View() == old(View()).(codes := old(codes) - {code})
    {
      if code !in codes {
        assert codes - {code} == codes;
        return None;
      }
      ac := Some(codes[code]);
      codes := codes - {code};
    }

    method PurgeExpired(now: int) returns (removed: nat)
      modifies this
      ensures View() == PurgedVault(old(View()), now)
      ensures removed == Size(old(View())) - Size(View())
    {
      var n1 := PurgeTokens(now);
      var n2 := PurgeCodes(now - CODE_TTL);
      var n3 := PurgeSessions(now - REFRESH_TTL);
      removed := n1 + n2 + n3;
    }

    method PurgeTokens(now: int) returns (removed: nat)
      modifies this`tokens
      ensures tokens == map h | h in old(tokens) && !TokenGone(old(tokens)[h], now) :: old(tokens)[h]
      ensures removed == |old(tokens)| - |tokens|
    {
      removed := 0;
      var todo := tokens.Keys;
      while todo != {}
        invariant todo <= tokens.Keys <= old(tokens).Keys
        invariant tokens == map h | h in old(tokens) && (h in todo || !TokenGone(old(tokens)[h], now)) :: old(tokens)[h]
        invariant removed == |old(tokens)| - |tokens|
        decreases |todo|
      {
        var h :| h in todo;
        if now > tokens[h].expiresAt {
          assert tokens.Keys == (tokens - {h}).Keys + {h};
          tokens := tokens - {h};
          removed := removed + 1;
        }
        todo := todo - {h};
      }
    }

    method PurgeCodes(deadline: int) returns (removed: nat)
      modifies this`codes
      ensures codes == map c | c in old(codes) && old(codes)[c].createdAt >= deadline :: old(codes)[c]
      ensures removed == |old(codes)| - |codes|
    {
      removed := 0;
      var todo := codes.Keys;
      while todo != {}
        invariant todo <= codes.Keys <= old(codes).Keys
        invariant codes == map c | c in old(codes) && (c in todo || old(codes)[c].createdAt >= deadline) :: old(codes)[c]
        invariant removed == |old(codes)| - |codes|
        decreases |todo|
      {
        var c :| c in todo;
        if codes[c].createdAt < deadline {
          assert codes.Keys == (codes - {c}).Keys + {c};
          codes := codes - {c};
          removed := removed + 1;
        }
        todo := todo - {c};
      }
    }

    method PurgeSessions(deadline: int) returns (removed: nat)
      modifies this`sessions
      ensures sessions == map s | s in old(sessions) && old(sessions)[s].expiresAt >= deadline :: old(sessions)[s]
      ensures removed == |old(sessions)| - |sessions|
    {
      removed := 0;
      var todo := sessions.Keys;
      while todo != {}
        invariant todo <= sessions.Keys <= old(sessions).Keys
        invariant sessions == map s | s in old(sessions) && (s in todo || old(sessions)[s].expiresAt >= deadline) :: old(sessions)[s]
        invariant removed == |old(sessions)| - |sessions|
        decreases |todo|
      {
        var s :| s in todo;
        if sessions[s].expiresAt < deadline {
          assert sessions.Keys == (sessions - {s}).Keys + {s};
          sessions := sessions - {s};
          removed := removed + 1;
        }
        todo := todo - {s};
      }
    }
  }
}
