/** Safety of tokens, families, codes and the sweeper over whole runs of the grants. */
module VaultRuns {
  import opened Common
  import opened TokenVault
  import opened Grants

  /** One atomic request or sweep. Identifiers it may mint are given with it. */
  datatype Event =
    | MintCode(ac: AuthCode, now: int)
    | ExchangeCode(code: string, redirectURI: string, verifier: string, creds: Creds, ids: Fresh, now: int, later: int)
    | Rotate(hash: string, creds: Creds, ids: Fresh, now: int, later: int)
    | RevokeOne(hash: string, now: int)
    | RevokeSessionWide(tenantID: string, sessionID: string, now: int)
    | OpenSession(sess: Session, now: int)
    | AlterSession(tenantID: string, id: string, change: SessionChange, now: int)
    | BearerToken(t: Token, sess: Session, now: int)
    | Sweep(now: int)

  /** `issued` holds every identifier ever minted, `clock` the last clock reading. */
  datatype World = World(vault: Vault, issued: set<string>, clock: int)

  function Minted(e: Event): set<string> {
    match e
    case MintCode(ac, _) => {ac.code}
    case ExchangeCode(_, _, _, _, ids, _, _) => {ids.sessionID, ids.familyID, ids.access, ids.refresh}
    case Rotate(_, _, ids, _, _) => {ids.access, ids.refresh}
    case OpenSession(sess, _) => {sess.id}
    case BearerToken(t, sess, _) => {sess.id, t.familyID, t.hash}
    case _ => {}
  }

  predicate Distinct(ids: Fresh) {
    ids.access != ids.refresh && {ids.access, ids.refresh} !! {ids.sessionID, ids.familyID}
  }

  /** The event may happen next: the clock has not gone back, the two readings of a grant are at most `skew` apart,
      and what it mints is new. */
  predicate Enabled(w: World, e: Event, skew: int) {
    && w.clock <= e.now
    && w.issued !! Minted(e) && "" !in Minted(e)
    && match e
       case MintCode(ac, now) => ac.createdAt == now && ac.clientID != ""
       case ExchangeCode(_, _, _, _, ids, now, later) => Distinct(ids) && now <= later <= now + skew
       case Rotate(_, _, ids, now, later) => Distinct(ids) && now <= later <= now + skew
       case OpenSession(sess, now) => sess.expiresAt <= now + SESSION_TTL
       case BearerToken(t, sess, now) =>
         && t.kind == Access && t.sessionID == sess.id && t.userID == sess.userID && t.tenantID == sess.tenantID
         && t.clientID != "" && sess.expiresAt <= now + SESSION_TTL
       case _ => true
  }

  function After(v: Vault, e: Event, s256: Transform): Vault {
    match e
    case MintCode(ac, _) => v.(codes := v.codes[ac.code := ac])
    case ExchangeCode(code, uri, verifier, creds, ids, now, later) => CodeGrant(v, code, uri, verifier, creds, s256, ids, now, later).0
    case Rotate(hash, creds, ids, now, later) => RefreshGrant(v, hash, creds, ids, now, later).0
    case RevokeOne(hash, now) => RevokedByHash(v, hash, now)
    case RevokeSessionWide(tenantID, sessionID, now) => RevokedFamilies(v, FamiliesOf(v, tenantID, sessionID), now)
    case OpenSession(sess, _) => v.(sessions := v.sessions[sess.id := sess])
    case AlterSession(tenantID, id, change, now) => SessionChanged(v, tenantID, id, change, now)
    case BearerToken(t, sess, _) => v.(sessions := v.sessions[sess.id := sess], tokens := v.tokens[t.hash := t])
    case Sweep(now) => PurgedVault(v, now)
  }

  function Step(w: World, e: Event, s256: Transform): World {
    World(After(w.vault, e, s256), w.issued + Minted(e),
          match e case ExchangeCode(_, _, _, _, _, _, later) => Max(e.now, later)
                  case Rotate(_, _, _, _, later) => Max(e.now, later)
                  case _ => e.now)
  }

  const START := World(Vault(map[], map[], map[]), {}, 0)

  /** A run: its events, latest last. */
  datatype Run = Start | Then(past: Run, e: Event)

  function WorldAfter(run: Run, s256: Transform): World {
    if run.Start? then START else Step(WorldAfter(run.past, s256), run.e, s256)
  }

  predicate Genuine(run: Run, skew: int, s256: Transform) {
    run.Then? ==> Genuine(run.past, skew, s256) && Enabled(WorldAfter(run.past, s256), run.e, skew)
  }

  predicate Extends(later: Run, run: Run) {
    later == run || (later.Then? && Extends(later.past, run))
  }

  // ---- The invariant of every reachable state ----

  predicate Keyed(v: Vault) {
    WellKeyed(v) && forall h :: h in v.tokens ==> v.tokens[h].hash == h
  }

  /** Every identifier in the vault was minted. */
  predicate Known(v: Vault, issued: set<string>) {
    && v.tokens.Keys <= issued && v.sessions.Keys <= issued && v.codes.Keys <= issued
    && forall h :: h in v.tokens ==> v.tokens[h].familyID in issued && v.tokens[h].sessionID in issued && v.tokens[h].familyID != ""
  }

  predicate LiveRefresh(v: Vault, h: string, familyID: string) {
    h in v.tokens && v.tokens[h].kind == Refresh && Unrevoked(v.tokens[h]) && v.tokens[h].familyID == familyID
  }

  /** A family has at most one unrevoked refresh token. */
  ghost predicate SingleTip(v: Vault) {
    forall f, g, h :: LiveRefresh(v, g, f) && LiveRefresh(v, h, f) ==> g == h
  }

  /** A refresh token outlives its stored session's expiry by at most RefreshTTL - SessionTTL, plus the skew between
      the two clock readings of the grant that issued it. */
  predicate Horizon(v: Vault, skew: int) {
    forall h :: h in v.tokens && v.tokens[h].kind == Refresh && v.tokens[h].sessionID in v.sessions ==>
      v.tokens[h].expiresAt <= v.sessions[v.tokens[h].sessionID].expiresAt + REFRESH_TTL - SESSION_TTL + skew
  }

  predicate SessionsTimely(v: Vault, clock: int) {
    forall s :: s in v.sessions ==> v.sessions[s].expiresAt <= clock + SESSION_TTL
  }

  ghost predicate Inv(w: World, skew: int) {
    && Keyed(w.vault) && Known(w.vault, w.issued) && SingleTip(w.vault)
    && Horizon(w.vault, skew) && SessionsTimely(w.vault, w.clock)
  }

  lemma StampingKeepsInv(v: Vault, issued: set<string>, clock: int, skew: int, families: set<string>, now: int)
    requires Inv(World(v, issued, clock), skew)
    ensures Inv(World(RevokedFamilies(v, families, now), issued, clock), skew)
  {
    var w := RevokedFamilies(v, families, now);
    forall f, g, h | LiveRefresh(w, g, f) && LiveRefresh(w, h, f) ensures g == h {
      assert LiveRefresh(v, g, f) && LiveRefresh(v, h, f);
    }
  }

  lemma RevokingKeepsInv(v: Vault, issued: set<string>, clock: int, skew: int, hash: string, now: int)
    requires Inv(World(v, issued, clock), skew)
    ensures Inv(World(RevokedByHash(v, hash, now), issued, clock), skew)
  {
    var w := RevokedByHash(v, hash, now);
    forall f, g, h | LiveRefresh(w, g, f) && LiveRefresh(w, h, f) ensures g == h {
      assert LiveRefresh(v, g, f) && LiveRefresh(v, h, f);
    }
  }

  lemma PurgingKeepsInv(v: Vault, issued: set<string>, clock: int, skew: int, now: int)
    requires Inv(World(v, issued, clock), skew) && clock <= now
    ensures Inv(World(PurgedVault(v, now), issued, now), skew)
  {
    var w := PurgedVault(v, now);
    forall f, g, h | LiveRefresh(w, g, f) && LiveRefresh(w, h, f) ensures g == h {
      assert LiveRefresh(v, g, f) && LiveRefresh(v, h, f);
    }
  }

  /** Issuing a pair keeps the invariant when the family has no unrevoked refresh token left and the session was
      just (re)stamped. */
  lemma IssuingKeepsInv(v: Vault, issued: set<string>, clock: int, skew: int, sess: Session, scope: string, clientID: string,
                        familyID: string, ids: Fresh, now: int, later: int)
    requires Inv(World(v, issued, clock), skew) && clock <= later <= now + skew && 0 <= skew
    requires sess.id in v.sessions && v.sessions[sess.id] == sess && sess.expiresAt == now + SESSION_TTL
    requires familyID in issued && familyID != "" && Distinct(ids) && {ids.access, ids.refresh} !! issued
    requires forall h :: !LiveRefresh(v, h, familyID)
    ensures Inv(World(PairIssued(v, sess, scope, clientID, familyID, ids, later), issued + {ids.access, ids.refresh}, later), skew)
  {
    var w := PairIssued(v, sess, scope, clientID, familyID, ids, later);
    forall f, g | LiveRefresh(w, g, f) ensures if f == familyID then g == ids.refresh else LiveRefresh(v, g, f) {
      assert g !in {ids.access, ids.refresh} ==> LiveRefresh(v, g, f);
    }
  }

  /** Storing a new session, and dropping any code, keeps the invariant. */
  lemma OpeningKeepsInv(v: Vault, issued: set<string>, clock: int, skew: int, sess: Session, named: set<string>, spent: set<string>)
    requires Inv(World(v, issued, clock), skew)
    requires sess.id in named && named !! issued && sess.expiresAt <= clock + SESSION_TTL
    ensures Inv(World(v.(codes := v.codes - spent, sessions := v.sessions[sess.id := sess]), issued + named, clock), skew)
  {
    var w := v.(codes := v.codes - spent, sessions := v.sessions[sess.id := sess]);
    forall f, g, h | LiveRefresh(w, g, f) && LiveRefresh(w, h, f) ensures g == h {
      assert LiveRefresh(v, g, f) && LiveRefresh(v, h, f);
    }
  }

  /** The vault after a successful exchange. */
  function Exchanged(v: Vault, ac: AuthCode, e: Event): Vault
    requires e.ExchangeCode?
  {
    var sess := NewSession(ac, e.ids.sessionID, e.now);
    PairIssued(v.(codes := v.codes - {e.code}, sessions := v.sessions[sess.id := sess]), sess, ac.scope, ac.clientID, e.ids.familyID, e.ids, e.later)
  }

  lemma ExchangeShape(v: Vault, e: Event, s256: Transform)
    requires e.ExchangeCode?
    ensures var (v', reply) := CodeGrant(v, e.code, e.redirectURI, e.verifier, e.creds, s256, e.ids, e.now, e.later);
            if reply.Issued? then e.code in v.codes && v' == Exchanged(v, v.codes[e.code], e)
            else v' == v || v' == v.(codes := v.codes - {e.code})
  {
  }

  lemma ExchangeKeepsInv(w: World, e: Event, skew: int, s256: Transform)
    requires Inv(w, skew) && Enabled(w, e, skew) && e.ExchangeCode? && 0 <= skew
    ensures Inv(Step(w, e, s256), skew)
  {
    ExchangeShape(w.vault, e, s256);
    if After(w.vault, e, s256) == w.vault || After(w.vault, e, s256) == w.vault.(codes := w.vault.codes - {e.code}) {
      DroppingCodeKeepsInv(w.vault, w.issued, w.clock, skew, e.code, e.later, Minted(e));
    } else {
      IssuedExchangeKeepsInv(w.vault, w.issued, w.vault.codes[e.code], e, skew);
    }
  }

  lemma IssuedExchangeKeepsInv(v: Vault, issued: set<string>, ac: AuthCode, e: Event, skew: int)
    requires Inv(World(v, issued, e.now), skew) && e.ExchangeCode? && 0 <= skew && e.now <= e.later <= e.now + skew
    requires issued !! Minted(e) && "" !in Minted(e) && Distinct(e.ids)
    ensures Inv(World(Exchanged(v, ac, e), issued + Minted(e), e.later), skew)
  {
    var sess := NewSession(ac, e.ids.sessionID, e.now);
    var named := {e.ids.sessionID, e.ids.familyID};
    OpeningKeepsInv(v, issued, e.now, skew, sess, named, {e.code});
    var v1 := v.(codes := v.codes - {e.code}, sessions := v.sessions[sess.id := sess]);
    IssuingKeepsInv(v1, issued + named, e.now, skew, sess, ac.scope, ac.clientID, e.ids.familyID, e.ids, e.now, e.later);
    assert issued + named + {e.ids.access, e.ids.refresh} == issued + Minted(e);
  }

  lemma DroppingCodeKeepsInv(v: Vault, issued: set<string>, clock: int, skew: int, code: string, later: int, named: set<string>)
    requires Inv(World(v, issued, clock), skew) && clock <= later
    ensures Inv(World(v.(codes := v.codes - {code}), issued + named, later), skew)
    ensures Inv(World(v, issued + named, later), skew)
  {
    var w := v.(codes := v.codes - {code});
    forall f, g, h | LiveRefresh(w, g, f) && LiveRefresh(w, h, f) ensures g == h {
      assert LiveRefresh(v, g, f) && LiveRefresh(v, h, f);
    }
  }

  /** Restamping a stored session with an expiry that is not earlier keeps the invariant. */
  lemma ExtendingKeepsInv(v: Vault, issued: set<string>, clock: int, skew: int, sess: Session, now: int)
    requires Inv(World(v, issued, clock), skew) && clock <= now
    requires sess.id in v.sessions && v.sessions[sess.id].expiresAt <= sess.expiresAt <= now + SESSION_TTL
    ensures Inv(World(v.(sessions := v.sessions[sess.id := sess]), issued, now), skew)
  {
    var w := v.(sessions := v.sessions[sess.id := sess]);
    forall f, g, h | LiveRefresh(w, g, f) && LiveRefresh(w, h, f) ensures g == h {
      assert LiveRefresh(v, g, f) && LiveRefresh(v, h, f);
    }
  }

  /** The vault after a successful rotation. */
  function Rotated(v: Vault, t: Token, sess: Session, e: Event): Vault
    requires e.Rotate? && e.creds.Creds?
  {
    PairIssued(RevokedByHash(v.(sessions := v.sessions[t.sessionID := sess]), e.hash, e.now),
               sess, t.scope, Audience(t, e.creds.clientID), t.familyID, e.ids, e.later)
  }

  function Restamped(s: Session, now: int): Session {
    s.(expiresAt := now + SESSION_TTL, updatedAt := now)
  }

  lemma RotationShape(v: Vault, e: Event)
    requires e.Rotate?
    ensures var (v', reply) := RefreshGrant(v, e.hash, e.creds, e.ids, e.now, e.later);
            match reply
            case Issued(_, _, _, _) =>
              && e.creds.Creds? && Grants.Known(v, e.hash, Refresh) && Unrevoked(v.tokens[e.hash]) && v.tokens[e.hash].sessionID in v.sessions
              && v' == Rotated(v, v.tokens[e.hash], Restamped(v.sessions[v.tokens[e.hash].sessionID], e.now), e)
            case FamilyRevoked(_) =>
              Grants.Known(v, e.hash, Refresh) && v' == RevokedFamilies(v, OneFamily(v.tokens[e.hash].familyID), e.now)
            case _ => v' == v
  {
  }

  lemma RotateKeepsInv(w: World, e: Event, skew: int, s256: Transform)
    requires Inv(w, skew) && Enabled(w, e, skew) && e.Rotate? && 0 <= skew
    ensures Inv(Step(w, e, s256), skew)
  {
    var v := w.vault;
    RotationShape(v, e);
    match RefreshGrant(v, e.hash, e.creds, e.ids, e.now, e.later).1
    case Issued(_, _, _, _) => IssuedRotationKeepsInv(v, w.issued, w.clock, e, skew);
    case FamilyRevoked(_) =>
      var families := OneFamily(v.tokens[e.hash].familyID);
      StampingKeepsInv(v, w.issued, w.clock, skew, families, e.now);
      DroppingCodeKeepsInv(RevokedFamilies(v, families, e.now), w.issued, w.clock, skew, "", e.later, Minted(e));
    case _ => DroppingCodeKeepsInv(v, w.issued, w.clock, skew, "", e.later, Minted(e));
  }

  lemma IssuedRotationKeepsInv(v: Vault, issued: set<string>, clock: int, e: Event, skew: int)
    requires Inv(World(v, issued, clock), skew) && e.Rotate? && 0 <= skew && clock <= e.now <= e.later <= e.now + skew
    requires issued !! Minted(e) && Distinct(e.ids)
    requires Grants.Known(v, e.hash, Refresh) && Unrevoked(v.tokens[e.hash]) && v.tokens[e.hash].sessionID in v.sessions && e.creds.Creds?
    ensures Inv(World(Rotated(v, v.tokens[e.hash], Restamped(v.sessions[v.tokens[e.hash].sessionID], e.now), e), issued + Minted(e), e.later), skew)
  {
    var t := v.tokens[e.hash];
    var sess := Restamped(v.sessions[t.sessionID], e.now);
    ExtendingKeepsInv(v, issued, clock, skew, sess, e.now);
    var v1 := v.(sessions := v.sessions[t.sessionID := sess]);
    RevokingKeepsInv(v1, issued, e.now, skew, e.hash, e.now);
    var v2 := RevokedByHash(v1, e.hash, e.now);
    forall h ensures !LiveRefresh(v2, h, t.familyID) {
      assert LiveRefresh(v, e.hash, t.familyID);
      assert LiveRefresh(v2, h, t.familyID) ==> LiveRefresh(v, h, t.familyID);
    }
    IssuingKeepsInv(v2, issued, e.now, skew, sess, t.scope, Audience(t, e.creds.clientID), t.familyID, e.ids, e.now, e.later);
  }

  lemma BearerKeepsInv(w: World, e: Event, skew: int, s256: Transform)
    requires Inv(w, skew) && Enabled(w, e, skew) && e.BearerToken?
    ensures Inv(Step(w, e, s256), skew)
  {
    var v, v' := w.vault, Step(w, e, s256).vault;
    forall f, g, h | LiveRefresh(v', g, f) && LiveRefresh(v', h, f) ensures g == h {
      assert LiveRefresh(v, g, f) && LiveRefresh(v, h, f);
    }
  }

  lemma AlterKeepsInv(w: World, e: Event, skew: int, s256: Transform)
    requires Inv(w, skew) && Enabled(w, e, skew) && e.AlterSession?
    ensures Inv(Step(w, e, s256), skew)
  {
    var found := SessionIn(w.vault, e.tenantID, e.id);
    DroppingCodeKeepsInv(w.vault, w.issued, w.clock, skew, "", e.now, {});
    if found.Some? && found.value.invalidatedAt.None? {
      ExtendingKeepsInv(w.vault, w.issued, w.clock, skew, Changed(found.value, e.change, e.now).(updatedAt := e.now), e.now);
    }
    assert w.issued + {} == w.issued;
  }

  lemma MintKeepsInv(w: World, e: Event, skew: int, s256: Transform)
    requires Inv(w, skew) && Enabled(w, e, skew) && e.MintCode?
    ensures Inv(Step(w, e, s256), skew)
  {
    var v, v' := w.vault, Step(w, e, s256).vault;
    forall f, g, h | LiveRefresh(v', g, f) && LiveRefresh(v', h, f) ensures g == h {
      assert LiveRefresh(v, g, f) && LiveRefresh(v, h, f);
    }
  }

  lemma StepKeepsInv(w: World, e: Event, skew: int, s256: Transform)
    requires Inv(w, skew) && Enabled(w, e, skew) && 0 <= skew
    ensures Inv(Step(w, e, s256), skew)
  {
    DroppingCodeKeepsInv(w.vault, w.issued, w.clock, skew, "", e.now, {});
    assert w.issued + {} == w.issued;
    match e
    case MintCode(_, _) => MintKeepsInv(w, e, skew, s256);
    case ExchangeCode(_, _, _, _, _, _, _) => ExchangeKeepsInv(w, e, skew, s256);
    case Rotate(_, _, _, _, _) => RotateKeepsInv(w, e, skew, s256);
    case RevokeOne(hash, now) => RevokingKeepsInv(w.vault, w.issued, now, skew, hash, now);
    case RevokeSessionWide(t, s, now) => StampingKeepsInv(w.vault, w.issued, now, skew, FamiliesOf(w.vault, t, s), now);
    case OpenSession(sess, now) =>
      OpeningKeepsInv(w.vault, w.issued, now, skew, sess, {sess.id}, {});
      assert w.vault.codes - {} == w.vault.codes;
    case AlterSession(_, _, _, _) => AlterKeepsInv(w, e, skew, s256);
    case BearerToken(_, _, _) => BearerKeepsInv(w, e, skew, s256);
    case Sweep(now) => PurgingKeepsInv(w.vault, w.issued, w.clock, skew, now);
  }

  /** The invariant holds in every reachable state. */
  lemma {:induction false} Reachable(run: Run, skew: int, s256: Transform)
    requires Genuine(run, skew, s256) && 0 <= skew
    ensures Inv(WorldAfter(run, s256), skew)
  {
    if run.Then? {
      Reachable(run.past, skew, s256);
      StepKeepsInv(WorldAfter(run.past, s256), run.e, skew, s256);
    }
  }

  /** In every reachable state a family has at most one unrevoked refresh token. */
  lemma {:induction false} FamilyHasOneTip(run: Run, skew: int, s256: Transform, f: string, g: string, h: string)
    requires Genuine(run, skew, s256) && 0 <= skew
    requires LiveRefresh(WorldAfter(run, s256).vault, g, f) && LiveRefresh(WorldAfter(run, s256).vault, h, f)
    ensures g == h
  {
    Reachable(run, skew, s256);
  }

  // ---- What is spent stays spent ----

  /** The token was minted and is now revoked or gone. */
  predicate SpentToken(w: World, h: string) {
    h in w.issued && (h in w.vault.tokens ==> !Unrevoked(w.vault.tokens[h]))
  }

  predicate SpentCode(w: World, c: string) {
    c in w.issued && c !in w.vault.codes
  }

  /** The family was minted and none of its stored tokens, access or refresh, is unrevoked. */
  predicate DeadFamily(w: World, f: string) {
    f in w.issued && forall h :: h in w.vault.tokens && w.vault.tokens[h].familyID == f ==> !Unrevoked(w.vault.tokens[h])
  }

  lemma StepKeepsSpent(w: World, e: Event, skew: int, s256: Transform, x: string)
    requires Inv(w, skew) && Enabled(w, e, skew)
    ensures SpentToken(w, x) ==> SpentToken(Step(w, e, s256), x)
    ensures SpentCode(w, x) ==> SpentCode(Step(w, e, s256), x)
  {
  }

  lemma StepKeepsDead(w: World, e: Event, skew: int, s256: Transform, f: string)
    requires Inv(w, skew) && Enabled(w, e, skew) && DeadFamily(w, f)
    ensures DeadFamily(Step(w, e, s256), f)
  {
    if e.ExchangeCode? {
      ExchangeShape(w.vault, e, s256);
    } else if e.Rotate? {
      RotationShape(w.vault, e);
    }
  }

  lemma {:induction false} SpentForever(run: Run, later: Run, skew: int, s256: Transform, x: string)
    requires Genuine(later, skew, s256) && Extends(later, run) && 0 <= skew
    ensures SpentToken(WorldAfter(run, s256), x) ==> SpentToken(WorldAfter(later, s256), x)
    ensures SpentCode(WorldAfter(run, s256), x) ==> SpentCode(WorldAfter(later, s256), x)
    ensures DeadFamily(WorldAfter(run, s256), x) ==> DeadFamily(WorldAfter(later, s256), x)
  {
    if later != run {
      SpentForever(run, later.past, skew, s256, x);
      Reachable(later.past, skew, s256);
      StepKeepsSpent(WorldAfter(later.past, s256), later.e, skew, s256, x);
      if DeadFamily(WorldAfter(later.past, s256), x) {
        StepKeepsDead(WorldAfter(later.past, s256), later.e, skew, s256, x);
      }
    }
  }

  /** The session was opened and is now invalidated or gone. */
  predicate DeadSession(w: World, id: string) {
    id in w.issued && (id in w.vault.sessions ==> w.vault.sessions[id].invalidatedAt.Some?)
  }

  lemma StepKeepsSessionDead(w: World, e: Event, skew: int, s256: Transform, id: string)
    requires Inv(w, skew) && Enabled(w, e, skew) && DeadSession(w, id)
    ensures DeadSession(Step(w, e, s256), id)
  {
    if e.ExchangeCode? {
      ExchangeShape(w.vault, e, s256);
    } else if e.Rotate? {
      RotationShape(w.vault, e);
    }
  }

  /** An invalidated session stays so, and in every continuation none of its refresh tokens is granted again. */
  lemma {:induction false} InvalidatedForever(run: Run, later: Run, skew: int, s256: Transform, id: string, hash: string, creds: Creds, ids: Fresh, now: int, end: int)
    requires Genuine(later, skew, s256) && Extends(later, run) && 0 <= skew && DeadSession(WorldAfter(run, s256), id)
    ensures DeadSession(WorldAfter(later, s256), id)
    ensures var v := WorldAfter(later, s256).vault;
            hash in v.tokens && v.tokens[hash].sessionID == id ==> !RefreshGrant(v, hash, creds, ids, now, end).1.Issued?
  {
    if later != run {
      InvalidatedForever(run, later.past, skew, s256, id, hash, creds, ids, now, end);
      Reachable(later.past, skew, s256);
      StepKeepsSessionDead(WorldAfter(later.past, s256), later.e, skew, s256, id);
    }
  }

  /** The last event of the run redeemed a refresh token. */
  predicate RotatedToken(run: Run, hash: string, s256: Transform) {
    run.Then? && run.e.Rotate? && run.e.hash == hash &&
    RefreshGrant(WorldAfter(run.past, s256).vault, hash, run.e.creds, run.e.ids, run.e.now, run.e.later).1.Issued?
  }

  /** The last event of the run redeemed an authorization code. */
  predicate RedeemedCode(run: Run, code: string, s256: Transform) {
    run.Then? && run.e.ExchangeCode? && run.e.code == code &&
    CodeGrant(WorldAfter(run.past, s256).vault, code, run.e.redirectURI, run.e.verifier, run.e.creds, s256,
              run.e.ids, run.e.now, run.e.later).1.Issued?
  }

  lemma RotationSpends(run: Run, hash: string, skew: int, s256: Transform)
    requires Genuine(run, skew, s256) && 0 <= skew && RotatedToken(run, hash, s256)
    ensures SpentToken(WorldAfter(run, s256), hash)
  {
    Reachable(run.past, skew, s256);
  }

  lemma RedemptionSpends(run: Run, code: string, skew: int, s256: Transform)
    requires Genuine(run, skew, s256) && 0 <= skew && RedeemedCode(run, code, s256)
    ensures SpentCode(WorldAfter(run, s256), code)
  {
    Reachable(run.past, skew, s256);
  }

  /** Each refresh token is redeemed at most once in any run. */
  lemma RotatedOnce(run: Run, later: Run, hash: string, skew: int, s256: Transform)
    requires Genuine(later, skew, s256) && later.Then? && Extends(later.past, run) && 0 <= skew
    requires RotatedToken(run, hash, s256)
    ensures !RotatedToken(later, hash, s256)
  {
    ExtendsGenuine(run, later.past, skew, s256);
    RotationSpends(run, hash, skew, s256);
    SpentForever(run, later.past, skew, s256, hash);
  }

  /** Each authorization code is redeemed at most once in any run. */
  lemma CodeRedeemedOnce(run: Run, later: Run, code: string, skew: int, s256: Transform)
    requires Genuine(later, skew, s256) && later.Then? && Extends(later.past, run) && 0 <= skew
    requires RedeemedCode(run, code, s256)
    ensures !RedeemedCode(later, code, s256)
  {
    ExtendsGenuine(run, later.past, skew, s256);
    RedemptionSpends(run, code, skew, s256);
    SpentForever(run, later.past, skew, s256, code);
  }

  lemma {:induction false} ExtendsGenuine(run: Run, later: Run, skew: int, s256: Transform)
    requires Genuine(later, skew, s256) && Extends(later, run)
    ensures Genuine(run, skew, s256)
  {
    if later != run {
      ExtendsGenuine(run, later.past, skew, s256);
    }
  }

  /** Once a token that was issued has been revoked, of either kind, it is never again granted a refresh or answered at
      /userinfo; the revocation touches no other token. */
  lemma RevokedForever(run: Run, later: Run, skew: int, s256: Transform, creds: Creds, ids: Fresh, jwtValid: bool, userExists: bool, now: int, end: int)
    requires Genuine(later, skew, s256) && Extends(later, run) && run.Then? && run.e.RevokeOne? && 0 <= skew
    requires run.e.hash in WorldAfter(run.past, s256).vault.tokens
    ensures var v := WorldAfter(later, s256).vault;
            !RefreshGrant(v, run.e.hash, creds, ids, now, end).1.Issued? && !UserInfoAccepts(v, run.e.hash, jwtValid, userExists, now)
    ensures var before, after := WorldAfter(run.past, s256).vault, WorldAfter(run, s256).vault;
            after.tokens == before.tokens[run.e.hash := after.tokens[run.e.hash]]
  {
    ExtendsGenuine(run, later, skew, s256);
    Reachable(run.past, skew, s256);
    SpentForever(run, later, skew, s256, run.e.hash);
  }

  /** A code presented with valid client credentials is burnt even when the exchange is refused. */
  lemma PresentedCodeIsBurnt(run: Run, later: Run, skew: int, s256: Transform)
    requires Genuine(later, skew, s256) && Extends(later, run) && run.Then? && run.e.ExchangeCode? && 0 <= skew
    requires run.e.verifier != "" && run.e.creds.Creds? && run.e.code in WorldAfter(run.past, s256).vault.codes
    ensures run.e.code !in WorldAfter(later, s256).vault.codes
  {
    ExtendsGenuine(run, later, skew, s256);
    Reachable(run.past, skew, s256);
    assert run.e.code in WorldAfter(run.past, s256).issued;
    assert run.e.code != "" ==> SpentCode(WorldAfter(run, s256), run.e.code);
    if run.e.code == "" {
      NoEmptyIdentifier(run.past, skew, s256);
    }
    SpentForever(run, later, skew, s256, run.e.code);
  }

  lemma {:induction false} NoEmptyIdentifier(run: Run, skew: int, s256: Transform)
    requires Genuine(run, skew, s256)
    ensures "" !in WorldAfter(run, s256).issued
  {
    if run.Then? {
      NoEmptyIdentifier(run.past, skew, s256);
    }
  }

  /** Theft response: once a replayed refresh token has had its family revoked, no unrevoked token of that family,
      access or refresh, exists in any continuation, so none of them is ever accepted again. */
  lemma {:induction false} ReplayKillsFamily(run: Run, later: Run, skew: int, s256: Transform)
    requires Genuine(later, skew, s256) && Extends(later, run) && run.Then? && run.e.Rotate? && 0 <= skew
    requires var v := WorldAfter(run.past, s256).vault;
             RefreshGrant(v, run.e.hash, run.e.creds, run.e.ids, run.e.now, run.e.later).1.FamilyRevoked?
    ensures var f := WorldAfter(run.past, s256).vault.tokens[run.e.hash].familyID;
            DeadFamily(WorldAfter(later, s256), f)
  {
    ExtendsGenuine(run, later, skew, s256);
    ReplayKills(run, skew, s256);
    SpentForever(run, later, skew, s256, WorldAfter(run.past, s256).vault.tokens[run.e.hash].familyID);
  }

  lemma ReplayKills(run: Run, skew: int, s256: Transform)
    requires Genuine(run, skew, s256) && run.Then? && run.e.Rotate? && 0 <= skew
    requires var v := WorldAfter(run.past, s256).vault;
             RefreshGrant(v, run.e.hash, run.e.creds, run.e.ids, run.e.now, run.e.later).1.FamilyRevoked?
    ensures DeadFamily(WorldAfter(run, s256), WorldAfter(run.past, s256).vault.tokens[run.e.hash].familyID)
  {
    Reachable(run.past, skew, s256);
    RotationShape(WorldAfter(run.past, s256).vault, run.e);
  }

  /** Nothing of a dead family is accepted: neither at the token endpoint nor at /userinfo. */
  lemma DeadFamilyIsRefused(w: World, f: string, hash: string, creds: Creds, ids: Fresh, now: int, later: int)
    requires DeadFamily(w, f) && hash in w.vault.tokens && w.vault.tokens[hash].familyID == f
    ensures !RefreshGrant(w.vault, hash, creds, ids, now, later).1.Issued?
    ensures !UserInfoAccepts(w.vault, hash, true, true, now)
  {
  }

  // ---- The sweeper ----

  /** The sweeper never deletes a session that an unexpired refresh token names, provided the two clock readings of a
      grant are at most a session lifetime apart. */
  lemma {:induction false} SweepSparesNamedSessions(run: Run, skew: int, s256: Transform, h: string, now: int)
    requires Genuine(run, skew, s256) && 0 <= skew <= SESSION_TTL
    requires var v := WorldAfter(run, s256).vault;
             h in v.tokens && v.tokens[h].kind == Refresh && !TokenGone(v.tokens[h], now) && v.tokens[h].sessionID in v.sessions
    ensures var v := WorldAfter(run, s256).vault;
            v.tokens[h].sessionID in PurgedVault(v, now).sessions
  {
    Reachable(run, skew, s256);
  }

  /** What a single request is granted: the token contents, or nothing. Error details are not compared. */
  datatype Outcome = Refused | Granted(userID: string, tenantID: string, sessionID: string, scope: string, clientID: string, idToken: Option<IDToken>)

  function RefreshOutcome(v: Vault, hash: string, creds: Creds, ids: Fresh, now: int, later: int): Outcome {
    var (v', reply) := RefreshGrant(v, hash, creds, ids, now, later);
    if reply.Issued? then
      var t := v'.tokens[reply.refresh];
      Granted(t.userID, t.tenantID, t.sessionID, t.scope, t.clientID, reply.idToken)
    else Refused
  }

  function ExchangeOutcome(v: Vault, code: string, uri: string, verifier: string, creds: Creds, s256: Transform, ids: Fresh, now: int, later: int): Outcome {
    var (v', reply) := CodeGrant(v, code, uri, verifier, creds, s256, ids, now, later);
    if reply.Issued? then
      var t := v'.tokens[reply.refresh];
      Granted(t.userID, t.tenantID, t.sessionID, t.scope, t.clientID, reply.idToken)
    else Refused
  }

  /** A sweep is invisible to any single later refresh: it is granted exactly what it would have been granted without. */
  lemma {:induction false} SweepIsInvisibleToRefresh(run: Run, skew: int, s256: Transform, sweep: int, now: int, later: int,
                                  hash: string, creds: Creds, ids: Fresh)
    requires Genuine(run, skew, s256) && 0 <= skew <= SESSION_TTL && sweep <= now
    ensures var v := WorldAfter(run, s256).vault;
            RefreshOutcome(PurgedVault(v, sweep), hash, creds, ids, now, later) == RefreshOutcome(v, hash, creds, ids, now, later)
  {
    var v := WorldAfter(run, s256).vault;
    if Grants.Known(v, hash, Refresh) && !TokenGone(v.tokens[hash], sweep) {
      var p, t := PurgedVault(v, sweep), v.tokens[hash];
      assert p.tokens[hash] == t;
      if t.sessionID in v.sessions {
        SweepSparesNamedSessions(run, skew, s256, hash, sweep);
      }
      assert SessionIn(p, t.tenantID, t.sessionID) == SessionIn(v, t.tenantID, t.sessionID);
    }
  }

  /** Likewise to any single later code exchange, */
  lemma SweepIsInvisibleToExchange(v: Vault, s256: Transform, sweep: int, now: int, later: int,
                                   code: string, uri: string, verifier: string, creds: Creds, ids: Fresh)
    requires sweep <= now
    ensures ExchangeOutcome(PurgedVault(v, sweep), code, uri, verifier, creds, s256, ids, now, later)
            == ExchangeOutcome(v, code, uri, verifier, creds, s256, ids, now, later)
  {
  }

  /** and to any single later /userinfo request. */
  lemma SweepIsInvisibleToUserInfo(v: Vault, sweep: int, now: int, hash: string, jwtValid: bool, userExists: bool)
    requires sweep <= now
    ensures UserInfoAccepts(PurgedVault(v, sweep), hash, jwtValid, userExists, now)
            == UserInfoAccepts(v, hash, jwtValid, userExists, now)
  {
  }

  /** A refusal reads the same too, except that a swept code or token is simply unknown (and that a family's revocation
      may count fewer tokens). */
  lemma RefusalsAfterSweep(v: Vault, s256: Transform, sweep: int, now: int, later: int,
                           code: string, uri: string, verifier: string, hash: string, creds: Creds, ids: Fresh)
    requires sweep <= now
    ensures var before, after := CodeGrant(v, code, uri, verifier, creds, s256, ids, now, later).1,
                                 CodeGrant(PurgedVault(v, sweep), code, uri, verifier, creds, s256, ids, now, later).1;
            after == before || (after == InvalidGrant && code in v.codes && CodeGone(v.codes[code], sweep))
    ensures var before, after := RefreshGrant(v, hash, creds, ids, now, later).1,
                                 RefreshGrant(PurgedVault(v, sweep), hash, creds, ids, now, later).1;
            before.Issued? || after == before || (after.FamilyRevoked? && before.FamilyRevoked?) ||
            (after == InvalidGrant && hash in v.tokens && TokenGone(v.tokens[hash], sweep))
  {
  }

  /** Two requests can tell: replaying a refresh token that is revoked and expired revokes its family when the token
      is still stored, and revokes nothing once it has been swept. */
  lemma SweptReplayRevokesNothing(v: Vault, hash: string, creds: Creds, ids: Fresh, now: int, later: int)
    requires Grants.Known(v, hash, Refresh) && !Unrevoked(v.tokens[hash]) && TokenGone(v.tokens[hash], now)
    requires hash != "" && creds.Creds?
    ensures RefreshGrant(v, hash, creds, ids, now, later)
            == (RevokedFamilies(v, OneFamily(v.tokens[hash].familyID), now), FamilyRevoked(|LiveIn(v, OneFamily(v.tokens[hash].familyID))|))
    ensures RefreshGrant(PurgedVault(v, now), hash, creds, ids, now, later) == (PurgedVault(v, now), InvalidGrant)
  {
  }

  // ---- Lineage ----

  /** What the login that started a family was for. */
  datatype Login = Login(sessionID: string, userID: string, tenantID: string, clientID: string, scope: string)

  function LoginOf(t: Token): Login {
    Login(t.sessionID, t.userID, t.tenantID, t.clientID, t.scope)
  }

  /** The login that an event starts a family with, if any. */
  function LoginsAfter(logins: map<string, Login>, v: Vault, e: Event, s256: Transform): map<string, Login> {
    match e
    case ExchangeCode(code, uri, verifier, creds, ids, now, later) =>
      if CodeGrant(v, code, uri, verifier, creds, s256, ids, now, later).1.Issued? then
        var ac := v.codes[code];
        logins[ids.familyID := Login(ids.sessionID, ac.userID, ac.tenantID, ac.clientID, ac.scope)]
      else logins
    case BearerToken(t, _, _) => logins[t.familyID := LoginOf(t)]
    case _ => logins
  }

  function Logins(run: Run, s256: Transform): map<string, Login> {
    if run.Start? then map[] else LoginsAfter(Logins(run.past, s256), WorldAfter(run.past, s256).vault, run.e, s256)
  }

  predicate TokensBound(v: Vault, logins: map<string, Login>) {
    forall h :: h in v.tokens ==>
      v.tokens[h].familyID in logins && LoginOf(v.tokens[h]) == logins[v.tokens[h].familyID] && v.tokens[h].clientID != ""
  }

  predicate SessionsAgree(v: Vault) {
    forall h :: h in v.tokens && v.tokens[h].sessionID in v.sessions ==>
      var s := v.sessions[v.tokens[h].sessionID];
      s.userID == v.tokens[h].userID && s.tenantID == v.tokens[h].tenantID
  }

  predicate CodesNamed(v: Vault) {
    forall c :: c in v.codes ==> v.codes[c].clientID != ""
  }

  lemma PairKeepsBinding(v: Vault, logins: map<string, Login>, sess: Session, scope: string, clientID: string,
                         familyID: string, ids: Fresh, now: int)
    requires TokensBound(v, logins) && SessionsAgree(v) && CodesNamed(v)
    requires sess.id in v.sessions && v.sessions[sess.id] == sess && clientID != ""
    requires familyID in logins && logins[familyID] == Login(sess.id, sess.userID, sess.tenantID, clientID, scope)
    ensures var w := PairIssued(v, sess, scope, clientID, familyID, ids, now);
            TokensBound(w, logins) && SessionsAgree(w) && CodesNamed(w)
  {
  }

  lemma ExchangeKeepsBinding(w: World, logins: map<string, Login>, e: Event, skew: int, s256: Transform)
    requires Inv(w, skew) && Enabled(w, e, skew) && e.ExchangeCode? && logins.Keys <= w.issued
    requires TokensBound(w.vault, logins) && SessionsAgree(w.vault) && CodesNamed(w.vault)
    ensures var v, l := After(w.vault, e, s256), LoginsAfter(logins, w.vault, e, s256);
            TokensBound(v, l) && SessionsAgree(v) && CodesNamed(v)
  {
    var v := w.vault;
    if CodeGrant(v, e.code, e.redirectURI, e.verifier, e.creds, s256, e.ids, e.now, e.later).1.Issued? {
      var ac := v.codes[e.code];
      var sess := NewSession(ac, e.ids.sessionID, e.now);
      var v1 := v.(codes := v.codes - {e.code}, sessions := v.sessions[sess.id := sess]);
      var l := LoginsAfter(logins, v, e, s256);
      assert e.ids.sessionID in Minted(e) && e.ids.familyID in Minted(e);
      assert TokensBound(v1, l) && SessionsAgree(v1) && CodesNamed(v1);
      PairKeepsBinding(v1, l, sess, ac.scope, ac.clientID, e.ids.familyID, e.ids, e.later);
    }
  }

  lemma RotateKeepsBinding(w: World, logins: map<string, Login>, e: Event, skew: int, s256: Transform)
    requires Inv(w, skew) && e.Rotate?
    requires TokensBound(w.vault, logins) && SessionsAgree(w.vault) && CodesNamed(w.vault)
    ensures var v := After(w.vault, e, s256); TokensBound(v, logins) && SessionsAgree(v) && CodesNamed(v)
  {
    var v := w.vault;
    if RefreshGrant(v, e.hash, e.creds, e.ids, e.now, e.later).1.Issued? {
      var t := v.tokens[e.hash];
      var sess := v.sessions[t.sessionID].(expiresAt := e.now + SESSION_TTL, updatedAt := e.now);
      var v1 := RevokedByHash(v.(sessions := v.sessions[t.sessionID := sess]), e.hash, e.now);
      assert TokensBound(v1, logins) && SessionsAgree(v1) && CodesNamed(v1);
      PairKeepsBinding(v1, logins, sess, t.scope, t.clientID, t.familyID, e.ids, e.later);
    }
  }

  /** In every reachable state rotation has kept each token bound to the login that started its family: the caller
      cannot change the user, tenant, audience, scope or session at refresh time. */
  lemma {:induction false} LineageIsKept(run: Run, skew: int, s256: Transform)
    requires Genuine(run, skew, s256) && 0 <= skew
    ensures TokensBound(WorldAfter(run, s256).vault, Logins(run, s256))
    ensures SessionsAgree(WorldAfter(run, s256).vault) && CodesNamed(WorldAfter(run, s256).vault)
    ensures Logins(run, s256).Keys <= WorldAfter(run, s256).issued
  {
    if run.Then? {
      LineageIsKept(run.past, skew, s256);
      Reachable(run.past, skew, s256);
      var w, logins, e := WorldAfter(run.past, s256), Logins(run.past, s256), run.e;
      if e.ExchangeCode? {
        ExchangeKeepsBinding(w, logins, e, skew, s256);
      } else if e.Rotate? {
        RotateKeepsBinding(w, logins, e, skew, s256);
      } else {
        OtherKeepsBinding(w, logins, e, skew, s256);
      }
    }
  }

  predicate Bound(v: Vault, logins: map<string, Login>) {
    TokensBound(v, logins) && SessionsAgree(v) && CodesNamed(v)
  }

  lemma RevokingKeepsBinding(v: Vault, logins: map<string, Login>, families: set<string>, hash: string, now: int)
    requires Bound(v, logins)
    ensures Bound(RevokedFamilies(v, families, now), logins) && Bound(RevokedByHash(v, hash, now), logins) && Bound(PurgedVault(v, now), logins)
  {
  }

  lemma BearerKeepsBinding(w: World, logins: map<string, Login>, e: Event, skew: int)
    requires Inv(w, skew) && Enabled(w, e, skew) && e.BearerToken? && logins.Keys <= w.issued && Bound(w.vault, logins)
    ensures Bound(w.vault.(sessions := w.vault.sessions[e.sess.id := e.sess], tokens := w.vault.tokens[e.t.hash := e.t]),
                  logins[e.t.familyID := LoginOf(e.t)])
  {
  }

  lemma OtherKeepsBinding(w: World, logins: map<string, Login>, e: Event, skew: int, s256: Transform)
    requires Inv(w, skew) && Enabled(w, e, skew) && !e.Rotate? && !e.ExchangeCode? && logins.Keys <= w.issued
    requires Bound(w.vault, logins)
    ensures Bound(After(w.vault, e, s256), LoginsAfter(logins, w.vault, e, s256))
  {
    var v := w.vault;
    match e
    case BearerToken(_, _, _) => BearerKeepsBinding(w, logins, e, skew);
    case RevokeOne(hash, now) => RevokingKeepsBinding(v, logins, {}, hash, now);
    case RevokeSessionWide(t, s, now) => RevokingKeepsBinding(v, logins, FamiliesOf(v, t, s), "", now);
    case Sweep(now) => RevokingKeepsBinding(v, logins, {}, "", now);
    case MintCode(_, _) =>
    case OpenSession(sess, _) => assert sess.id in Minted(e);
    case AlterSession(_, _, _, _) =>
  }
}
