/** The challenge endpoints (services/authenticator-service/internal/challenges.go) with the abuse controls in front. */
module ChallengeEndpoints {
  import opened Common
  import opened Challenges
  import AL = AccountLockout
  import SW = SlidingWindow

  datatype CreateReply =
    | CreateLocked(wait: int) | RateLimited(wait: int) | NoAuthenticator | DispatchFailed | Dispatched(c: Challenge)

  /** The per-user key shared by the creation limiter and the lockout. */
  function AbuseKey(tenantID: string, userID: string): string {
    tenantID + "|" + userID
  }

  /** Users of different tenants, and different users of one, have different keys, as long as tenant ids have no bar. */
  lemma AbuseKeysDiffer(t: string, u: string, t': string, u': string)
    requires '|' !in t && '|' !in t' && AbuseKey(t, u) == AbuseKey(t', u')
    ensures t == t' && u == u'
  {
    var k := AbuseKey(t, u);
    assert k[|t|] == '|' && k[|t'|] == '|';
    assert k[..|t|] == t && k[..|t'|] == t' && k[|t| + 1..] == u && k[|t'| + 1..] == u';
  }

  predicate FailedAtAdapter(c: Challenge, now: int, verdict: Verdict) {
    verdict.Wrong? && AdapterRuns(c, now)
  }

  /** Every stored row is the outcome of its challenge's life so far. */
  ghost predicate Matches(rows: map<string, Challenge>, lives: map<string, Life>, clock: int) {
    && (forall id :: Lookup(rows, id) == if id in lives then Row(lives[id]) else None)
    && (forall id :: id in lives ==> Proper(lives[id]) && Last(lives[id]) <= clock)
    && (forall id :: id in rows ==> rows[id].id == id)
  }

  lemma MatchesStep(rows: map<string, Challenge>, lives: map<string, Life>, clock: int, id: string, life: Life)
    requires Matches(rows, lives, clock) && clock <= Last(life) && Proper(life)
    requires Row(life).Some? && Row(life).value.id == id
    ensures Matches(rows[id := Row(life).value], lives[id := life], Last(life))
  {
  }

  ghost function AttemptsOf(attempts: map<string, AL.Attempts>, key: string): AL.Attempts {
    if key in attempts then attempts[key] else AL.NoAttempt
  }

  ghost function CounterOf(lockout: AL.Lockout?): SW.Limiter? {
    if lockout == null then null else lockout.failures
  }

  /** What the lockout knows about every key is the outcome of the attempts on it. */
  ghost predicate Tracks(lockout: AL.Lockout?, attempts: map<string, AL.Attempts>, clock: int)
    reads lockout, CounterOf(lockout)
  {
    lockout != null ==>
      && lockout.Valid() && lockout.NotBefore(clock)
      && forall key {:trigger AttemptsOf(attempts, key)} ::
           && AL.ClockForward(AttemptsOf(attempts, key)) && AL.NotBefore(AttemptsOf(attempts, key), clock)
           && lockout.View(key) == AL.StateAfter(AttemptsOf(attempts, key), lockout.rule)
  }

  class ChallengeHandlers {
    const store: Store
    /** Absent when the control is disabled. */
    const lockout: AL.Lockout?
    const createLimit: SW.Limiter?

    ghost var clock: int
    /** What happened so far to every challenge ever created, and to every lockout key. */
    ghost var lives: map<string, Life>
    ghost var attempts: map<string, AL.Attempts>

    ghost function Counter(): SW.Limiter? {
      CounterOf(lockout)
    }

    /** Every stored row and every lockout entry is the outcome of its own history. */
    ghost predicate Valid()
      reads this, store, lockout, createLimit, Counter()
    {
      && Matches(store.challenges, lives, clock) && Tracks(lockout, attempts, clock)
      && (createLimit != null ==> createLimit != Counter() && createLimit.Valid() && SW.NotBefore(createLimit.log, clock))
    }

    ghost predicate LockedOut(key: string, now: int)
      reads this, lockout, Counter()
    {
      lockout != null && AL.IsLocked(lockout.View(key), now)
    }

    /** The key's lock ends in exactly `wait`. */
    ghost predicate LockedFor(key: string, now: int, wait: int)
      reads this, lockout, Counter()
    {
      lockout != null && wait > 0 && lockout.View(key).until == Some(now + wait)
    }

    /** Either control may be absent; a threshold or window that is not positive also disables the lockout. */
    constructor (rule: Option<AL.Rule>, createRate: Option<(int, int)>)
      ensures Valid() && lives == map[] && attempts == map[]
      ensures lockout != null <==> rule.Some? && AL.Enabled(rule.value)
      ensures lockout != null ==> lockout.rule == rule.value
    {
      var l: AL.Lockout? := null;
      if rule.Some? {
        l := AL.NewLockout(rule.value);
      }
      var c: SW.Limiter? := null;
      if createRate.Some? {
        c := new SW.Limiter(createRate.value.0, createRate.value.1);
      }
      var s := new Store();
      store, lockout, createLimit := s, l, c;
      clock, lives, attempts := 0, map[], map[];
    }

    /** The lockout gate in front of both endpoints. */
    method Gate(key: string, now: int) returns (locked: bool, wait: int)
      requires Tracks(lockout, attempts, clock) && clock <= now
      modifies this`clock, this`attempts, lockout
      ensures Tracks(lockout, attempts, now) && clock == now
      ensures locked == old(LockedOut(key, now))
      ensures locked ==> wait > 0 && old(lockout.View(key)).until == Some(now + wait)
      ensures lockout == null ==> attempts == old(attempts)
      ensures lockout != null ==> attempts == old(attempts)[key := AL.Attempt(AttemptsOf(old(attempts), key), now, false)]
      ensures !locked ==> !LockedOut(key, now)
    {
      clock := now;
      if lockout == null {
        return false, 0;
      }
      ghost var before := attempts;
      assert AttemptsOf(before, key) == AttemptsOf(attempts, key);
      locked, wait := lockout.Locked(key, now);
      attempts := before[key := AL.Attempt(AttemptsOf(before, key), now, false)];
      forall k ensures && AL.ClockForward(AttemptsOf(attempts, k)) && AL.NotBefore(AttemptsOf(attempts, k), now)
                       && lockout.View(k) == AL.StateAfter(AttemptsOf(attempts, k), lockout.rule)
      {
        assert AL.NotBefore(AttemptsOf(before, k), old(clock));
      }
    }

    /** The creation limiter already counts its limit of admitted creations of the key. */
    ghost predicate Full(key: string, now: int)
      reads this, createLimit
    {
      createLimit != null && 0 < createLimit.limit <= |SW.Counted(createLimit.log, key, createLimit.window, now)|
    }

    /** Creates a challenge for the first preferred method the user can serve. A locked-out user consumes no
        creation slot, and nothing is stored unless the adapter dispatched the challenge. `active` lists the
        user's active authenticators in any order; `freshID` is a new id. */
    method Create(tenantID: string, userID: string, methods: seq<string>, active: seq<Authenticator>,
                  freshID: string, now: int, dispatched: bool) returns (reply: CreateReply)
      requires Valid() && clock <= now && freshID !in lives
      modifies this, store, lockout, createLimit
      ensures Valid() && clock == now
      ensures reply.CreateLocked? <==> old(LockedOut(AbuseKey(tenantID, userID), now))
      ensures reply.CreateLocked? && createLimit != null ==> createLimit.log == old(createLimit.log)
      ensures !reply.CreateLocked? ==> (reply.RateLimited? <==> createLimit != null && old(Full(AbuseKey(tenantID, userID), now)))
      ensures !reply.CreateLocked? && createLimit != null && 0 < createLimit.limit ==>
                createLimit.log == SW.Call(old(createLimit.log), AbuseKey(tenantID, userID), now, !reply.RateLimited?)
      ensures reply.NoAuthenticator? ==> forall a :: a in active ==> a.kind !in methods
      ensures (reply.Dispatched? ==> dispatched) && (reply.DispatchFailed? ==> !dispatched)
      ensures reply.CreateLocked? ==> old(LockedFor(AbuseKey(tenantID, userID), now, reply.wait))
      ensures reply.RateLimited? ==> 0 < reply.wait && reply.wait == old(SW.RetryAfter(createLimit.log, AbuseKey(tenantID, userID), createLimit.window, now))
      ensures !reply.Dispatched? ==> store.challenges == old(store.challenges) && lives == old(lives)
      ensures reply.Dispatched? ==>
                && IsNew(reply.c, tenantID, userID, methods, active, freshID, now)
                && store.challenges == old(store.challenges)[freshID := reply.c]
                && lives == old(lives)[freshID := Created(reply.c)]
    {
      var key := AbuseKey(tenantID, userID);
      var locked, wait := Gate(key, now);
      if locked {
        return CreateLocked(wait);
      }
      if createLimit != null {
        var ok, retryAfter := createLimit.Allow(key, now);
        if !ok {
          return RateLimited(retryAfter);
        }
      }
      reply := Dispatch(tenantID, userID, methods, active, freshID, now, dispatched);
    }

    /** The challenge a dispatched creation stores. */
    ghost predicate IsNew(c: Challenge, tenantID: string, userID: string, methods: seq<string>, active: seq<Authenticator>, freshID: string, now: int) {
      && New(c) && c.id == freshID && c.tenantID == tenantID && c.userID == userID
      && c.createdAt == now && c.expiresAt == now + 5 * MINUTE
      && exists best: Authenticator :: best.id == c.authenticatorID && IsSelection(methods, active, c.kind, best)
    }

    /** The rest of the handler once the lockout and the rate limit let the request through. */
    method Dispatch(tenantID: string, userID: string, methods: seq<string>, active: seq<Authenticator>,
                    freshID: string, now: int, dispatched: bool) returns (reply: CreateReply)
      requires Matches(store.challenges, lives, now) && freshID !in lives
      modifies this`lives, store
      ensures Matches(store.challenges, lives, now)
      ensures reply.NoAuthenticator? || reply.DispatchFailed? || reply.Dispatched?
      ensures (reply.Dispatched? ==> dispatched) && (reply.DispatchFailed? ==> !dispatched)
      ensures reply.NoAuthenticator? <==> forall a :: a in active ==> a.kind !in methods
      ensures !reply.Dispatched? ==> store.challenges == old(store.challenges) && lives == old(lives)
      ensures reply.Dispatched? ==>
                && IsNew(reply.c, tenantID, userID, methods, active, freshID, now)
                && store.challenges == old(store.challenges)[freshID := reply.c]
                && lives == old(lives)[freshID := Created(reply.c)]
    {
      var kind, best := SelectAuthenticator(methods, active);
      if best.None? {
        return NoAuthenticator;
      }
      if !dispatched {
        return DispatchFailed;
      }
      var c := Challenge(freshID, tenantID, userID, kind, best.value.id, Pending, 0, now, now + CHALLENGE_TTL, None, None);
      MatchesStep(store.challenges, lives, now, freshID, Created(c));
      store.PutChallenge(c);
      lives := lives[freshID := Created(c)];
      return Dispatched(c);
    }

    /** One atomic verification: the row moves as its life says, and exactly a failed adapter run reaches the lockout.
        A missing row, or one of another tenant, changes nothing. */
    method Verify(tenantID: string, id: string, now: int, verdict: Verdict) returns (reply: VerifyReply)
      requires Valid() && clock <= now
      modifies this, store, lockout, Counter()
      ensures Valid() && clock == now
      ensures id !in old(store.challenges) || old(store.challenges)[id].tenantID != tenantID ==>
                reply == NotFound && store.challenges == old(store.challenges) && attempts == old(attempts)
      ensures id in old(store.challenges) && old(store.challenges)[id].tenantID == tenantID ==>
                var c := old(store.challenges)[id];
                var key := AbuseKey(tenantID, c.userID);
                var locked := old(LockedOut(key, now));
                && lives == old(lives)[id := Tried(old(lives)[id], now, locked, verdict)]
                && (if locked then reply.AccountLocked? && old(LockedFor(key, now, reply.wait)) else reply == ReplyOf(c, now, verdict))
                && (lockout != null ==>
                      attempts == old(attempts)[key := AL.Attempt(AttemptsOf(old(attempts), key), now, FailedRun(lives[id]))])
    {
      var found := store.GetChallenge(tenantID, id);
      if found.None? {
        clock := now;
        return NotFound;
      }
      assert Lookup(store.challenges, id) == Some(found.value);
      reply := VerifyFound(tenantID, found.value, now, verdict);
    }

    method VerifyFound(tenantID: string, c: Challenge, now: int, verdict: Verdict) returns (reply: VerifyReply)
      requires Matches(store.challenges, lives, clock) && Tracks(lockout, attempts, clock) && clock <= now
      requires c.id in store.challenges && store.challenges[c.id] == c && c.tenantID == tenantID && c.id in lives
      modifies this, store, lockout, Counter()
      ensures Matches(store.challenges, lives, now) && Tracks(lockout, attempts, now) && clock == now
      ensures var key := AbuseKey(tenantID, c.userID);
              var locked := old(LockedOut(key, now));
              && lives == old(lives)[c.id := Tried(old(lives)[c.id], now, locked, verdict)]
              && (if locked then reply.AccountLocked? && old(LockedFor(key, now, reply.wait)) else reply == ReplyOf(c, now, verdict))
              && (lockout != null ==>
                    attempts == old(attempts)[key := AL.Attempt(AttemptsOf(old(attempts), key), now, FailedRun(lives[c.id]))])
    {
      ghost var rows, before := store.challenges, lives;
      assert Lookup(rows, c.id) == Some(c) && Row(before[c.id]) == Some(c);
      ghost var life := Tried(before[c.id], now, LockedOut(AbuseKey(tenantID, c.userID), now), verdict);
      reply := FromTheGate(tenantID, c, now, verdict);
      lives := before[c.id := life];
      assert store.challenges == rows[c.id := Row(life).value];
      MatchesStep(rows, before, now, c.id, life);
    }

    /** The handler from the lockout gate on, without the bookkeeping of the challenge's life. */
    method FromTheGate(tenantID: string, c: Challenge, now: int, verdict: Verdict) returns (reply: VerifyReply)
      requires Tracks(lockout, attempts, clock) && clock <= now
      requires c.id in store.challenges && store.challenges[c.id] == c && c.tenantID == tenantID
      modifies this`clock, this`attempts, store, lockout, Counter()
      ensures Tracks(lockout, attempts, now) && clock == now
      ensures var key := AbuseKey(tenantID, c.userID);
              var locked := old(LockedOut(key, now));
              && store.challenges == (if locked then old(store.challenges) else old(store.challenges)[c.id := VerifyRow(c, now, verdict)])
              && (if locked then reply.AccountLocked? && old(LockedFor(key, now, reply.wait)) else reply == ReplyOf(c, now, verdict))
              && (lockout != null ==>
                    attempts == old(attempts)[key := AL.Attempt(AttemptsOf(old(attempts), key), now, !locked && FailedAtAdapter(c, now, verdict))])
    {
      var key := AbuseKey(tenantID, c.userID);
      var locked, wait := Gate(key, now);
      if locked {
        return AccountLocked(wait);
      }
      reply := Unlocked(tenantID, c, key, now, verdict);
    }

    /** The rest of the handler once the lockout let the request through. */
    method Unlocked(tenantID: string, c: Challenge, key: string, now: int, verdict: Verdict) returns (reply: VerifyReply)
      requires c.id in store.challenges && store.challenges[c.id] == c && c.tenantID == tenantID
      requires Tracks(lockout, attempts, now)
      requires lockout != null ==> JustGated(key, now)
      modifies this`attempts, store, lockout, Counter()
      ensures Tracks(lockout, attempts, now)
      ensures store.challenges == old(store.challenges)[c.id := VerifyRow(c, now, verdict)]
      ensures reply == ReplyOf(c, now, verdict)
      ensures lockout != null ==>
                attempts == old(attempts)[key := AL.Attempt(AttemptsOf(old(attempts), key).past, now, FailedAtAdapter(c, now, verdict))]
    {
      reply := Settle(tenantID, c, now, verdict);
      if lockout != null && FailedAtAdapter(c, now, verdict) {
        CountFailure(key, now);
      }
    }

    /** The key's last attempt was let through just now. */
    ghost predicate JustGated(key: string, now: int)
      requires lockout != null && AL.Enabled(lockout.rule)
      reads this
    {
      key in attempts && attempts[key].Attempt? &&
      attempts[key].at == now && !attempts[key].failed && !AL.IsLocked(AL.StateAfter(attempts[key].past, lockout.rule), now)
    }

    /** What the handler does with the row once the lockout let the request through. */
    method Settle(tenantID: string, c: Challenge, now: int, verdict: Verdict) returns (reply: VerifyReply)
      requires c.id in store.challenges && store.challenges[c.id] == c && c.tenantID == tenantID
      modifies store
      ensures store.challenges == old(store.challenges)[c.id := VerifyRow(c, now, verdict)]
      ensures reply == ReplyOf(c, now, verdict)
    {
      if c.status != Pending {
        return Closed(c.status);
      }
      if now >= c.expiresAt {
        var _ := store.UpdateChallenge(tenantID, c.id, Flipped);
        return ChallengeExpired;
      }
      var remaining := BackoffRemaining(c, now);
      if remaining > 0 {
        return RetryBackoff(remaining);
      }
      match verdict
      case NoAdapter => return InternalError;
      case AdapterError => return VerifyFailed;
      case Right =>
        var _ := store.UpdateChallenge(tenantID, c.id, ch => Succeeded(ch, now));
        return Verified(c.authenticatorID);
      case Wrong =>
        var updated := store.UpdateChallenge(tenantID, c.id, ch => FailedOnce(ch, now));
        return if updated.c.status == Failed then MaxAttemptsExceeded else InvalidResponse;
    }

    /** Turns the attempt just gated into a failed one. */
    method CountFailure(key: string, now: int)
      requires lockout != null && Tracks(lockout, attempts, now)
      requires JustGated(key, now)
      modifies this`attempts, lockout, Counter()
      ensures Tracks(lockout, attempts, now)
      ensures attempts == old(attempts)[key := AL.Attempt(AttemptsOf(old(attempts), key).past, now, true)]
    {
      ghost var before := attempts;
      assert lockout.View(key) == AL.StateAfter(AttemptsOf(before, key), lockout.rule);
      lockout.RecordFailure(key, now);
      attempts := before[key := AL.Attempt(AttemptsOf(before, key).past, now, true)];
      forall k ensures && AL.ClockForward(AttemptsOf(attempts, k)) && AL.NotBefore(AttemptsOf(attempts, k), now)
                       && lockout.View(k) == AL.StateAfter(AttemptsOf(attempts, k), lockout.rule)
      {
        assert AL.NotBefore(AttemptsOf(before, k), now);
      }
    }

    /** The background sweeper. */
    method Sweep(now: int) returns (n: nat)
      requires Valid() && clock <= now
      modifies this, store
      ensures Valid() && clock == now
      ensures lives == map id | id in old(lives) :: Swept(old(lives)[id], now)
      ensures n == |old(store.challenges)| - |store.challenges|
    {
      n := store.PurgeExpired(now);
      clock := now;
      ghost var before := lives;
      lives := map id | id in before :: Swept(before[id], now);
      forall id ensures Lookup(store.challenges, id) == if id in lives then Row(lives[id]) else None {
        assert Lookup(old(store.challenges), id) == if id in before then Row(before[id]) else None;
      }
    }
  }
}
