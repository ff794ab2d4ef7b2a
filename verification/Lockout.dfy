/** Account lockout (services/authenticator-service/internal/abuse.go), built on the sliding-window limiter. */
module AccountLockout {
  import opened Common
  import SW = SlidingWindow

  // ---- What the lockout knows about one key, and one atomic attempt on it ----

  /** The failures the limiter counted, and the stored lock deadline, if any. */
  datatype KeyState = KeyState(counted: Times, until: Option<int>)

  const UNLOCKED := KeyState(Never, None)

  /** Threshold and window, both positive: anything else disables the lockout. */
  datatype Rule = Rule(threshold: int, window: int)

  predicate Enabled(rule: Rule) {
    1 <= rule.threshold && 1 <= rule.window
  }

  predicate IsLocked(s: KeyState, now: int) {
    s.until.Some? && now < s.until.value
  }

  /** Locked forgets a deadline that has passed. */
  function Pruned(s: KeyState, now: int): KeyState {
    if IsLocked(s, now) then s else s.(until := None)
  }

  /** The failures that still count at `now`, oldest first. */
  function Recent(s: KeyState, rule: Rule, now: int): seq<int> {
    Live(s.counted, now - rule.window)
  }

  /** This failure is the threshold-th of the window: it locks the key and is not itself counted. */
  predicate Trips(s: KeyState, rule: Rule, now: int) {
    rule.threshold == 1 || |Recent(s, rule, now)| >= rule.threshold - 1
  }

  /** When a lock tripped at `now` ends. */
  function LockEnd(s: KeyState, rule: Rule, now: int): int
    requires Enabled(rule) && Trips(s, rule, now)
  {
    if rule.threshold == 1 then now + rule.window else now + (Recent(s, rule, now)[0] - (now - rule.window))
  }

  function AfterFailure(s: KeyState, rule: Rule, now: int): KeyState
    requires Enabled(rule)
  {
    if Trips(s, rule, now) then s.(until := Some(LockEnd(s, rule, now)))
    else s.(counted := Then(s.counted, now))
  }

  /** One atomic pass through the lockout: rejected while locked; otherwise a failure is recorded. */
  function Pass(s: KeyState, rule: Rule, now: int, failed: bool): KeyState
    requires Enabled(rule)
  {
    if IsLocked(s, now) || !failed then Pruned(s, now) else AfterFailure(Pruned(s, now), rule, now)
  }

  // ---- Runs of atomic attempts on one key ----

  /** The attempts on one key: when, and whether the verification failed (or would have), latest last. */
  datatype Attempts = NoAttempt | Attempt(past: Attempts, at: int, failed: bool)

  predicate NotBefore(run: Attempts, now: int) {
    run.Attempt? ==> run.at <= now
  }

  predicate ClockForward(run: Attempts) {
    run.Attempt? ==> ClockForward(run.past) && NotBefore(run.past, run.at)
  }

  function StateAfter(run: Attempts, rule: Rule): KeyState
    requires Enabled(rule)
  {
    match run
    case NoAttempt => UNLOCKED
    case Attempt(past, at, failed) => Pass(StateAfter(past, rule), rule, at, failed)
  }

  /** The last attempt was a failed verification that was not rejected. */
  predicate Failure(run: Attempts, rule: Rule)
    requires Enabled(rule) && run.Attempt?
  {
    run.failed && !IsLocked(StateAfter(run.past, rule), run.at)
  }

  /** The last attempt tripped the lock. */
  predicate Tripped(run: Attempts, rule: Rule)
    requires Enabled(rule) && run.Attempt?
  {
    Failure(run, rule) && Trips(StateAfter(run.past, rule), rule, run.at)
  }

  /** Failed verifications in (lo, hi]. */
  function FailuresIn(run: Attempts, rule: Rule, lo: int, hi: int): nat
    requires Enabled(rule)
  {
    if run.NoAttempt? then 0
    else FailuresIn(run.past, rule, lo, hi) + (if Failure(run, rule) && lo < run.at <= hi then 1 else 0)
  }

  /** Failed verifications in (lo, hi] that locked the key. */
  function TripsIn(run: Attempts, rule: Rule, lo: int, hi: int): nat
    requires Enabled(rule)
  {
    if run.NoAttempt? then 0
    else TripsIn(run.past, rule, lo, hi) + (if Tripped(run, rule) && lo < run.at <= hi then 1 else 0)
  }

  /** The counted failures form a sliding-window log bounded by threshold - 1. */
  lemma {:induction false} CountedBound(run: Attempts, rule: Rule, x: int)
    requires Enabled(rule) && ClockForward(run)
    ensures InOrder(StateAfter(run, rule).counted)
    ensures run.Attempt? ==> UpTo(StateAfter(run, rule).counted, run.at)
    ensures CountIn(StateAfter(run, rule).counted, x, x + rule.window) <= rule.threshold - 1
  {
    if run.Attempt? {
      CountedBound(run.past, rule, x);
      if x < run.at <= x + rule.window {
        CountWithinLive(StateAfter(run.past, rule).counted, run.at - rule.window, x, x + rule.window);
      }
    }
  }

  /** At most threshold - 1 failures count at any instant. */
  lemma RecentBound(run: Attempts, rule: Rule, now: int)
    requires Enabled(rule) && ClockForward(run) && NotBefore(run, now)
    ensures |Recent(StateAfter(run, rule), rule, now)| <= rule.threshold - 1
  {
    CountedBound(run, rule, now - rule.window);
    CountIsLive(StateAfter(run, rule).counted, now - rule.window, now);
  }

  /** A lock ends exactly when the oldest counted failure leaves the window (a whole window later when every
      failure locks), hence strictly after it began and within one window. */
  lemma LockEndsWithOldest(run: Attempts, rule: Rule)
    requires Enabled(rule) && ClockForward(run) && run.Attempt? && Tripped(run, rule)
    ensures StateAfter(run, rule).until.Some?
    ensures run.at < StateAfter(run, rule).until.value <= run.at + rule.window
    ensures rule.threshold > 1 ==>
              var recent := Recent(StateAfter(run.past, rule), rule, run.at);
              |recent| == rule.threshold - 1 && StateAfter(run, rule).until.value == recent[0] + rule.window
  {
    if rule.threshold > 1 {
      RecentBound(run.past, rule, run.at);
      CountedBound(run.past, rule, run.at);
      OldestInRange(StateAfter(run.past, rule).counted, run.at - rule.window);
    }
  }

  /** No failure got through after the last lock of `run` tripped, up to the end of `run`. */
  predicate SinceTrip(run: Attempts, rule: Rule)
    requires Enabled(rule)
  {
    run.Attempt? && (Tripped(run, rule) || (!Failure(run, rule) && SinceTrip(run.past, rule)))
  }

  /** The deadline of the last lock, when no failure got through since. */
  function Deadline(run: Attempts, rule: Rule): int
    requires Enabled(rule) && SinceTrip(run, rule)
  {
    if Tripped(run, rule) then StateAfter(run, rule).until.value else Deadline(run.past, rule)
  }

  /** Until a lock ends every attempt is rejected; from its end on, strictly fewer than threshold - 1 failures count. */
  lemma {:induction false} AfterTheLock(run: Attempts, rule: Rule, now: int)
    requires Enabled(rule) && ClockForward(run) && NotBefore(run, now) && SinceTrip(run, rule)
    ensures IsLocked(StateAfter(run, rule), now) <==> now < Deadline(run, rule)
    ensures Deadline(run, rule) <= now && rule.threshold > 1 ==>
              |Recent(StateAfter(run, rule), rule, now)| < rule.threshold - 1
  {
    if Tripped(run, rule) {
      LockEndsWithOldest(run, rule);
      if rule.threshold > 1 && Deadline(run, rule) <= now {
        CountedBound(run.past, rule, run.at);
        OldestLeaves(StateAfter(run.past, rule).counted, run.at - rule.window, now - rule.window);
      }
    } else {
      AfterTheLock(run.past, rule, run.at);
      AfterTheLock(run.past, rule, now);
    }
  }

  /** The first failure after a lock is counted: it never locks the key again at once. */
  lemma FirstFailureAfterLockCounts(run: Attempts, rule: Rule)
    requires Enabled(rule) && rule.threshold > 1 && ClockForward(run) && run.Attempt?
    requires SinceTrip(run.past, rule) && Failure(run, rule)
    ensures !Tripped(run, rule) && run.at >= Deadline(run.past, rule)
    ensures StateAfter(run, rule).counted == Then(StateAfter(run.past, rule).counted, run.at)
  {
    AfterTheLock(run.past, rule, run.at);
  }

  lemma {:induction false} NoTripsYet(run: Attempts, rule: Rule, lo: int, hi: int)
    requires Enabled(rule) && ClockForward(run) && NotBefore(run, lo)
    ensures TripsIn(run, rule, lo, hi) == 0
  {
    if run.Attempt? {
      NoTripsYet(run.past, rule, lo, hi);
    }
  }

  /** Every failure is counted or trips; between two trips one is counted, so trips exceed counted failures by one at most. */
  lemma {:induction false} TripsBound(run: Attempts, rule: Rule, x: int, hi: int)
    requires Enabled(rule) && rule.threshold > 1 && ClockForward(run)
    ensures FailuresIn(run, rule, x, hi) == CountIn(StateAfter(run, rule).counted, x, hi) + TripsIn(run, rule, x, hi)
    ensures TripsIn(run, rule, x, hi) <= CountIn(StateAfter(run, rule).counted, x, hi) + 1
    ensures NotBefore(run, hi) && !SinceTrip(run, rule) ==>
              TripsIn(run, rule, x, hi) <= CountIn(StateAfter(run, rule).counted, x, hi)
  {
    if run.Attempt? {
      TripsBound(run.past, rule, x, hi);
      if SinceTrip(run.past, rule) && Failure(run, rule) {
        FirstFailureAfterLockCounts(run, rule);
        if run.at <= x {
          NoTripsYet(run, rule, x, hi);
        }
      }
    }
  }

  /** With threshold 1 every failure locks for a whole window. */
  lemma {:induction false} SingleFailureBound(run: Attempts, rule: Rule, x: int)
    requires Enabled(rule) && rule.threshold == 1 && ClockForward(run)
    ensures FailuresIn(run, rule, x, x + rule.window) <= 1
    ensures SinceTrip(run, rule) && Deadline(run, rule) <= x + rule.window ==> FailuresIn(run, rule, x, x + rule.window) == 0
    ensures !SinceTrip(run, rule) ==> FailuresIn(run, rule, x, x + rule.window) == 0
  {
    if run.Attempt? {
      SingleFailureBound(run.past, rule, x);
      if SinceTrip(run.past, rule) {
        AfterTheLock(run.past, rule, run.at);
      }
    }
  }

  /** Main bound: any interval (x, x + window] holds at most 2 * threshold - 1 failed verifications of one key. */
  lemma LockoutBound(run: Attempts, rule: Rule, x: int)
    requires Enabled(rule) && ClockForward(run)
    ensures FailuresIn(run, rule, x, x + rule.window) <= 2 * rule.threshold - 1
  {
    if rule.threshold == 1 {
      SingleFailureBound(run, rule, x);
    } else {
      CountedBound(run, rule, x);
      TripsBound(run, rule, x, x + rule.window);
    }
  }

  /** The bound is reached: threshold 2, window 10, failures at 0, 9, 10 and 10, interval (8, 18]. */
  lemma BoundIsTight()
    ensures var rule := Rule(2, 10);
            var run := Attempt(Attempt(Attempt(Attempt(NoAttempt, 0, true), 9, true), 10, true), 10, true);
            ClockForward(run) && FailuresIn(run, rule, 8, 18) == 2 * rule.threshold - 1
  {
  }

  // ---- The lockout as written ----

  class Lockout {
    const rule: Rule
    /** Absent when every failure locks. */
    const failures: SW.Limiter?
    var lockedUntil: map<string, int>

    ghost predicate Valid()
      reads this, failures
    {
      && Enabled(rule)
      && (failures == null <==> rule.threshold == 1)
      && (failures != null ==> failures.Valid() && failures.limit == rule.threshold - 1 && failures.window == rule.window)
    }

    /** The clock has not passed `now`. */
    ghost predicate NotBefore(now: int)
      reads this, failures
    {
      failures != null ==> SW.NotBefore(failures.log, now)
    }

    ghost function View(key: string): KeyState
      reads this, failures
    {
      KeyState(if failures == null then Never else SW.Admitted(failures.log, key), Lookup(lockedUntil, key))
    }

    constructor (rule: Rule)
      requires Enabled(rule)
      ensures Valid() && this.rule == rule
      ensures forall now :: NotBefore(now)
      ensures failures != null ==> fresh(failures)
      ensures forall key :: View(key) == UNLOCKED
    {
      this.rule := rule;
      var counter: SW.Limiter? := null;
      if rule.threshold > 1 {
        counter := new SW.Limiter(rule.threshold - 1, rule.window);
      }
      failures := counter;
      lockedUntil := map[];
    }

    /** Reports whether the key is locked and for how long; a deadline that has passed is dropped. */
    method Locked(key: string, now: int) returns (locked: bool, wait: int)
      requires Valid()
      modifies this
      ensures Valid() && (old(NotBefore(now)) ==> NotBefore(now))
      ensures locked == IsLocked(old(View(key)), now)
      ensures if locked then wait > 0 && old(View(key)).until == Some(now + wait) else wait == 0
      ensures View(key) == Pruned(old(View(key)), now)
      ensures forall k :: k != key ==> View(k) == old(View(k))
    {
      if key !in lockedUntil {
        return false, 0;
      }
      var until := lockedUntil[key];
      if now < until {
        return true, until - now;
      }
      lockedUntil := lockedUntil - {key};
      return false, 0;
    }

    /** Registers one failed verification; the threshold-th of the window locks the key. */
    method RecordFailure(key: string, now: int)
      requires Valid() && NotBefore(now)
      modifies this, failures
      ensures Valid() && NotBefore(now)
      ensures View(key) == AfterFailure(old(View(key)), rule, now)
      ensures forall k :: k != key ==> View(k) == old(View(k))
    {
      if failures == null {
        Lock(key, rule.window, now);
        return;
      }
      var ok, retryAfter := failures.Allow(key, now);
      if !ok {
        Lock(key, retryAfter, now);
      }
    }

    method Lock(key: string, d: int, now: int)
      modifies this
      ensures lockedUntil == old(lockedUntil)[key := now + d]
    {
      lockedUntil := lockedUntil[key := now + d];
    }
  }

  /** A threshold or window that is not positive yields no lockout: the control is disabled. */
  method NewLockout(rule: Rule) returns (l: Lockout?)
    ensures l == null <==> rule.threshold <= 0 || rule.window <= 0
    ensures l != null ==> fresh(l) && l.Valid() && l.rule == rule && (l.failures != null ==> fresh(l.failures))
    ensures l != null ==> (forall now :: l.NotBefore(now)) && forall key :: l.View(key) == UNLOCKED
  {
    if rule.threshold <= 0 || rule.window <= 0 {
      return null;
    }
    l := new Lockout(rule);
  }
}
