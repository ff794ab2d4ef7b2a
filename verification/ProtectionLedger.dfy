/** The per-session assurance ledger (services/authentication-service/internal/protection.go). */
module AssuranceLedger {
  import opened Common

  // ---- The history of one session's step-ups, and what it is worth ----

  /** The step-ups recorded for one session, latest last. */
  datatype Steps = NoStep | Step(past: Steps, rank: int, at: int)

  predicate NotBefore(steps: Steps, now: int) {
    steps.Step? ==> steps.at <= now
  }

  predicate ClockForward(steps: Steps) {
    steps.Step? ==> ClockForward(steps.past) && NotBefore(steps.past, steps.at)
  }

  /** The longest suffix of the history in which no two neighbours are more than `ttl` apart. */
  function Chain(steps: Steps, ttl: int): Steps {
    match steps
    case NoStep => NoStep
    case Step(past, rank, at) =>
      if past.Step? && at - past.at <= ttl then Step(Chain(past, ttl), rank, at) else Step(NoStep, rank, at)
  }

  /** The highest rank of the steps, never below zero. */
  function Highest(steps: Steps): int {
    if steps.NoStep? then 0 else Max(Highest(steps.past), steps.rank)
  }

  /** The reference answer: the highest rank of the unbroken chain, if its last step is recent enough. */
  function AchievedBy(steps: Steps, ttl: int, now: int): int {
    if steps.Step? && now - steps.at <= ttl then Highest(Chain(steps, ttl)) else 0
  }

  function AchievedWithinBy(steps: Steps, ttl: int, within: int, now: int): int {
    if within > 0 && steps.Step? && now - steps.at <= Min(within, ttl) then Highest(Chain(steps, ttl)) else 0
  }

  predicate IsSuffix(part: Steps, whole: Steps) {
    part.NoStep? || (whole.Step? && part.rank == whole.rank && part.at == whole.at && IsSuffix(part.past, whole.past))
  }

  /** No two neighbouring steps are more than `ttl` apart. */
  predicate Unbroken(steps: Steps, ttl: int) {
    steps.Step? && steps.past.Step? ==> steps.at - steps.past.at <= ttl && Unbroken(steps.past, ttl)
  }

  function Length(steps: Steps): nat {
    if steps.NoStep? then 0 else 1 + Length(steps.past)
  }

  /** The chain is the longest unbroken suffix: it is one, and every other unbroken suffix is a suffix of it. */
  lemma {:induction false} ChainIsLongest(steps: Steps, ttl: int, other: Steps)
    ensures IsSuffix(Chain(steps, ttl), steps) && Unbroken(Chain(steps, ttl), ttl)
    ensures IsSuffix(other, steps) && Unbroken(other, ttl) ==> Length(other) <= Length(Chain(steps, ttl))
  {
    assert Length(NoStep) == 0;
    if steps.Step? {
      ChainIsLongest(steps.past, ttl, if other.Step? then other.past else NoStep);
      if other.Step? && IsSuffix(other, steps) && Unbroken(other, ttl) && other.past.Step? {
        assert IsSuffix(other.past, steps.past) && Unbroken(other.past, ttl);
        assert other.past.at == steps.past.at;
        assert Length(Chain(steps, ttl)) == 1 + Length(Chain(steps.past, ttl));
      }
    }
  }

  /** A later step-up of a lower rank keeps the higher rank alive, so the answer can outlive `ttl` counted from
      the step-up that earned it: freshness is that of the last step-up, of any rank. */
  lemma LowerRankRefreshes(high: int, low: int, ttl: int, t: int)
    requires 0 < low < high && 0 < ttl
    ensures var steps := Step(Step(NoStep, high, t), low, t + ttl);
            AchievedBy(steps, ttl, t + 2 * ttl) == high && AchievedBy(steps.past, ttl, t + 2 * ttl) == 0
  {
    var steps := Step(Step(NoStep, high, t), low, t + ttl);
    assert Chain(steps.past, ttl) == steps.past;
    assert Highest(NoStep) == 0 && Highest(steps.past) == high;
  }

  // ---- The stored entries ----

  datatype Entry = Entry(rank: int, at: int)

  type Entries = map<string, Entry>

  /** What gcLocked leaves: the entries at most `ttl` old. */
  function Collected(m: Entries, ttl: int, now: int): Entries {
    map k | k in m && now - m[k].at <= ttl :: m[k]
  }

  function Recorded(m: Entries, ttl: int, session: string, rank: int, now: int): Entries {
    if session == "" then m
    else
      var live := Collected(m, ttl, now);
      live[session := Entry(Max(rank, if session in live then live[session].rank else 0), now)]
  }

  function RankIn(m: Entries, session: string): int {
    if session in m then m[session].rank else 0
  }

  /** The entry of a session tells its history; a missing entry means the history has gone stale by `clock`. */
  ghost predicate Reflects(m: Entries, history: map<string, Steps>, ttl: int, clock: int) {
    forall s {:trigger StepsOf(history, s)} ::
      var steps := StepsOf(history, s);
      && ClockForward(steps) && NotBefore(steps, clock)
      && (s in m ==> steps.Step? && m[s] == Entry(Highest(Chain(steps, ttl)), steps.at))
      && (s !in m && steps.Step? ==> clock - steps.at > ttl)
  }

  ghost function StepsOf(history: map<string, Steps>, s: string): Steps {
    if s in history then history[s] else NoStep
  }

  /** Collecting garbage at any time, any number of times, is invisible. */
  lemma CollectingIsInvisible(m: Entries, history: map<string, Steps>, ttl: int, clock: int, now: int)
    requires Reflects(m, history, ttl, clock) && clock <= now
    ensures Reflects(Collected(m, ttl, now), history, ttl, now)
  {
  }

  /** Between collections the stored entries answer as the whole history does. */
  lemma AnswersAreExact(m: Entries, history: map<string, Steps>, ttl: int, clock: int, now: int, session: string, within: int)
    requires Reflects(m, history, ttl, clock) && clock <= now
    ensures var live := Collected(m, ttl, now);
            && RankIn(live, session) == AchievedBy(StepsOf(history, session), ttl, now)
            && (if within > 0 && session in live && now - live[session].at <= within then live[session].rank else 0)
               == AchievedWithinBy(StepsOf(history, session), ttl, within, now)
  {
  }

  lemma RecordingExtends(m: Entries, history: map<string, Steps>, ttl: int, clock: int, session: string, rank: int, now: int)
    requires Reflects(m, history, ttl, clock) && clock <= now && session != ""
    ensures Reflects(Recorded(m, ttl, session, rank, now),
                     history[session := Step(StepsOf(history, session), rank, now)], ttl, now)
  {
    CollectingIsInvisible(m, history, ttl, clock, now);
    var live := Collected(m, ttl, now);
    var history' := history[session := Step(StepsOf(history, session), rank, now)];
    var m' := Recorded(m, ttl, session, rank, now);
    forall s
      ensures var steps := StepsOf(history', s);
              && ClockForward(steps) && NotBefore(steps, now)
              && (s in m' ==> steps.Step? && m'[s] == Entry(Highest(Chain(steps, ttl)), steps.at))
              && (s !in m' && steps.Step? ==> now - steps.at > ttl)
    {
      assert NotBefore(StepsOf(history, s), now);
      if s != session {
        assert StepsOf(history', s) == StepsOf(history, s);
      } else {
        assert session in live <==> (StepsOf(history, s).Step? && now - StepsOf(history, s).at <= ttl);
        assert Highest(NoStep) == 0;
      }
    }
  }

  // ---- The ledger as written ----

  class ProtectionLedger {
    var m: Entries
    const ttl: int
    ghost var clock: int
    ghost var history: map<string, Steps>

    ghost predicate Valid()
      reads this
    {
      Reflects(m, history, ttl, clock)
    }

    constructor (ttl: int)
      ensures Valid() && history == map[] && this.ttl == ttl && m == map[] && clock == 0
    {
      this.ttl := ttl;
      m, history, clock := map[], map[], 0;
    }

    /** Raises the session's rank, keeping the maximum, and refreshes its age. */
    method Record(sessionID: string, rank: int, now: int)
      requires Valid() && clock <= now
      modifies this
      ensures Valid()
      ensures m == Recorded(old(m), ttl, sessionID, rank, now)
      ensures sessionID == "" ==> history == old(history) && clock == old(clock)
      ensures sessionID != "" ==> clock == now
      ensures sessionID != "" ==> history == old(history)[sessionID := Step(StepsOf(old(history), sessionID), rank, now)]
    {
      if sessionID == "" {
        return;
      }
      RecordingExtends(m, history, ttl, clock, sessionID, rank, now);
      GcLocked(now);
      var cur := if sessionID in m then m[sessionID] else Entry(0, 0);
      if rank > cur.rank {
        cur := cur.(rank := rank);
      }
      cur := cur.(at := now);
      m := m[sessionID := cur];
      history := history[sessionID := Step(StepsOf(history, sessionID), rank, now)];
      clock := now;
    }

    method Achieved(sessionID: string, now: int) returns (rank: int)
      requires Valid() && clock <= now
      modifies this`m, this`clock
      ensures Valid()
      ensures rank == if sessionID == "" then 0 else AchievedBy(StepsOf(history, sessionID), ttl, now)
      ensures m == if sessionID == "" then old(m) else Collected(old(m), ttl, now)
      ensures clock == if sessionID == "" then old(clock) else now
    {
      if sessionID == "" {
        return 0;
      }
      CollectingIsInvisible(m, history, ttl, clock, now);
      AnswersAreExact(m, history, ttl, clock, now, sessionID, 0);
      GcLocked(now);
      clock := now;
      return if sessionID in m then m[sessionID].rank else 0;
    }

    method AchievedWithin(sessionID: string, within: int, now: int) returns (rank: int)
      requires Valid() && clock <= now
      modifies this`m, this`clock
      ensures Valid()
      ensures rank == if sessionID == "" then 0 else AchievedWithinBy(StepsOf(history, sessionID), ttl, within, now)
      ensures m == if sessionID == "" then old(m) else Collected(old(m), ttl, now)
      ensures clock == if sessionID == "" then old(clock) else now
    {
      if sessionID == "" {
        return 0;
      }
      CollectingIsInvisible(m, history, ttl, clock, now);
      AnswersAreExact(m, history, ttl, clock, now, sessionID, within);
      GcLocked(now);
      clock := now;
      if sessionID !in m || within <= 0 || now - m[sessionID].at > within {
        return 0;
      }
      return m[sessionID].rank;
    }

    method GcLocked(now: int)
      modifies this`m
      ensures m == Collected(old(m), ttl, now)
    {
      var todo := m.Keys;
      while todo != {}
        invariant todo <= m.Keys <= old(m).Keys
        invariant m == map k | k in old(m) && (k in todo || now - old(m)[k].at <= ttl) :: old(m)[k]
        decreases |todo|
      {
        var k :| k in todo;
        if now - m[k].at > ttl {
          m := m - {k};
        }
        todo := todo - {k};
      }
    }
  }
}
