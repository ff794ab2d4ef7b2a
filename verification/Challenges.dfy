/** Challenge lifecycle (services/authenticator-service/internal/challenges.go and storage.go). */
module Challenges {
  import opened Common

  const CHALLENGE_TTL: int := 5 * MINUTE
  const MAX_ATTEMPTS: nat := 3
  const MAX_BACKOFF_SHIFT: nat := 30

  datatype Status = Pending | Completed | Failed | Expired

  datatype Challenge = Challenge(
    id: string, tenantID: string, userID: string, kind: string, authenticatorID: string,
    status: Status, attempts: nat, createdAt: int, expiresAt: int,
    completedAt: Option<int>, lastAttemptAt: Option<int>)

  /** What the method's adapter answers, when it is asked. */
  datatype Verdict = NoAdapter | AdapterError | Wrong | Right

  datatype VerifyReply =
    | NotFound | AccountLocked(wait: int) | Closed(status: Status) | ChallengeExpired | RetryBackoff(wait: int)
    | InternalError | VerifyFailed | Verified(authenticatorID: string) | InvalidResponse | MaxAttemptsExceeded

  function Pow2(n: nat): nat {
    if n == 0 then 1 else 2 * Pow2(n - 1)
  }

  /** How much longer the challenge may not be retried: 2^attempts seconds after the last failure. */
  function BackoffRemaining(c: Challenge, now: int): int {
    if c.attempts == 0 || c.lastAttemptAt.None? then 0
    else
      var next := c.lastAttemptAt.value + Pow2(Min(c.attempts, MAX_BACKOFF_SHIFT)) * SECOND;
      if now < next then next - now else 0
  }

  // ---- The mutations a verification commits ----

  function Flipped(c: Challenge): Challenge {
    c.(status := Expired)
  }

  function Succeeded(c: Challenge, now: int): Challenge {
    c.(status := Completed, completedAt := Some(now))
  }

  function FailedOnce(c: Challenge, now: int): Challenge {
    c.(attempts := c.attempts + 1, lastAttemptAt := Some(now),
       status := if c.attempts + 1 >= MAX_ATTEMPTS then Failed else c.status)
  }

  /** The background sweeper deletes pending rows past their deadline and rows already flipped. */
  predicate Purged(c: Challenge, now: int) {
    c.status == Expired || (c.status == Pending && now >= c.expiresAt)
  }

  /** The adapter is asked only about an open, unexpired challenge outside its backoff. */
  predicate AdapterRuns(c: Challenge, now: int) {
    c.status == Pending && now < c.expiresAt && BackoffRemaining(c, now) == 0
  }

  /** One atomic verification of an unlocked user's challenge. */
  function VerifyRow(c: Challenge, now: int, verdict: Verdict): Challenge {
    if c.status != Pending then c
    else if now >= c.expiresAt then Flipped(c)
    else if !AdapterRuns(c, now) || verdict.NoAdapter? || verdict.AdapterError? then c
    else if verdict.Right? then Succeeded(c, now)
    else FailedOnce(c, now)
  }

  function ReplyOf(c: Challenge, now: int, verdict: Verdict): VerifyReply {
    if c.status != Pending then Closed(c.status)
    else if now >= c.expiresAt then ChallengeExpired
    else if BackoffRemaining(c, now) > 0 then RetryBackoff(BackoffRemaining(c, now))
    else match verdict
      case NoAdapter => InternalError
      case AdapterError => VerifyFailed
      case Right => Verified(c.authenticatorID)
      case Wrong => if FailedOnce(c, now).status == Failed then MaxAttemptsExceeded else InvalidResponse
  }

  /** When the adapter is asked: the challenge is open, before its deadline, and 2^attempts seconds past its last failure. */
  predicate Askable(c: Challenge, now: int) {
    && c.status == Pending && now < c.expiresAt
    && (c.attempts > 0 && c.lastAttemptAt.Some? ==> c.lastAttemptAt.value + Pow2(Min(c.attempts, 30)) * SECOND <= now)
  }

  /** What each reply says and leaves: verified exactly when the adapter was asked and answered yes, and exactly then the
      row is completed now; a wrong answer counts one attempt, the third closing the row; nothing else counts. */
  lemma ReplyMeaning(c: Challenge, now: int, verdict: Verdict)
    ensures var reply, row := ReplyOf(c, now, verdict), VerifyRow(c, now, verdict);
            var yes, no := Askable(c, now) && verdict.Right?, Askable(c, now) && verdict.Wrong?;
            && (reply.Verified? <==> yes)
            && (yes ==> reply == Verified(c.authenticatorID) && row == c.(status := Completed, completedAt := Some(now)))
            && (no ==> row.attempts == c.attempts + 1 && row.lastAttemptAt == Some(now) && row.completedAt == c.completedAt)
            && (reply == MaxAttemptsExceeded <==> no && row.status == Failed) && (no ==> (row.status == Failed <==> c.attempts >= 2))
            && (reply == InvalidResponse <==> no && row.status == Pending)
            && (reply == InternalError <==> Askable(c, now) && verdict.NoAdapter?)
            && (reply == VerifyFailed <==> Askable(c, now) && verdict.AdapterError?)
            && (reply.Closed? <==> c.status != Pending) && (reply.Closed? ==> reply.status == c.status)
            && (reply == ChallengeExpired <==> c.status == Pending && c.expiresAt <= now)
            && (reply == ChallengeExpired ==> row == c.(status := Expired))
            && (!yes && !no && reply != ChallengeExpired ==> row == c)
  {
    assert Pow2(0) == 1;
  }

  lemma {:induction false} Pow2Positive(n: nat)
    ensures Pow2(n) >= 1
  {
    if n > 0 {
      Pow2Positive(n - 1);
    }
  }

  /** A backoff reply names the first instant at which the adapter is asked again, if the deadline is not sooner. */
  lemma BackoffIsExact(c: Challenge, now: int, verdict: Verdict, then': int)
    requires ReplyOf(c, now, verdict).RetryBackoff? && now <= then' < c.expiresAt
    ensures var wait := ReplyOf(c, now, verdict).wait;
            0 < wait && !Askable(c, now) && (Askable(c, then') <==> now + wait <= then')
  {
  }

  // ---- Whole lives of one challenge, verifications being atomic ----

  datatype Life =
    | Created(c: Challenge)
    | Tried(past: Life, at: int, locked: bool, verdict: Verdict)
    | Swept(past: Life, at: int)

  predicate New(c: Challenge) {
    c.status == Pending && c.attempts == 0 && c.lastAttemptAt.None? && c.completedAt.None?
  }

  predicate Proper(life: Life) {
    if life.Created? then New(life.c) else Proper(life.past) && Last(life.past) <= life.at
  }

  function Last(life: Life): int {
    if life.Created? then life.c.createdAt else life.at
  }

  function Row(life: Life): Option<Challenge> {
    match life
    case Created(c) => Some(c)
    case Tried(past, at, locked, verdict) =>
      var row := Row(past);
      if row.None? || locked then row else Some(VerifyRow(row.value, at, verdict))
    case Swept(past, at) =>
      var row := Row(past);
      if row.Some? && Purged(row.value, at) then None else row
  }

  /** The last event ran the adapter, and it answered no. */
  predicate FailedRun(life: Life) {
    life.Tried? && !life.locked && life.verdict.Wrong? && Row(life.past).Some? && AdapterRuns(Row(life.past).value, life.at)
  }

  /** The instants of the failed adapter runs. */
  function Failures(life: Life): Times {
    if life.Created? then Never
    else if FailedRun(life) then Then(Failures(life.past), life.at)
    else Failures(life.past)
  }

  function Count(ts: Times): nat {
    if ts.Never? then 0 else 1 + Count(ts.earlier)
  }

  function First(ts: Times): int
    requires ts.Then?
  {
    if ts.earlier.Never? then ts.at else First(ts.earlier)
  }

  /** In every reachable state: attempts counts the failed adapter runs and is at most three; a challenge is
      `failed` exactly at three, `completed` exactly when it carries a completion stamp. */
  lemma {:induction false} AttemptsAreFailures(life: Life)
    requires Proper(life)
    ensures Count(Failures(life)) <= MAX_ATTEMPTS
    ensures Row(life).Some? ==>
              var c := Row(life).value;
              && c.attempts == Count(Failures(life))
              && (c.status == Failed <==> c.attempts == MAX_ATTEMPTS)
              && (c.status == Completed <==> c.completedAt.Some?)
              && c.lastAttemptAt == (if Failures(life).Then? then Some(Failures(life).at) else None)
  {
    if !life.Created? {
      AttemptsAreFailures(life.past);
    }
  }

  /** A sweep ends exactly the rows that were flipped to expired and the pending ones past their deadline, and changes no
      other. */
  lemma SweepEndsExactly(life: Life, at: int)
    requires Row(life).Some?
    ensures var c := Row(life).value;
            Row(Swept(life, at)) == if c.status == Expired || (c.status == Pending && c.expiresAt <= at) then None else Row(life)
  {
  }

  /** Some unlocked attempt ran the adapter, and it answered yes. */
  predicate EverRight(life: Life) {
    !life.Created? &&
    (EverRight(life.past) ||
     (life.Tried? && !life.locked && life.verdict.Right? && Row(life.past).Some? && Askable(Row(life.past).value, life.at)))
  }

  /** Over a whole life: a challenge is completed if and only if some attempt on it was right. */
  lemma {:induction false} CompletedIffRight(life: Life)
    requires Proper(life)
    ensures Row(life).Some? ==> (Row(life).value.status == Completed <==> EverRight(life))
    ensures Row(life).None? ==> !EverRight(life)
  {
    if !life.Created? {
      CompletedIffRight(life.past);
      AttemptsAreFailures(life.past);
      if life.Tried? && !life.locked && Row(life.past).Some? {
        ReplyMeaning(Row(life.past).value, life.at, life.verdict);
      }
    }
  }

  /** Backoff over a whole life: N failures span at least 2^N - 2 seconds. */
  lemma {:induction false} FailuresAreSpaced(life: Life)
    requires Proper(life) && Failures(life).Then?
    ensures Failures(life).at - First(Failures(life)) >= (Pow2(Count(Failures(life))) - 2) * SECOND
  {
    if FailedRun(life) {
      AttemptsAreFailures(life.past);
      if Failures(life.past).Then? {
        FailuresAreSpaced(life.past);
      }
    } else {
      FailuresAreSpaced(life.past);
    }
  }

  predicate Extends(later: Life, life: Life) {
    later == life || (!later.Created? && Extends(later.past, life))
  }

  /** Terminal states are absorbing: once completed or failed a challenge never changes again and is never purged;
      once expired it never changes, except that it may be purged. No adapter ever runs for it. */
  lemma {:induction false} TerminalIsAbsorbing(life: Life, later: Life)
    requires Extends(later, life) && Row(life).Some? && Row(life).value.status != Pending
    ensures Row(later) == Row(life) || (Row(life).value.status == Expired && Row(later) == None)
    ensures Failures(later) == Failures(life)
  {
    if later != life {
      TerminalIsAbsorbing(life, later.past);
    }
  }

  // ---- Verifications split into a read and a commit, interleaved in any order ----

  /** Verifications of one row whose reads and commits interleave. A verification reads the row; when the read lets the
      adapter run it later commits the verdict, or quits on an adapter error; when the read finds the deadline passed it
      later flips the row. */
  datatype Commits =
    | Begin(c: Challenge)
    | Read(past: Commits, who: nat, at: int)
    | Commit(past: Commits, who: nat, at: int, verified: bool)
    | Quit(past: Commits, who: nat)
    | Flip(past: Commits, who: nat)
    | Sweep(past: Commits, at: int)

  function Stored(cs: Commits): Option<Challenge> {
    match cs
    case Begin(c) => Some(c)
    case Commit(past, _, at, verified) =>
      var row := Stored(past);
      if row.None? then None else Some(if verified then Succeeded(row.value, at) else FailedOnce(row.value, at))
    case Flip(past, _) =>
      var row := Stored(past);
      if row.None? then None else Some(Flipped(row.value))
    case Sweep(past, at) =>
      var row := Stored(past);
      if row.Some? && Purged(row.value, at) then None else row
    case _ => Stored(cs.past)
  }

  /** The verifications whose adapter runs, between their read and their commit. */
  function Running(cs: Commits): set<nat> {
    match cs
    case Begin(_) => {}
    case Read(past, who, at) =>
      if Stored(past).Some? && AdapterRuns(Stored(past).value, at) then Running(past) + {who} else Running(past)
    case Commit(past, who, _, _) => Running(past) - {who}
    case Quit(past, who) => Running(past) - {who}
    case _ => Running(cs.past)
  }

  /** The verifications that found the deadline passed and have not flipped the row yet. */
  function Flipping(cs: Commits): set<nat> {
    match cs
    case Begin(_) => {}
    case Read(past, who, at) =>
      if Stored(past).Some? && Stored(past).value.status == Pending && at >= Stored(past).value.expiresAt then Flipping(past) + {who}
      else Flipping(past)
    case Flip(past, who) => Flipping(past) - {who}
    case _ => Flipping(cs.past)
  }

  /** Each mutation follows its own verification's read. */
  predicate Possible(cs: Commits) {
    match cs
    case Begin(_) => true
    case Read(past, who, _) => Possible(past) && who !in Running(past) && who !in Flipping(past)
    case Commit(past, who, _, _) => Possible(past) && who in Running(past)
    case Quit(past, who) => Possible(past) && who in Running(past)
    case Flip(past, who) => Possible(past) && who in Flipping(past)
    case Sweep(past, _) => Possible(past)
  }

  function FailedCommits(cs: Commits): nat {
    if cs.Begin? then 0 else FailedCommits(cs.past) + (if cs.Commit? && !cs.verified then 1 else 0)
  }

  function Origin(cs: Commits): Challenge {
    if cs.Begin? then cs.c else Origin(cs.past)
  }

  /** No interleaving loses an increment, a failed commit that reaches three attempts closes the row, and the
      sweeper never removes a completed or failed row. */
  lemma {:induction false} NoLostIncrement(cs: Commits)
    ensures Stored(cs).Some? ==> Stored(cs).value.attempts == Origin(cs).attempts + FailedCommits(cs)
    ensures Stored(cs).Some? && cs.Commit? && !cs.verified && Stored(cs).value.attempts >= MAX_ATTEMPTS ==>
              Stored(cs).value.status == Failed
    ensures cs.Sweep? && Stored(cs.past).Some? && Stored(cs).None? ==>
              Stored(cs.past).value.status != Completed && Stored(cs.past).value.status != Failed
  {
    if !cs.Begin? {
      NoLostIncrement(cs.past);
    }
  }

  /** How many verifications were running when the third failure was committed. */
  function Overlapping(cs: Commits): nat {
    if cs.Begin? then 0
    else if cs.Commit? && !cs.verified && Stored(cs.past).Some? && Stored(cs.past).value.attempts + 1 == MAX_ATTEMPTS then |Running(cs)|
    else Overlapping(cs.past)
  }

  /** Attempts never exceed three by more than the verifications that overlap the third failure: once the row is closed
      no further adapter runs start. */
  lemma {:induction false} AttemptsBound(cs: Commits)
    requires New(Origin(cs)) && Possible(cs)
    ensures Stored(cs).Some? ==>
              var c := Stored(cs).value;
              && c.attempts <= MAX_ATTEMPTS + Overlapping(cs)
              && (c.attempts >= MAX_ATTEMPTS ==> c.status != Pending && c.attempts + |Running(cs)| <= MAX_ATTEMPTS + Overlapping(cs))
  {
    if !cs.Begin? {
      AttemptsBound(cs.past);
    }
  }

  /** The verifications lo + 1 to hi. */
  function Between(lo: nat, hi: nat): (s: set<nat>)
    ensures forall i :: i in s <==> lo < i <= hi
  {
    if hi <= lo then {} else Between(lo, hi - 1) + {hi}
  }

  lemma {:induction false} BetweenSize(lo: nat, hi: nat)
    requires lo <= hi
    ensures |Between(lo, hi)| == hi - lo
  {
    if lo < hi {
      BetweenSize(lo, hi - 1);
    }
  }

  /** Verifications 1 to n all read the new row, and then 1 to k of them fail. */
  function AllRead(c: Challenge, n: nat): Commits {
    if n == 0 then Begin(c) else Read(AllRead(c, n - 1), n, c.createdAt)
  }

  function SomeFail(c: Challenge, n: nat, k: nat): Commits {
    if k == 0 then AllRead(c, n) else Commit(SomeFail(c, n, k - 1), k, c.createdAt, false)
  }

  lemma {:induction false} AllRunning(c: Challenge, n: nat)
    requires New(c) && c.createdAt < c.expiresAt
    ensures var cs := AllRead(c, n);
            && Possible(cs) && Running(cs) == Between(0, n) && Flipping(cs) == {} && Stored(cs) == Some(c) && Overlapping(cs) == 0
  {
    if n > 0 {
      AllRunning(c, n - 1);
      assert Between(0, n) == Between(0, n - 1) + {n};
    }
  }

  /** The bound is reached for every overlap: n verifications that all read the new row can leave n attempts on it. */
  lemma {:induction false} AttemptsBoundIsReached(c: Challenge, n: nat, k: nat)
    requires New(c) && c.createdAt < c.expiresAt && k <= n
    ensures Progress(SomeFail(c, n, k), n, k)
  {
    if k == 0 {
      AllRunning(c, n);
    } else {
      AttemptsBoundIsReached(c, n, k - 1);
      OneMoreFails(SomeFail(c, n, k - 1), n, k, c.createdAt);
    }
  }

  /** After k of n overlapping verifications have failed. */
  predicate Progress(cs: Commits, n: nat, k: nat) {
    && Possible(cs) && Running(cs) == Between(k, n) && Stored(cs).Some? && Stored(cs).value.attempts == k
    && (Stored(cs).value.status == Failed <==> k >= MAX_ATTEMPTS)
    && Overlapping(cs) == (if k >= MAX_ATTEMPTS then n - MAX_ATTEMPTS else 0)
  }

  lemma OneMoreFails(cs: Commits, n: nat, k: nat, at: int)
    requires 0 < k <= n && Progress(cs, n, k - 1)
    ensures Progress(Commit(cs, k, at, false), n, k)
  {
    assert Running(cs) - {k} == Between(k, n);
    BetweenSize(k, n);
    assert Stored(Commit(cs, k, at, false)) == Some(FailedOnce(Stored(cs).value, at));
  }

  /** The mutations do not look at the status again: with four overlapping verifications a fourth attempt lands on the
      failed row, or a late success reopens it as completed. */
  lemma SplitIsNotAbsorbing(c: Challenge)
    requires New(c) && c.createdAt < c.expiresAt
    ensures var three := SomeFail(c, 4, 3);
            var four, reopened := Commit(three, 4, c.createdAt, false), Commit(three, 4, c.createdAt, true);
            && Possible(four) && Possible(reopened)
            && Stored(three).Some? && Stored(three).value.status == Failed
            && Stored(four).Some? && Stored(four).value.attempts == 4
            && Stored(reopened).Some? && Stored(reopened).value.status == Completed
  {
    AttemptsBoundIsReached(c, 4, 3);
    assert 4 in Between(3, 4);
  }

  predicate Mutates(cs: Commits) {
    cs.Commit? || cs.Flip?
  }

  /** Every mutation found the row still pending. */
  predicate OnPending(cs: Commits) {
    cs.Begin? ||
    (OnPending(cs.past) && (Mutates(cs) && Stored(cs.past).Some? ==> Stored(cs.past).value.status == Pending))
  }

  /** The mutation writes what the row already says. */
  predicate Repeats(cs: Commits) {
    var row := if cs.Begin? then None else Stored(cs.past);
    row.Some? &&
    ((cs.Flip? && row.value.status == Expired) ||
     (cs.Commit? && cs.verified && row.value.status == Completed && row.value.completedAt == Some(cs.at)))
  }

  /** As long as each mutation finds the row pending, a row is failed exactly at three attempts; one that finds it
      terminal overwrites it, unless it repeats what is there. */
  lemma {:induction false} AbsorbingUnlessLate(cs: Commits)
    requires New(Origin(cs))
    ensures OnPending(cs) && Stored(cs).Some? ==>
              var c := Stored(cs).value; c.attempts <= MAX_ATTEMPTS && (c.status == Failed <==> c.attempts == MAX_ATTEMPTS)
    ensures Mutates(cs) && Stored(cs.past).Some? && Stored(cs.past).value.status != Pending ==>
              (Stored(cs) == Stored(cs.past) <==> Repeats(cs))
  {
    if !cs.Begin? {
      AbsorbingUnlessLate(cs.past);
    }
  }

  // ---- Method selection ----

  datatype Authenticator = Authenticator(id: string, kind: string, createdAt: int)

  predicate Older(a: Authenticator, b: Authenticator) {
    a.createdAt < b.createdAt || (a.createdAt == b.createdAt && StrLess(a.id, b.id))
  }

  lemma OlderTransitive(a: Authenticator, b: Authenticator, c: Authenticator)
    requires Older(a, b) && !Older(c, b)
    ensures Older(a, c)
  {
    StrLessTotal(b.id, c.id);
    if b.id != c.id && a.createdAt == b.createdAt == c.createdAt {
      StrLessTransitive(a.id, b.id, c.id);
    }
  }

  /** `kind` is the first preferred method the user can serve, and `best` the oldest authenticator serving it. */
  ghost predicate IsSelection(preferred: seq<string>, active: seq<Authenticator>, kind: string, best: Authenticator) {
    && best in active && best.kind == kind
    && (forall a :: a in active && a.kind == kind ==> !Older(a, best))
    && exists i :: 0 <= i < |preferred| && preferred[i] == kind &&
                   forall j, a :: 0 <= j < i && a in active ==> a.kind != preferred[j]
  }

  method SelectAuthenticator(preferred: seq<string>, active: seq<Authenticator>)
    returns (kind: string, best: Option<Authenticator>)
    ensures best.Some? ==> IsSelection(preferred, active, kind, best.value)
    ensures best.None? ==> forall a :: a in active ==> a.kind !in preferred
  {
    var byKind: map<string, seq<Authenticator>> := map[];
    for n := 0 to |active|
      invariant forall k :: k in byKind ==> byKind[k] != [] && forall b :: b in byKind[k] ==> b in active && b.kind == k
      invariant forall b :: b in active[..n] ==> b.kind in byKind && b in byKind[b.kind]
    {
      var a := active[n];
      assert active[..n + 1] == active[..n] + [a];
      byKind := byKind[a.kind := (if a.kind in byKind then byKind[a.kind] else []) + [a]];
    }
    assert active[..|active|] == active;
    for i := 0 to |preferred|
      invariant forall j, a :: 0 <= j < i && a in active ==> a.kind != preferred[j]
    {
      var m := preferred[i];
      if m in byKind {
        var oldest := Oldest(byKind[m]);
        assert forall a :: a in active && a.kind == m ==> a in byKind[m];
        return m, Some(oldest);
      }
    }
    kind, best := "", None;
  }

  method Oldest(candidates: seq<Authenticator>) returns (best: Authenticator)
    requires candidates != []
    ensures best in candidates && forall a :: a in candidates ==> !Older(a, best)
  {
    best := candidates[0];
    StrLessTotal(best.id, best.id);
    for n := 1 to |candidates|
      invariant best in candidates && forall a :: a in candidates[..n] ==> !Older(a, best)
    {
      var c := candidates[n];
      assert candidates[..n + 1] == candidates[..n] + [c];
      StrLessTotal(c.id, c.id);
      if Older(c, best) {
        forall a | a in candidates[..n] ensures !Older(a, c) {
          if Older(a, c) {
            StrLessTotal(c.id, best.id);
            OlderTransitive(a, c, best);
          }
        }
        best := c;
      }
    }
    assert candidates[..|candidates|] == candidates;
  }

  /** The choice does not depend on the order in which the store lists the authenticators. */
  lemma SelectionIgnoresOrder(preferred: seq<string>, xs: seq<Authenticator>, ys: seq<Authenticator>,
                              k: string, a: Authenticator, l: string, b: Authenticator)
    requires forall c :: c in xs <==> c in ys
    requires forall c, d :: c in xs && d in xs && c.id == d.id ==> c == d
    requires IsSelection(preferred, xs, k, a) && IsSelection(preferred, ys, l, b)
    ensures k == l && a == b
  {
    var i :| 0 <= i < |preferred| && preferred[i] == k && forall j, c :: 0 <= j < i && c in xs ==> c.kind != preferred[j];
    var j :| 0 <= j < |preferred| && preferred[j] == l && forall n, c :: 0 <= n < j && c in ys ==> c.kind != preferred[n];
    assert i <= j && j <= i;
    StrLessTotal(a.id, b.id);
  }

  // ---- The store and the handlers as written ----

  datatype UpdateReply = Updated(c: Challenge) | Missing | ImmutableChanged

  class Store {
    var challenges: map<string, Challenge>

    constructor ()
      ensures challenges == map[]
    {
      challenges := map[];
    }

    method PutChallenge(c: Challenge)
      modifies this
      ensures challenges == old(challenges)[c.id := c]
    {
      challenges := challenges[c.id := c];
    }

    /** Another tenant's row reads as missing. */
    method GetChallenge(tenantID: string, id: string) returns (c: Option<Challenge>)
      ensures c == if id in challenges && challenges[id].tenantID == tenantID then Some(challenges[id]) else None
    {
      if id !in challenges || challenges[id].tenantID != tenantID {
        return None;
      }
      return Some(challenges[id]);
    }

    /** Read, mutate and write back in one critical section. */
    method UpdateChallenge(tenantID: string, id: string, mutator: Challenge -> Challenge) returns (reply: UpdateReply)
      modifies this
      ensures id !in old(challenges) || old(challenges)[id].tenantID != tenantID ==>
                reply == Missing && challenges == old(challenges)
      ensures id in old(challenges) && old(challenges)[id].tenantID == tenantID ==>
                var c := mutator(old(challenges)[id]);
                if c.id == id && c.tenantID == tenantID then reply == Updated(c) && challenges == old(challenges)[id := c]
                else reply == ImmutableChanged && challenges == old(challenges)
    {
      if id !in challenges || challenges[id].tenantID != tenantID {
        return Missing;
      }
      var c := mutator(challenges[id]);
      if c.id != id || c.tenantID != tenantID {
        return ImmutableChanged;
      }
      challenges := challenges[id := c];
      return Updated(c);
    }

    method PurgeExpired(now: int) returns (n: nat)
      modifies this
      ensures challenges == map id | id in old(challenges) && !Purged(old(challenges)[id], now) :: old(challenges)[id]
      ensures n == |old(challenges)| - |challenges|
    {
      n := 0;
      var todo := challenges.Keys;
      while todo != {}
        invariant todo <= challenges.Keys <= old(challenges).Keys
        invariant challenges == map id | id in old(challenges) && (id in todo || !Purged(old(challenges)[id], now)) :: old(challenges)[id]
        invariant n == |old(challenges)| - |challenges|
        decreases |todo|
      {
        var id :| id in todo;
        if Purged(challenges[id], now) {
          assert challenges.Keys == (challenges - {id}).Keys + {id};
          challenges := challenges - {id};
          n := n + 1;
        }
        todo := todo - {id};
      }
    }
  }
}
