/** The shared rate limiter (pkg/ratex/redis.go): one Redis counter per key, incremented by an atomic script. */
module FixedWindow {
  import opened Common

  /** A Redis integer key; `expiresAt` is absent when the key has no TTL. */
  datatype Cell = Cell(count: nat, expiresAt: Option<int>)

  datatype Reply = Reply(allowed: bool, retryMs: int)

  /** `windowMs` and `limit` are the script's arguments. A key whose deadline is exactly now may or may not
      still be alive, depending on the server: every result holds for both. */
  datatype Policy = Policy(windowMs: int, limit: int, aliveAtDeadline: bool)

  predicate Expired(c: Cell, now: int, p: Policy) {
    c.expiresAt.Some? && (now > c.expiresAt.value || (now == c.expiresAt.value && !p.aliveAtDeadline))
  }

  function Visible(c: Option<Cell>, now: int, p: Policy): Option<Cell> {
    if c.Some? && Expired(c.value, now, p) then None else c
  }

  /** PEXPIRE: a TTL that is not positive deletes the key; a missing key is left missing. */
  function WithTTL(c: Option<Cell>, now: int, ms: int): Option<Cell> {
    if c.None? || ms <= 0 then None else Some(c.value.(expiresAt := Some(now + ms)))
  }

  /** PTTL: -2 for a missing key, -1 for a key without TTL. */
  function TimeToLive(c: Option<Cell>, now: int): int {
    if c.None? then -2 else if c.value.expiresAt.None? then -1 else c.value.expiresAt.value - now
  }

  /** INCR: creates a missing key at 1, without TTL. */
  function Incremented(c: Option<Cell>): Cell {
    if c.None? then Cell(1, None) else Cell(c.value.count + 1, c.value.expiresAt)
  }

  /** The script on one key: total, including the branch that repairs a missing TTL. */
  function Script(c: Option<Cell>, now: int, p: Policy): (Option<Cell>, Reply) {
    var bumped := Incremented(Visible(c, now, p));
    var stamped := if bumped.count == 1 then WithTTL(Some(bumped), now, p.windowMs) else Some(bumped);
    if bumped.count <= p.limit then (stamped, Reply(true, 0))
    else
      var ttl := TimeToLive(stamped, now);
      if ttl < 0 then (WithTTL(stamped, now, p.windowMs), Reply(false, p.windowMs))
      else (stamped, Reply(false, ttl))
  }

  // ---- Runs of the script on one key ----

  /** The instants at which the script ran on one key, latest last. */
  datatype Runs = Fresh | Run(past: Runs, at: int)

  predicate NotBefore(runs: Runs, now: int) {
    runs.Run? ==> runs.at <= now
  }

  predicate ClockForward(runs: Runs) {
    runs.Run? ==> ClockForward(runs.past) && NotBefore(runs.past, runs.at)
  }

  function CellAfter(runs: Runs, p: Policy): Option<Cell> {
    match runs
    case Fresh => None
    case Run(past, at) => Script(CellAfter(past, p), at, p).0
  }

  predicate Allowed(runs: Runs, p: Policy)
    requires runs.Run?
  {
    Script(CellAfter(runs.past, p), runs.at, p).1.allowed
  }

  /** In every reachable state the counter carries its TTL and is younger than the window. */
  lemma {:induction false} CounterShape(runs: Runs, p: Policy)
    requires ClockForward(runs) && 1 <= p.limit && 1 <= p.windowMs && runs.Run?
    ensures CellAfter(runs, p).Some? && CellAfter(runs, p).value.expiresAt.Some? && CellAfter(runs, p).value.count >= 1
    ensures runs.at <= CellAfter(runs, p).value.expiresAt.value <= runs.at + p.windowMs
    ensures Allowed(runs, p) <==> CellAfter(runs, p).value.count <= p.limit
  {
    if runs.past.Run? {
      CounterShape(runs.past, p);
    }
  }

  /** What the repair would do to a counter over the limit that has lost its TTL: deny for a whole window, and stamp the
      TTL again so that the key cannot stay blocked for ever. */
  lemma RepairRestoresTTL(c: Cell, now: int, p: Policy)
    requires c.expiresAt.None? && p.limit <= c.count && 1 <= c.count && 1 <= p.windowMs
    ensures Script(Some(c), now, p) == (Some(Cell(c.count + 1, Some(now + p.windowMs))), Reply(false, p.windowMs))
  {
  }

  /** The missing-TTL repair is never taken: whenever the script finds the counter over the limit, its TTL is set. */
  lemma RepairUnreachable(runs: Runs, now: int, p: Policy)
    requires ClockForward(runs) && NotBefore(runs, now) && 1 <= p.limit
    ensures var bumped := Incremented(Visible(CellAfter(runs, p), now, p));
            bumped.count > p.limit ==> bumped.count > 1 && 0 <= TimeToLive(Some(bumped), now) <= p.windowMs
  {
    if runs.Run? && 1 <= p.windowMs {
      CounterShape(runs, p);
    } else if runs.Run? {
      NoWindowNoCounter(runs, p);
    }
  }

  /** A window that rounds to no whole millisecond keeps no counter at all, so every run is allowed. */
  lemma {:induction false} NoWindowNoCounter(runs: Runs, p: Policy)
    requires p.windowMs <= 0 && 1 <= p.limit
    ensures CellAfter(runs, p) == None
    ensures runs.Run? ==> Allowed(runs, p)
  {
    if runs.Run? {
      NoWindowNoCounter(runs.past, p);
    }
  }

  /** When the counter lifetime that served the last run was opened. */
  function StartOf(runs: Runs, p: Policy): int
    requires ClockForward(runs) && 1 <= p.limit && 1 <= p.windowMs && runs.Run?
  {
    CounterShape(runs, p);
    CellAfter(runs, p).value.expiresAt.value - p.windowMs
  }

  /** Allowed runs whose counter lifetime was opened in (lo, hi]. */
  function Opened(runs: Runs, p: Policy, lo: int, hi: int): nat
    requires ClockForward(runs) && 1 <= p.limit && 1 <= p.windowMs
  {
    if runs.Fresh? then 0
    else Opened(runs.past, p, lo, hi) + (if Allowed(runs, p) && lo < StartOf(runs, p) <= hi then 1 else 0)
  }

  /** Allowed runs after `x` in a counter lifetime opened in (x - window, x]. */
  function Late(runs: Runs, p: Policy, x: int): nat
    requires ClockForward(runs) && 1 <= p.limit && 1 <= p.windowMs
  {
    if runs.Fresh? then 0
    else Late(runs.past, p, x) +
         (if Allowed(runs, p) && x - p.windowMs < StartOf(runs, p) <= x < runs.at then 1 else 0)
  }

  /** Allowed runs in (lo, hi]. */
  function AllowedIn(runs: Runs, p: Policy, lo: int, hi: int): nat {
    if runs.Fresh? then 0
    else AllowedIn(runs.past, p, lo, hi) + (if Allowed(runs, p) && lo < runs.at <= hi then 1 else 0)
  }

  /** Lifetimes opened within one window of each other are the same lifetime, so together they admit `limit` runs. */
  lemma {:induction false} OpenedBound(runs: Runs, p: Policy, lo: int, hi: int)
    requires ClockForward(runs) && 1 <= p.limit && 1 <= p.windowMs && hi - lo <= p.windowMs
    ensures Opened(runs, p, lo, hi) <= p.limit
    ensures runs.Run? && StartOf(runs, p) <= lo ==> Opened(runs, p, lo, hi) == 0
    ensures runs.Run? && lo < StartOf(runs, p) <= hi ==>
              Opened(runs, p, lo, hi) == Min(CellAfter(runs, p).value.count, p.limit)
  {
    if runs.Run? {
      OpenedBound(runs.past, p, lo, hi);
      CounterShape(runs, p);
      if runs.past.Run? {
        CounterShape(runs.past, p);
      }
    }
  }

  /** Each counter lifetime admits at most `limit` runs. */
  lemma LifetimeBound(runs: Runs, p: Policy, start: int)
    requires ClockForward(runs) && 1 <= p.limit && 1 <= p.windowMs
    ensures Opened(runs, p, start - 1, start) <= p.limit
  {
    OpenedBound(runs, p, start - 1, start);
  }

  /** The run that opened a lifetime at or before `x` is not after `x`. */
  lemma {:induction false} LateBound(runs: Runs, p: Policy, x: int)
    requires ClockForward(runs) && 1 <= p.limit && 1 <= p.windowMs
    ensures Late(runs, p, x) <= p.limit - 1
    ensures runs.Run? && StartOf(runs, p) <= x - p.windowMs ==> Late(runs, p, x) == 0
    ensures runs.Run? && x - p.windowMs < StartOf(runs, p) <= x ==>
              Late(runs, p, x) <= Min(CellAfter(runs, p).value.count, p.limit) - 1
  {
    if runs.Run? {
      LateBound(runs.past, p, x);
      CounterShape(runs, p);
      if runs.past.Run? {
        CounterShape(runs.past, p);
      }
    }
  }

  lemma {:induction false} SplitByLifetime(runs: Runs, p: Policy, x: int)
    requires ClockForward(runs) && 1 <= p.limit && 1 <= p.windowMs
    ensures AllowedIn(runs, p, x, x + p.windowMs) <= Late(runs, p, x) + Opened(runs, p, x, x + p.windowMs)
  {
    if runs.Run? {
      SplitByLifetime(runs.past, p, x);
      CounterShape(runs, p);
    }
  }

  /** Main bound: any interval as long as the window admits at most twice the limit, less one. */
  lemma TwoWindowBound(runs: Runs, p: Policy, x: int)
    requires ClockForward(runs) && 1 <= p.limit
    ensures AllowedIn(runs, p, x, x + p.windowMs) <= 2 * p.limit - 1
  {
    if 1 <= p.windowMs {
      SplitByLifetime(runs, p, x);
      LateBound(runs, p, x);
      OpenedBound(runs, p, x, x + p.windowMs);
    } else {
      EmptyInterval(runs, p, x, x + p.windowMs);
    }
  }

  lemma {:induction false} EmptyInterval(runs: Runs, p: Policy, lo: int, hi: int)
    requires hi <= lo
    ensures AllowedIn(runs, p, lo, hi) == 0
  {
    if runs.Run? {
      EmptyInterval(runs.past, p, lo, hi);
    }
  }

  /** The bound is reached: limit 2, window 10, runs at 0, 9, 11 and 12, interval (8, 18]. */
  lemma BoundIsTight(p: Policy)
    requires p.windowMs == 10 && p.limit == 2
    ensures var runs := Run(Run(Run(Run(Fresh, 0), 9), 11), 12);
            ClockForward(runs) && AllowedIn(runs, p, 8, 18) == 2 * p.limit - 1
  {
    var r1 := Run(Fresh, 0);
    var r2 := Run(r1, 9);
    var r3 := Run(r2, 11);
    assert CellAfter(r1, p) == Some(Cell(1, Some(10)));
    assert CellAfter(r2, p) == Some(Cell(2, Some(10)));
    assert CellAfter(r3, p) == Some(Cell(1, Some(21)));
    assert AllowedIn(r1, p, 8, 18) == 0 && AllowedIn(r2, p, 8, 18) == 1 && AllowedIn(r3, p, 8, 18) == 2;
  }

  /** The wait returned with a denial is exact: the key's next run is allowed as soon as the deadline it names
      has passed, and not before. */
  lemma RetryIsExact(runs: Runs, p: Policy, next: int)
    requires ClockForward(Run(runs, next)) && 1 <= p.limit && runs.Run? && !Allowed(runs, p)
    ensures var deadline := runs.at + Script(CellAfter(runs.past, p), runs.at, p).1.retryMs;
            Allowed(Run(runs, next), p) <==> next > deadline || (next == deadline && !p.aliveAtDeadline)
  {
    RepairUnreachable(runs.past, runs.at, p);
    if p.windowMs <= 0 {
      NoWindowNoCounter(runs, p);
    } else {
      CounterShape(runs, p);
      CounterShape(Run(runs, next), p);
    }
  }

  // ---- The script as written, against the server's keys ----

  class RedisLimiter {
    const p: Policy
    var cells: map<string, Cell>
    ghost var runs: map<string, Runs>

    ghost function RunsOf(key: string): Runs
      reads this
    {
      if key in runs then runs[key] else Fresh
    }

    /** Every stored counter is the one its history of script runs produces. */
    ghost predicate Valid()
      reads this
    {
      forall key :: ClockForward(RunsOf(key)) && Lookup(cells, key) == CellAfter(RunsOf(key), p)
    }

    constructor (p: Policy)
      ensures Valid() && this.p == p && runs == map[]
    {
      this.p := p;
      cells, runs := map[], map[];
    }

    method Set(key: string, c: Option<Cell>)
      modifies this`cells
      ensures Lookup(cells, key) == c
      ensures forall k :: k != key ==> Lookup(cells, k) == Lookup(old(cells), k)
    {
      cells := if c.Some? then cells[key := c.value] else cells - {key};
    }

    method Incr(key: string, now: int) returns (count: nat)
      modifies this`cells
      ensures Lookup(cells, key) == Some(Incremented(Visible(Lookup(old(cells), key), now, p)))
      ensures count == Incremented(Visible(Lookup(old(cells), key), now, p)).count
      ensures forall k :: k != key ==> Lookup(cells, k) == Lookup(old(cells), k)
    {
      var bumped := Incremented(Visible(Lookup(cells, key), now, p));
      Set(key, Some(bumped));
      count := bumped.count;
    }

    method PExpire(key: string, now: int, ms: int)
      modifies this`cells
      ensures Lookup(cells, key) == WithTTL(Lookup(old(cells), key), now, ms)
      ensures forall k :: k != key ==> Lookup(cells, k) == Lookup(old(cells), k)
    {
      Set(key, WithTTL(Lookup(cells, key), now, ms));
    }

    method RunScript(key: string, now: int) returns (reply: Reply)
      modifies this`cells
      ensures (Lookup(cells, key), reply) == Script(Lookup(old(cells), key), now, p)
      ensures forall k :: k != key ==> Lookup(cells, k) == Lookup(old(cells), k)
    {
      var count := Incr(key, now);
      if count == 1 {
        PExpire(key, now, p.windowMs);
      }
      if count > p.limit {
        var ttl := TimeToLive(Lookup(cells, key), now);
        if ttl < 0 {
          PExpire(key, now, p.windowMs);
          ttl := p.windowMs;
        }
        return Reply(false, ttl);
      }
      return Reply(true, 0);
    }

    /** A limit of zero or less disables the limiter, and an unreachable server fails open; neither leaves a trace.
        Otherwise the answer is the script's on the key's whole history. The wait is in milliseconds. */
    method Allow(key: string, now: int, reachable: bool) returns (ok: bool, retryMs: int)
      requires Valid() && NotBefore(RunsOf(key), now)
      modifies this
      ensures Valid()
      ensures p.limit <= 0 || !reachable ==> ok && retryMs == 0 && runs == old(runs)
      ensures 0 < p.limit && reachable ==>
                && runs == old(runs)[key := Run(old(RunsOf(key)), now)]
                && ok == Allowed(RunsOf(key), p)
                && (ok ==> retryMs == 0)
                && (!ok ==> retryMs == Script(CellAfter(old(RunsOf(key)), p), now, p).1.retryMs && 0 <= retryMs <= p.windowMs)
    {
      if p.limit <= 0 || !reachable {
        return true, 0;
      }
      RepairUnreachable(RunsOf(key), now, p);
      assert Lookup(cells, key) == CellAfter(RunsOf(key), p);
      var reply := RunScript(key, now);
      runs := runs[key := Run(RunsOf(key), now)];
      assert forall k :: k != key ==> RunsOf(k) == old(RunsOf(k));
      return reply.allowed, if reply.allowed then 0 else reply.retryMs;
    }
  }
}
