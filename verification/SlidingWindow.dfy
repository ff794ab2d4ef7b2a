/** The in-memory rate limiter (pkg/ratex/ratex.go): a sliding-window log per key. */
module SlidingWindow {
  import opened Common

  const SWEEP_EVERY: nat := 4096

  // ---- Reference limiter: decide by counting over the whole history ----

  /** Every call of Allow so far: its key, its instant and its verdict, latest last. */
  datatype Log = Empty | Call(past: Log, key: string, at: int, ok: bool)

  predicate NotBefore(log: Log, now: int) {
    log.Call? ==> log.at <= now
  }

  /** When the admitted requests of `key` happened, over the whole history. */
  function Admitted(log: Log, key: string): Times {
    match log
    case Empty => Never
    case Call(past, k, at, ok) => if ok && k == key then Then(Admitted(past, key), at) else Admitted(past, key)
  }

  /** The admitted requests of `key` that a call at `now` counts. */
  function Counted(log: Log, key: string, window: int, now: int): seq<int> {
    Live(Admitted(log, key), now - window)
  }

  /** A history of the reference limiter: the clock never goes back, and a request is admitted
      exactly when fewer than `limit` admitted requests of its key lie in (at - window, at]. */
  predicate Genuine(log: Log, limit: int, window: int) {
    match log
    case Empty => true
    case Call(past, key, at, ok) =>
      Genuine(past, limit, window) && NotBefore(past, at) && ok == (|Counted(past, key, window, at)| < limit)
  }

  lemma {:induction false} AdmittedInOrder(log: Log, limit: int, window: int, key: string)
    requires Genuine(log, limit, window)
    ensures InOrder(Admitted(log, key))
    ensures log.Call? ==> UpTo(Admitted(log, key), log.at)
    ensures log.Empty? ==> Admitted(log, key) == Never
  {
    if log.Call? {
      AdmittedInOrder(log.past, limit, window, key);
    }
  }

  /** Main bound: no window (x, x + window] ever holds more than `limit` admitted requests of a key. */
  lemma {:induction false} WindowBound(log: Log, limit: int, window: int, key: string, x: int)
    requires Genuine(log, limit, window) && 0 <= limit
    ensures CountIn(Admitted(log, key), x, x + window) <= limit
  {
    if log.Call? {
      WindowBound(log.past, limit, window, key, x);
      if x < log.at <= x + window {
        CountWithinLive(Admitted(log.past, key), log.at - window, x, x + window);
      }
    }
  }

  /** At any later instant the requests still counted never exceed the limit. */
  lemma CountedBound(log: Log, limit: int, window: int, key: string, now: int)
    requires Genuine(log, limit, window) && 0 <= limit && NotBefore(log, now)
    ensures |Counted(log, key, window, now)| <= limit
  {
    AdmittedInOrder(log, limit, window, key);
    CountIsLive(Admitted(log, key), now - window, now);
    WindowBound(log, limit, window, key, now - window);
  }

  /** How long a request denied at `now` has to wait. */
  function RetryAfter(log: Log, key: string, window: int, now: int): int
    requires Counted(log, key, window, now) != []
  {
    Counted(log, key, window, now)[0] - (now - window)
  }

  /** `later` continues `log` with calls made in [from, before). */
  predicate Continues(later: Log, log: Log, from: int, before: int) {
    later == log || (later.Call? && from <= later.at < before && Continues(later.past, log, from, before))
  }

  /** Every call for `key` that `later` adds to `log` was denied. */
  predicate AllDenied(later: Log, log: Log, key: string) {
    later == log || (later.Call? && (later.key == key ==> !later.ok) && AllDenied(later.past, log, key))
  }

  /** Between a denial and its announced retry instant every request of the key is denied,
      whatever else happens, so nothing changes for the key. */
  lemma {:induction false} DeniedUntilRetry(log: Log, later: Log, limit: int, window: int, key: string, now: int)
    requires Genuine(later, limit, window) && Genuine(log, limit, window) && 0 < limit
    requires |Counted(log, key, window, now)| >= limit
    requires Continues(later, log, now, now + RetryAfter(log, key, window, now))
    ensures Admitted(later, key) == Admitted(log, key) && AllDenied(later, log, key)
  {
    if later != log {
      DeniedUntilRetry(log, later.past, limit, window, key, now);
      AdmittedInOrder(log, limit, window, key);
      StillLive(Admitted(log, key), now - window, later.at - window);
    }
  }

  /** Retry-After is exact: every request of the key strictly before `now + retry` is denied, and the
      first one made at `now + retry` is admitted, whatever calls came in between. */
  lemma RetryIsExact(log: Log, later: Log, at: int, ok: bool, limit: int, window: int, key: string, now: int)
    requires Genuine(log, limit, window) && NotBefore(log, now) && 0 < limit
    requires |Counted(log, key, window, now)| >= limit
    requires Continues(later, log, now, now + RetryAfter(log, key, window, now))
    requires Genuine(Call(later, key, at, ok), limit, window)
    requires now <= at <= now + RetryAfter(log, key, window, now)
    ensures ok <==> at == now + RetryAfter(log, key, window, now)
    ensures AllDenied(later, log, key)
  {
    DeniedUntilRetry(log, later, limit, window, key, now);
    AdmittedInOrder(log, limit, window, key);
    if at < now + RetryAfter(log, key, window, now) {
      StillLive(Admitted(log, key), now - window, at - window);
    } else {
      OldestLeaves(Admitted(log, key), now - window, at - window);
      CountedBound(log, limit, window, key, now);
    }
  }

  // ---- The limiter as written ----

  /** The instants of a stored hit log strictly after `cutoff`, in order. */
  function After(ts: seq<int>, cutoff: int): seq<int> {
    if ts == [] then []
    else
      var init, t := ts[..|ts| - 1], ts[|ts| - 1];
      if t > cutoff then After(init, cutoff) + [t] else After(init, cutoff)
  }

  lemma {:induction false} AfterPush(ts: seq<int>, t: int, cutoff: int)
    ensures After(ts + [t], cutoff) == if t > cutoff then After(ts, cutoff) + [t] else After(ts, cutoff)
  {
  }

  /** Filtering twice is filtering by the later cutoff. */
  lemma {:induction false} AfterAfter(ts: seq<int>, c: int, d: int)
    requires c <= d
    ensures After(After(ts, c), d) == After(ts, d)
  {
    if ts != [] {
      var init, t := ts[..|ts| - 1], ts[|ts| - 1];
      AfterAfter(init, c, d);
      if t > c {
        AfterPush(After(init, c), t, d);
      }
    }
  }

  function Stored(hits: map<string, seq<int>>, key: string): seq<int> {
    if key in hits then hits[key] else []
  }

  /** From cutoff `from` on, the stored hit log shows the same instants as the whole history. */
  ghost predicate Agree(stored: seq<int>, full: Times, from: int) {
    forall c {:trigger After(stored, c)} :: from <= c ==> After(stored, c) == Live(full, c)
  }

  /** For every cutoff a call at or after `now` can use, the hit logs are interchangeable with the history. */
  ghost predicate Interchangeable(hits: map<string, seq<int>>, log: Log, window: int, now: int) {
    forall key {:trigger Stored(hits, key)} :: Agree(Stored(hits, key), Admitted(log, key), now - window)
  }

  /** Pruning keeps agreement. */
  lemma PruneAgrees(stored: seq<int>, full: Times, from: int)
    requires Agree(stored, full, from)
    ensures Agree(After(stored, from), full, from)
  {
    forall c {:trigger After(After(stored, from), c)} | from <= c
      ensures After(After(stored, from), c) == Live(full, c)
    {
      AfterAfter(stored, from, c);
    }
  }

  lemma PushAgrees(stored: seq<int>, full: Times, t: int, from: int)
    requires Agree(stored, full, from)
    ensures Agree(stored + [t], Then(full, t), from)
  {
  }

  /** Storing the pruned log of the requested key, with the new hit when admitted, keeps the logs interchangeable. */
  lemma KeepsInterchangeable(hits: map<string, seq<int>>, live: seq<int>, log: Log, key: string, at: int, ok: bool, window: int)
    requires Interchangeable(hits, log, window, at)
    requires live == After(Stored(hits, key), at - window)
    ensures Interchangeable(hits[key := if ok then live + [at] else live], Call(log, key, at, ok), window, at)
  {
    var hits' := hits[key := if ok then live + [at] else live];
    forall k ensures Agree(Stored(hits', k), Admitted(Call(log, key, at, ok), k), at - window) {
      assert Agree(Stored(hits, k), Admitted(log, k), at - window);
      if k == key {
        PruneAgrees(Stored(hits, key), Admitted(log, key), at - window);
        PushAgrees(live, Admitted(log, key), at, at - window);
      } else {
        assert Stored(hits', k) == Stored(hits, k);
      }
    }
  }

  lemma LaterStillInterchangeable(hits: map<string, seq<int>>, log: Log, window: int, now: int, later: int)
    requires Interchangeable(hits, log, window, now) && now <= later
    ensures Interchangeable(hits, log, window, later)
  {
  }

  /** In-place compaction: moves the instants after `cutoff` to the front and returns how many there are. */
  method Compact(buf: array<int>, cutoff: int) returns (keep: nat)
    modifies buf
    ensures keep <= buf.Length
    ensures buf[..keep] == After(old(buf[..]), cutoff)
  {
    keep := 0;
    var i := 0;
    ghost var was := buf[..];
    while i < buf.Length
      invariant 0 <= keep <= i <= buf.Length
      invariant buf[..keep] == After(was[..i], cutoff)
      invariant forall j :: i <= j < buf.Length ==> buf[j] == was[j]
    {
      var t := buf[i];
      AfterPush(was[..i], t, cutoff);
      assert was[..i + 1] == was[..i] + [t];
      if t > cutoff {
        buf[keep] := t;
        keep := keep + 1;
      }
      i := i + 1;
    }
    assert was[..i] == was;
  }

  /** Copies a stored hit log into a buffer and compacts it there. */
  method Pruned(stored: seq<int>, cutoff: int) returns (live: seq<int>)
    ensures live == After(stored, cutoff)
  {
    var buf := new int[|stored|](i requires 0 <= i < |stored| => stored[i]);
    assert buf[..] == stored;
    var keep := Compact(buf, cutoff);
    live := buf[..keep];
  }

  method AnyAfter(ts: seq<int>, cutoff: int) returns (live: bool)
    ensures live <==> After(ts, cutoff) != []
  {
    live := false;
    var i := 0;
    while i < |ts|
      invariant 0 <= i <= |ts|
      invariant After(ts[..i], cutoff) == []
    {
      AfterPush(ts[..i], ts[i], cutoff);
      assert ts[..i + 1] == ts[..i] + [ts[i]];
      if ts[i] > cutoff {
        AfterGrows(ts, i + 1, cutoff);
        return true;
      }
      i := i + 1;
    }
    assert ts[..i] == ts;
  }

  lemma {:induction false} AfterGrows(ts: seq<int>, n: nat, cutoff: int)
    requires n <= |ts|
    ensures |After(ts[..n], cutoff)| <= |After(ts, cutoff)|
  {
    if n == |ts| {
      assert ts[..n] == ts;
    } else {
      AfterGrows(ts[..|ts| - 1], n, cutoff);
      assert ts[..|ts| - 1][..n] == ts[..n];
    }
  }

  class Limiter {
    const limit: int
    const window: int
    var hits: map<string, seq<int>>
    var calls: nat
    ghost var log: Log

    /** The history is genuine and the hit logs are interchangeable with it from the last call on. */
    ghost predicate Valid()
      reads this
    {
      && Genuine(log, limit, window)
      && (log.Empty? ==> hits == map[])
      && (log.Call? ==> Interchangeable(hits, log, window, log.at))
    }

    constructor (limit: int, window: int)
      ensures Valid() && log == Empty && this.limit == limit && this.window == window
    {
      this.limit, this.window := limit, window;
      hits, calls, log := map[], 0, Empty;
    }

    /** Decides exactly as the reference limiter does; the pruning, the in-place compaction and the
        periodic sweep are invisible. A limit of zero or less disables the limiter. */
    method Allow(key: string, now: int) returns (ok: bool, retryAfter: int)
      requires Valid() && NotBefore(log, now)
      modifies this
      ensures Valid()
      ensures limit <= 0 ==> ok && retryAfter == 0 && log == old(log)
      ensures 0 < limit ==>
                && log == Call(old(log), key, now, ok)
                && (ok <==> |Counted(old(log), key, window, now)| < limit)
                && (ok ==> retryAfter == 0)
                && (!ok ==> Counted(old(log), key, window, now) != [] &&
                            retryAfter == RetryAfter(old(log), key, window, now) > 0)
    {
      if limit <= 0 {
        return true, 0;
      }
      var cutoff := now - window;
      calls := calls + 1;
      if log.Call? {
        LaterStillInterchangeable(hits, log, window, log.at, now);
      }
      if calls % SWEEP_EVERY == 0 {
        SweepLocked(cutoff);
      }
      assert Agree(Stored(hits, key), Admitted(log, key), cutoff);
      var live := Pruned(if key in hits then hits[key] else [], cutoff);
      assert live == Counted(log, key, window, now);
      ok := |live| < limit;
      retryAfter := if ok then 0 else live[0] - cutoff;
      if !ok {
        AdmittedInOrder(log, limit, window, key);
        OldestInRange(Admitted(log, key), cutoff);
      }
      KeepsInterchangeable(hits, live, log, key, now, ok, window);
      hits := hits[key := if ok then live + [now] else live];
      log := Call(log, key, now, ok);
    }

    /** Drops every key without a hit after `cutoff`; no later decision can tell. */
    method SweepLocked(cutoff: int)
      requires Interchangeable(hits, log, window, cutoff + window)
      modifies this`hits
      ensures hits == map k | k in old(hits) && After(old(hits)[k], cutoff) != [] :: old(hits)[k]
      ensures Interchangeable(hits, log, window, cutoff + window)
    {
      var todo := hits.Keys;
      while todo != {}
        invariant todo <= old(hits).Keys
        invariant hits == map k | k in old(hits) && (k in todo || After(old(hits)[k], cutoff) != []) :: old(hits)[k]
        decreases |todo|
      {
        var key :| key in todo;
        var live := AnyAfter(hits[key], cutoff);
        if !live {
          hits := hits - {key};
        }
        todo := todo - {key};
      }
      forall key ensures Agree(Stored(hits, key), Admitted(log, key), cutoff) {
        assert Agree(Stored(old(hits), key), Admitted(log, key), cutoff);
        if key in old(hits) && key !in hits {
          PruneAgrees(old(hits)[key], Admitted(log, key), cutoff);
        }
      }
    }
  }
}
