/** Vocabulary shared by every component. Instants and durations are integers in nanoseconds. */
module Common {

  datatype Option<+T> = None | Some(value: T)

  const SECOND: int := 1_000_000_000
  const MINUTE: int := 60 * SECOND

  const TWO63: int := 0x8000_0000_0000_0000
  const TWO64: int := 0x1_0000_0000_0000_0000

  predicate Int64(n: int) {
    -TWO63 <= n < TWO63
  }

  /** The two's complement reading of a 64-bit pattern. */
  function Signed64(n: int): int {
    var m := n % TWO64;
    if m < TWO63 then m else m - TWO64
  }

  function Min(a: int, b: int): int {
    if a <= b then a else b
  }

  function Max(a: int, b: int): int {
    if a >= b then a else b
  }

  function Lookup<K, V>(m: map<K, V>, k: K): Option<V> {
    if k in m then Some(m[k]) else None
  }

  /** A history of instants, latest last. */
  datatype Times = Never | Then(earlier: Times, at: int)

  predicate UpTo(ts: Times, hi: int) {
    ts.Then? ==> ts.at <= hi
  }

  predicate InOrder(ts: Times) {
    ts.Then? ==> InOrder(ts.earlier) && UpTo(ts.earlier, ts.at)
  }

  /** The instants strictly after `cutoff`, oldest first. */
  function Live(ts: Times, cutoff: int): seq<int> {
    match ts
    case Never => []
    case Then(earlier, at) => if at > cutoff then Live(earlier, cutoff) + [at] else Live(earlier, cutoff)
  }

  /** How many instants fall in the half-open interval (lo, hi]. */
  function CountIn(ts: Times, lo: int, hi: int): nat {
    match ts
    case Never => 0
    case Then(earlier, at) => CountIn(earlier, lo, hi) + (if lo < at <= hi then 1 else 0)
  }

  lemma {:induction false} LiveNone(ts: Times, c: int)
    requires InOrder(ts) && UpTo(ts, c)
    ensures Live(ts, c) == []
  {
    if ts.Then? {
      LiveNone(ts.earlier, c);
    }
  }

  /** The oldest live instant is after the cutoff, and not after the latest instant. */
  lemma {:induction false} OldestInRange(ts: Times, c: int)
    requires InOrder(ts) && Live(ts, c) != []
    ensures ts.Then? && c < Live(ts, c)[0] <= ts.at
  {
    if Live(ts.earlier, c) != [] {
      OldestInRange(ts.earlier, c);
    }
  }

  /** Nothing leaves the window until the cutoff reaches its oldest instant. */
  lemma {:induction false} StillLive(ts: Times, c: int, d: int)
    requires InOrder(ts) && c <= d
    requires Live(ts, c) != [] ==> d < Live(ts, c)[0]
    ensures Live(ts, d) == Live(ts, c)
  {
    if ts.Then? {
      if Live(ts.earlier, c) != [] {
        OldestInRange(ts.earlier, c);
      }
      StillLive(ts.earlier, c, d);
    }
  }

  lemma {:induction false} LiveShrinks(ts: Times, c: int, d: int)
    requires c <= d
    ensures |Live(ts, d)| <= |Live(ts, c)|
  {
    if ts.Then? {
      LiveShrinks(ts.earlier, c, d);
    }
  }

  /** Once the cutoff reaches the oldest live instant, at least that one has left the window. */
  lemma {:induction false} OldestLeaves(ts: Times, c: int, d: int)
    requires InOrder(ts) && Live(ts, c) != [] && Live(ts, c)[0] <= d
    ensures |Live(ts, d)| < |Live(ts, c)|
  {
    OldestInRange(ts, c);
    if Live(ts.earlier, c) != [] {
      OldestLeaves(ts.earlier, c, d);
    } else {
      LiveShrinks(ts.earlier, c, d);
    }
  }

  /** A window that starts no earlier than `c` holds no more than the instants after `c`. */
  lemma {:induction false} CountWithinLive(ts: Times, c: int, lo: int, hi: int)
    requires c <= lo
    ensures CountIn(ts, lo, hi) <= |Live(ts, c)|
  {
    if ts.Then? {
      CountWithinLive(ts.earlier, c, lo, hi);
    }
  }

  /** When no instant lies beyond `hi`, the window (lo, hi] holds everything after `lo`. */
  lemma {:induction false} CountIsLive(ts: Times, lo: int, hi: int)
    requires InOrder(ts) && UpTo(ts, hi)
    ensures CountIn(ts, lo, hi) == |Live(ts, lo)|
  {
    if ts.Then? {
      CountIsLive(ts.earlier, lo, hi);
    }
  }

  // ---- Byte-wise string order ----

  predicate StrLess(a: string, b: string) {
    b != "" && (a == "" || a[0] < b[0] || (a[0] == b[0] && StrLess(a[1..], b[1..])))
  }

  lemma {:induction false} StrLessTotal(a: string, b: string)
    ensures a == b || StrLess(a, b) || StrLess(b, a)
    ensures !(StrLess(a, b) && StrLess(b, a)) && !StrLess(a, a)
  {
    if a != "" {
      StrLessTotal(a[1..], if b == "" then b else b[1..]);
      assert a == [a[0]] + a[1..];
    }
    assert b != "" ==> b == [b[0]] + b[1..];
  }

  lemma {:induction false} StrLessTransitive(a: string, b: string, c: string)
    requires StrLess(a, b) && StrLess(b, c)
    ensures StrLess(a, c)
  {
    if a != "" && b != "" && a[0] == b[0] == c[0] {
      StrLessTransitive(a[1..], b[1..], c[1..]);
    }
  }
}
