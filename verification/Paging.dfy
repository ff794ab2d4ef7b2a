/** Keyset-paginated user lists (services/authentication-service/internal/users.go and storage.go). */
module UserPages {
  import opened Common

  const DEFAULT_LIST_LIMIT: int := 100
  const MAX_LIST_LIMIT: int := 500

  /** The zero instant; as a cursor it means no cursor. */
  const ZERO_TIME: int := -62135596800 * SECOND

  datatype User = User(id: string, tenantID: string, createdAt: int)

  /** Users are stored under unique ids with a creation stamp taken from the clock. */
  predicate Stored(us: seq<User>) {
    && (forall i, j :: 0 <= i < j < |us| ==> us[i].id != us[j].id)
    && (forall i :: 0 <= i < |us| ==> us[i].createdAt != ZERO_TIME)
  }

  // ---- The order: newest first, ties by descending id ----

  predicate Newer(a: User, b: User) {
    a.createdAt > b.createdAt || (a.createdAt == b.createdAt && StrLess(b.id, a.id))
  }

  predicate Descending(l: seq<User>) {
    forall i, j :: 0 <= i < j < |l| ==> Newer(l[i], l[j])
  }

  lemma NewerIsAnOrder(a: User, b: User, c: User)
    ensures !(Newer(a, b) && Newer(b, a)) && (a.id != b.id ==> Newer(a, b) || Newer(b, a))
    ensures Newer(a, b) && Newer(b, c) ==> Newer(a, c)
  {
    StrLessTotal(a.id, b.id);
    if StrLess(c.id, b.id) && StrLess(b.id, a.id) {
      StrLessTransitive(c.id, b.id, a.id);
    }
  }

  function Insert(u: User, l: seq<User>): seq<User> {
    if l == [] || Newer(u, l[0]) then [u] + l else [l[0]] + Insert(u, l[1..])
  }

  lemma {:induction false} InsertKeeps(u: User, l: seq<User>)
    requires Descending(l) && forall v :: v in l ==> v.id != u.id
    ensures forall v :: v in Insert(u, l) <==> v == u || v in l
    ensures Descending(Insert(u, l))
  {
    if l != [] && !Newer(u, l[0]) {
      InsertKeeps(u, l[1..]);
      NewerIsAnOrder(l[0], u, u);
      forall i | 0 <= i < |Insert(u, l[1..])| ensures Newer(l[0], Insert(u, l[1..])[i]) {
        assert Insert(u, l[1..])[i] in Insert(u, l[1..]);
      }
    } else if l != [] {
      forall i | 0 <= i < |l| ensures Newer(u, l[i]) {
        NewerIsAnOrder(u, l[0], l[i]);
      }
    }
  }

  /** The library sort, which orders by Newer. */
  function Sorted(us: seq<User>): seq<User> {
    if us == [] then [] else Insert(us[|us| - 1], Sorted(us[..|us| - 1]))
  }

  lemma {:induction false} SortedIsListing(us: seq<User>)
    requires Stored(us)
    ensures Descending(Sorted(us)) && forall u :: u in Sorted(us) <==> u in us
  {
    if us != [] {
      var front, last := us[..|us| - 1], us[|us| - 1];
      SortedIsListing(front);
      assert us == front + [last];
      forall v | v in Sorted(front) ensures v.id != last.id {
        assert v in front;
      }
      InsertKeeps(last, Sorted(front));
    }
  }

  /** A strictly descending list is determined by its members. */
  lemma {:induction false} ListingIsUnique(a: seq<User>, b: seq<User>)
    requires Descending(a) && Descending(b) && forall u :: u in a <==> u in b
    ensures a == b
  {
    if a == [] {
      assert forall i :: 0 <= i < |b| ==> b[i] in b;
    } else {
      assert a[0] in b && (b[0] in a);
      NewerIsAnOrder(a[0], b[0], b[0]);
      assert a[0] == b[0];
      forall u ensures u in a[1..] <==> u in b[1..] {
        NewerIsAnOrder(a[0], a[0], a[0]);
        assert u in a <==> u == a[0] || u in a[1..];
        assert u in b <==> u == b[0] || u in b[1..];
      }
      ListingIsUnique(a[1..], b[1..]);
    }
  }

  // ---- Listing and paging ----

  predicate Listable(u: User, tenantID: string, cursor: int) {
    u.tenantID == tenantID && (cursor == ZERO_TIME || u.createdAt < cursor)
  }

  function Matching(us: seq<User>, tenantID: string, cursor: int): seq<User> {
    if us == [] then []
    else
      var last := us[|us| - 1];
      Matching(us[..|us| - 1], tenantID, cursor) + (if Listable(last, tenantID, cursor) then [last] else [])
  }

  lemma {:induction false} MatchingMembers(us: seq<User>, tenantID: string, cursor: int)
    ensures forall u :: u in Matching(us, tenantID, cursor) <==> u in us && Listable(u, tenantID, cursor)
    ensures Stored(us) ==> Stored(Matching(us, tenantID, cursor))
  {
    if us != [] {
      var front, last := us[..|us| - 1], us[|us| - 1];
      MatchingMembers(front, tenantID, cursor);
      assert us == front + [last];
      if Stored(us) {
        forall i | 0 <= i < |Matching(front, tenantID, cursor)| ensures Matching(front, tenantID, cursor)[i].id != last.id {
          assert Matching(front, tenantID, cursor)[i] in front;
        }
      }
    }
  }

  /** Every user of the tenant strictly older than the cursor, newest first. */
  function Listing(us: seq<User>, tenantID: string, cursor: int): seq<User> {
    Sorted(Matching(us, tenantID, cursor))
  }

  function Cut(l: seq<User>, limit: int): seq<User> {
    if limit > 0 && |l| > limit then l[..limit] else l
  }

  method ListUsers(us: seq<User>, tenantID: string, limit: int, cursor: int) returns (out: seq<User>)
    ensures out == Cut(Listing(us, tenantID, cursor), limit)
  {
    out := [];
    for i := 0 to |us|
      invariant out == Matching(us[..i], tenantID, cursor)
    {
      assert us[..i + 1][..i] == us[..i];
      if us[i].tenantID != tenantID {
        continue;
      }
      if cursor != ZERO_TIME && !(us[i].createdAt < cursor) {
        continue;
      }
      out := out + [us[i]];
    }
    assert us[..|us|] == us;
    out := Sorted(out);
    if limit > 0 && |out| > limit {
      out := out[..limit];
    }
  }

  datatype LimitParam = NoLimit | BadLimit | Limit(n: int)

  datatype CursorParam = NoCursor | BadCursor | Cursor(at: int)

  datatype Reply = InvalidLimit | InvalidCursor | Page(users: seq<User>, next: Option<int>)

  function PageAt(us: seq<User>, tenantID: string, limit: int, cursor: int): Reply
    requires limit > 0
  {
    var page := Cut(Listing(us, tenantID, cursor), limit);
    Page(page, if |page| == limit then Some(page[limit - 1].createdAt) else None)
  }

  method List(us: seq<User>, tenantID: string, limit: LimitParam, cursor: CursorParam) returns (reply: Reply)
    ensures reply ==
            if limit.BadLimit? || (limit.Limit? && limit.n <= 0) then InvalidLimit
            else if cursor.BadCursor? then InvalidCursor
            else PageAt(us, tenantID, if limit.NoLimit? then 100 else Min(limit.n, 500),
                        if cursor.NoCursor? then ZERO_TIME else cursor.at)
  {
    var n := DEFAULT_LIST_LIMIT;
    if limit != NoLimit {
      if limit.BadLimit? || limit.n <= 0 {
        return InvalidLimit;
      }
      n := limit.n;
      if n > MAX_LIST_LIMIT {
        n := MAX_LIST_LIMIT;
      }
    }
    var at := ZERO_TIME;
    if cursor != NoCursor {
      if cursor.BadCursor? {
        return InvalidCursor;
      }
      at := cursor.at;
    }
    var users := ListUsers(us, tenantID, n, at);
    var next := None;
    if |users| == n && n > 0 {
      next := Some(users[|users| - 1].createdAt);
    }
    return Page(users, next);
  }

  // ---- Following the cursors ----

  /** What a list holds below a cursor. */
  function Older(l: seq<User>, cursor: int): seq<User> {
    if l == [] || l[0].createdAt < cursor then l else Older(l[1..], cursor)
  }

  lemma {:induction false} OlderIsSuffix(l: seq<User>, cursor: int)
    requires Descending(l)
    ensures |Older(l, cursor)| <= |l| && Older(l, cursor) == l[|l| - |Older(l, cursor)|..]
    ensures forall i :: 0 <= i < |l| ==> (l[i].createdAt < cursor <==> i >= |l| - |Older(l, cursor)|)
    ensures Descending(Older(l, cursor))
    ensures forall u :: u in Older(l, cursor) <==> u in l && u.createdAt < cursor
  {
    if l != [] && !(l[0].createdAt < cursor) {
      OlderIsSuffix(l[1..], cursor);
      var k := |l[1..]| - |Older(l[1..], cursor)|;
      assert l[1..][k..] == l[k + 1..];
      assert forall u :: u in l <==> u == l[0] || u in l[1..];
      forall i | 0 < i < |l| ensures l[i].createdAt < cursor <==> i >= k + 1 {
        assert l[i] == l[1..][i - 1];
      }
    }
  }

  /** The next page's listing is what the previous one has below its last user. */
  lemma NextListing(us: seq<User>, tenantID: string, limit: int, cursor: int)
    requires Stored(us) && limit > 0
    ensures Descending(Listing(us, tenantID, cursor))
    ensures var r := PageAt(us, tenantID, limit, cursor);
            r.next.Some? ==>
              && r.next.value != ZERO_TIME && |r.users| == limit
              && Listing(us, tenantID, r.next.value) == Older(Listing(us, tenantID, cursor), r.next.value)
              && |Listing(us, tenantID, r.next.value)| <= |Listing(us, tenantID, cursor)| - limit
  {
    var l, r := Listing(us, tenantID, cursor), PageAt(us, tenantID, limit, cursor);
    MatchingMembers(us, tenantID, cursor);
    SortedIsListing(Matching(us, tenantID, cursor));
    if r.next.Some? {
      var next := r.next.value;
      assert l[limit - 1] in l;
      OlderIsSuffix(l, next);
      MatchingMembers(us, tenantID, next);
      SortedIsListing(Matching(us, tenantID, next));
      ListingIsUnique(Listing(us, tenantID, next), Older(l, next));
    }
  }

  /** All users a client sees by following next_cursor until there is none. That this is a function says that the walk
      ends. */
  function Walk(us: seq<User>, tenantID: string, limit: int, cursor: int): seq<User>
    requires Stored(us) && limit > 0
    decreases |Listing(us, tenantID, cursor)|
  {
    var r := PageAt(us, tenantID, limit, cursor);
    if r.next.None? then r.users
    else
      NextListing(us, tenantID, limit, cursor);
      r.users + Walk(us, tenantID, limit, r.next.value)
  }

  /** The walk yields users of the listing only, newest first, so none twice. */
  lemma {:induction false} WalkNeverRepeats(us: seq<User>, tenantID: string, limit: int, cursor: int)
    requires Stored(us) && limit > 0
    ensures var w := Walk(us, tenantID, limit, cursor);
            && Descending(w) && (forall u :: u in w ==> u in Listing(us, tenantID, cursor))
            && (forall i, j :: 0 <= i < j < |w| ==> w[i] != w[j]) && |w| <= |Listing(us, tenantID, cursor)|
    decreases |Listing(us, tenantID, cursor)|
  {
    var l, r := Listing(us, tenantID, cursor), PageAt(us, tenantID, limit, cursor);
    NextListing(us, tenantID, limit, cursor);
    if r.next.Some? {
      var rest := Walk(us, tenantID, limit, r.next.value);
      WalkNeverRepeats(us, tenantID, limit, r.next.value);
      OlderIsSuffix(l, r.next.value);
      forall i, j | 0 <= i < limit && 0 <= j < |rest| ensures Newer(r.users[i], rest[j]) {
        assert rest[j] in rest;
        assert i < limit - 1 ==> Newer(l[i], l[limit - 1]);
      }
    }
    var w := Walk(us, tenantID, limit, cursor);
    forall i, j | 0 <= i < j < |w| ensures w[i] != w[j] {
      assert Newer(w[i], w[j]);
      NewerIsAnOrder(w[i], w[j], w[j]);
    }
  }

  /** No page of the full listing ends between two users created at the same instant. */
  predicate NoTieAtBoundary(l: seq<User>, limit: int)
    requires limit > 0
    decreases |l|
  {
    |l| <= limit || (l[limit - 1].createdAt != l[limit].createdAt && NoTieAtBoundary(l[limit..], limit))
  }

  /** What the next page resumes with: everything left, unless the boundary falls in a tie. */
  lemma Resumed(l: seq<User>, limit: int)
    requires Descending(l) && 0 < limit <= |l|
    ensures var rest := Older(l, l[limit - 1].createdAt);
            if |l| > limit && l[limit].createdAt == l[limit - 1].createdAt then |rest| < |l| - limit else rest == l[limit..]
  {
    var next := l[limit - 1].createdAt;
    OlderIsSuffix(l, next);
    assert |l| > limit ==> Newer(l[limit - 1], l[limit]);
  }

  /** For each limit, following the cursors yields exactly the unlimited list if and only if no page boundary falls
      between two users with the same creation stamp; otherwise users are skipped. */
  lemma {:induction false} WalkIsCompleteIff(us: seq<User>, tenantID: string, limit: int, cursor: int)
    requires Stored(us) && limit > 0
    ensures Walk(us, tenantID, limit, cursor) == Listing(us, tenantID, cursor) <==>
            NoTieAtBoundary(Listing(us, tenantID, cursor), limit)
    decreases |Listing(us, tenantID, cursor)|
  {
    var l, r := Listing(us, tenantID, cursor), PageAt(us, tenantID, limit, cursor);
    NextListing(us, tenantID, limit, cursor);
    if r.next.Some? {
      var next := r.next.value;
      var page, rest := l[..limit], Walk(us, tenantID, limit, next);
      WalkNeverRepeats(us, tenantID, limit, next);
      WalkIsCompleteIff(us, tenantID, limit, next);
      Resumed(l, limit);
      SameTail(page, rest, l);
    }
  }

  lemma SameTail(page: seq<User>, rest: seq<User>, l: seq<User>)
    requires |page| <= |l| && page == l[..|page|]
    ensures page + rest == l <==> rest == l[|page|..]
  {
  }

  predicate DistinctStamps(l: seq<User>) {
    forall i, j :: 0 <= i < j < |l| ==> l[i].createdAt != l[j].createdAt
  }

  lemma {:induction false} DistinctHasNoTies(l: seq<User>, limit: int)
    requires DistinctStamps(l) && limit > 0
    ensures NoTieAtBoundary(l, limit)
    decreases |l|
  {
    if |l| > limit {
      DistinctHasNoTies(l[limit..], limit);
    }
  }

  /** Paging one by one is complete only when no two neighbours are tied. */
  lemma {:induction false} OneByOneFindsTies(l: seq<User>)
    requires Descending(l) && NoTieAtBoundary(l, 1)
    ensures DistinctStamps(l)
  {
    if |l| > 1 {
      OneByOneFindsTies(l[1..]);
      forall i, j | 0 <= i < j < |l| ensures l[i].createdAt != l[j].createdAt {
        if i > 0 {
          assert l[1..][i - 1] == l[i] && l[1..][j - 1] == l[j];
        } else {
          assert Newer(l[0], l[1]) && (j > 1 ==> Newer(l[1], l[j]));
        }
      }
    }
  }

  /** Cursor paging shows every user of the tenant under every limit if and only if no two of them were created at the
      same instant. */
  lemma PagingIsCompleteIff(us: seq<User>, tenantID: string)
    requires Stored(us)
    ensures (forall limit: int :: 1 <= limit <= MAX_LIST_LIMIT ==> Walk(us, tenantID, limit, ZERO_TIME) == Listing(us, tenantID, ZERO_TIME))
            <==> DistinctStamps(Listing(us, tenantID, ZERO_TIME))
  {
    var l := Listing(us, tenantID, ZERO_TIME);
    NextListing(us, tenantID, 1, ZERO_TIME);
    WalkIsCompleteIff(us, tenantID, 1, ZERO_TIME);
    if DistinctStamps(l) {
      forall limit: int | 1 <= limit <= MAX_LIST_LIMIT ensures Walk(us, tenantID, limit, ZERO_TIME) == l {
        WalkIsCompleteIff(us, tenantID, limit, ZERO_TIME);
        DistinctHasNoTies(l, limit);
      }
    } else if Walk(us, tenantID, 1, ZERO_TIME) == l {
      OneByOneFindsTies(l);
    }
  }

  /** A skipped user: of two created at the same instant, paging one by one shows only the one with the higher id. */
  lemma TiedUserIsSkipped(at: int)
    requires at != ZERO_TIME
    ensures var a, b := User("a", "t", at), User("b", "t", at);
            Walk([a, b], "t", 1, ZERO_TIME) == [b] && Listing([a, b], "t", ZERO_TIME) == [b, a]
  {
    var a, b := User("a", "t", at), User("b", "t", at);
    assert Matching([a], "t", ZERO_TIME) == [a] && Matching([a], "t", at) == [] by {
      assert [a][..0] == [];
    }
    assert [a, b][..1] == [a];
    assert Sorted([a]) == [a] && StrLess("a", "b");
    assert Listing([a, b], "t", ZERO_TIME) == [b, a];
    assert Listing([a, b], "t", at) == [];
  }

  /** The full listing holds exactly the tenant's users, and the order of the store does not matter to it. */
  lemma ListingIsTheTenant(us: seq<User>, vs: seq<User>, tenantID: string)
    requires Stored(us) && Stored(vs) && forall u :: u in us <==> u in vs
    ensures forall u :: u in Listing(us, tenantID, ZERO_TIME) <==> u in us && u.tenantID == tenantID
    ensures Listing(us, tenantID, ZERO_TIME) == Listing(vs, tenantID, ZERO_TIME)
  {
    MatchingMembers(us, tenantID, ZERO_TIME);
    MatchingMembers(vs, tenantID, ZERO_TIME);
    SortedIsListing(Matching(us, tenantID, ZERO_TIME));
    SortedIsListing(Matching(vs, tenantID, ZERO_TIME));
    ListingIsUnique(Listing(us, tenantID, ZERO_TIME), Listing(vs, tenantID, ZERO_TIME));
  }
}
