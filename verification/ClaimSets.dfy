/** Claim sets as JSON (pkg/jwtx/jwtx.go): how claims and extras are merged into a payload, and how a payload is read. */
module ClaimSets {
  import opened Common

  const TWO53: int := 0x20_0000_0000_0000

  /** `Other` stands for objects and for numbers not written as integers. */
  datatype JSON = Null | Bool(b: bool) | Str(s: string) | Num(n: int) | Arr(items: seq<JSON>) | Other(raw: string)

  type Object = map<string, JSON>

  datatype Member = Member(name: string, value: JSON)

  /** The members of a JSON object as written, in order. */
  type Doc = seq<Member>

  /** A value decoded without a type and encoded again: its numbers pass through 64-bit floats. */
  datatype Reencoder = Reencoder(integer: int -> int, other: string -> string)

  /** Integers up to 2^53 survive; the next one does not. */
  ghost predicate Floats(re: Reencoder) {
    && (forall n :: -TWO53 <= n <= TWO53 ==> re.integer(n) == n)
    && re.integer(TWO53 + 1) == TWO53
  }

  function Again(re: Reencoder, v: JSON): JSON
    decreases v
  {
    match v
    case Num(n) => Num(re.integer(n))
    case Arr(items) => Arr(seq(|items|, i requires 0 <= i < |items| => Again(re, items[i])))
    case Other(raw) => Other(re.other(raw))
    case _ => v
  }

  // ---- Names ----

  const TEXT_FIELDS: set<string> := {"sub", "iss", "aud", "jti", "tenant_id", "scope", "session_id", "nonce", "acr"}
  const REQUIRED_TEXT: set<string> := {"sub", "iss"}
  const CLAIM_FIELDS: set<string> := TEXT_FIELDS + {"exp", "iat", "amr"}
  const FIELD_ORDER: seq<string> :=
    ["sub", "iss", "aud", "exp", "iat", "jti", "tenant_id", "scope", "session_id", "nonce", "acr", "amr"]

  /** Simple case folding, as far as it can reach an ASCII letter: the long s and the Kelvin sign fold to s and k. */
  function FoldChar(c: char): char {
    if 'A' <= c <= 'Z' then (c as int + 32) as char
    else if c == '\U{17F}' then 's'
    else if c == '\U{212A}' then 'k'
    else c
  }

  /** The decoder stores a member in the claim whose name equals the member's name after folding. */
  function Fold(name: string): string {
    seq(|name|, i requires 0 <= i < |name| => FoldChar(name[i]))
  }

  predicate Lower(name: string) {
    forall i :: 0 <= i < |name| ==> FoldChar(name[i]) == name[i]
  }

  lemma LowerFolds(name: string)
    requires Lower(name)
    ensures Fold(name) == name
  {
  }

  lemma FieldsFold()
    ensures forall f :: f in CLAIM_FIELDS ==> Fold(f) == f
  {
    forall f | f in CLAIM_FIELDS ensures Fold(f) == f {
      assert Lower(f);
      LowerFolds(f);
    }
  }

  predicate NoSpecialLetter(f: string) {
    forall i :: 0 <= i < |f| ==> f[i] != 's' && f[i] != 'k'
  }

  /** Without an s or a k in it, a field's other spellings have capitals in them and sort before it. */
  lemma {:induction false} CapitalsSortFirst(name: string, f: string)
    requires Fold(name) == f && name != f && NoSpecialLetter(f)
    ensures StrLess(name, f)
  {
    assert |name| == |f| && FoldChar(name[0]) == f[0];
    if name[0] == f[0] {
      assert name == [name[0]] + name[1..] && f == [f[0]] + f[1..];
      assert Fold(name[1..]) == f[1..];
      CapitalsSortFirst(name[1..], f[1..]);
    }
  }

  // ---- Reading a payload into claims ----

  /** `text` holds `sub`, `iss` and the other text claims that are not empty. */
  datatype Claims = Claims(text: map<string, string>, exp: int, iat: int, amr: seq<string>)

  predicate Normal(c: Claims) {
    && REQUIRED_TEXT <= c.text.Keys <= TEXT_FIELDS
    && forall k :: k in c.text && k !in REQUIRED_TEXT ==> c.text[k] != ""
  }

  function TextOf(c: Claims, k: string): string {
    if k in c.text then c.text[k] else ""
  }

  /** A member that names a claim is null or has the claim's type; any other member is ignored. */
  predicate Fits(name: string, v: JSON) {
    && (Fold(name) in TEXT_FIELDS ==> v.Null? || v.Str?)
    && (Fold(name) == "exp" || Fold(name) == "iat" ==> v.Null? || (v.Num? && Int64(v.n)))
    && (Fold(name) == "amr" ==> v.Null? || (v.Arr? && forall i :: 0 <= i < |v.items| ==> v.items[i].Null? || v.items[i].Str?))
  }

  predicate WellTyped(doc: Doc) {
    forall i :: 0 <= i < |doc| ==> Fits(doc[i].name, doc[i].value)
  }

  predicate SetsText(m: Member, k: string) {
    Fold(m.name) == k && m.value.Str?
  }

  predicate SetsNum(m: Member, k: string) {
    Fold(m.name) == k && m.value.Num?
  }

  /** The last member that sets the claim wins; null leaves it as it was. */
  function TextIn(doc: Doc, k: string): string {
    if doc == [] then ""
    else if SetsText(doc[|doc| - 1], k) then doc[|doc| - 1].value.s
    else TextIn(doc[..|doc| - 1], k)
  }

  function NumIn(doc: Doc, k: string): int {
    if doc == [] then 0
    else if SetsNum(doc[|doc| - 1], k) then doc[|doc| - 1].value.n
    else NumIn(doc[..|doc| - 1], k)
  }

  /** A list claim while it is being decoded: its first `len` cells, and those an earlier, longer list left behind. */
  datatype Slice = Slice(cells: seq<string>, len: nat)

  /** A null item leaves the cell it falls on. */
  function Overwritten(items: seq<JSON>, cells: seq<string>): (r: seq<string>)
    ensures |r| == Max(|items|, |cells|)
  {
    seq(Max(|items|, |cells|), i requires 0 <= i < Max(|items|, |cells|) =>
      if i < |items| && items[i].Str? then items[i].s else if i < |cells| then cells[i] else "")
  }

  /** Null and the empty array start the list afresh. */
  function SliceIn(doc: Doc, k: string): (s: Slice)
    ensures s.len <= |s.cells|
  {
    if doc == [] then Slice([], 0)
    else
      var m, before := doc[|doc| - 1], SliceIn(doc[..|doc| - 1], k);
      if Fold(m.name) != k then before
      else if m.value.Null? || m.value == Arr([]) then Slice([], 0)
      else if m.value.Arr? then Slice(Overwritten(m.value.items, before.cells), |m.value.items|)
      else before
  }

  function ListIn(doc: Doc, k: string): seq<string> {
    SliceIn(doc, k).cells[..SliceIn(doc, k).len]
  }

  function ReadClaims(doc: Doc): Option<Claims> {
    if !WellTyped(doc) then None
    else Some(Claims(map k | k in TEXT_FIELDS && (k in REQUIRED_TEXT || TextIn(doc, k) != "") :: TextIn(doc, k),
                     NumIn(doc, "exp"), NumIn(doc, "iat"), ListIn(doc, "amr")))
  }

  predicate TextAgrees(doc: Doc, c: Claims) {
    forall k :: k in TEXT_FIELDS ==> TextIn(doc, k) == TextOf(c, k)
  }

  lemma ReadsAs(doc: Doc, c: Claims)
    requires Normal(c) && WellTyped(doc)
    ensures ReadClaims(doc).value.text == c.text <==> TextAgrees(doc, c)
  {
    var r := ReadClaims(doc).value;
    forall k | k in TEXT_FIELDS ensures TextOf(r, k) == TextIn(doc, k) {
    }
    if TextAgrees(doc, c) {
      assert r.text == c.text;
    }
  }

  /** The untyped reading: every member by its exact name. */
  function RawOf(re: Reencoder, doc: Doc): Object {
    if doc == [] then map[]
    else RawOf(re, doc[..|doc| - 1])[doc[|doc| - 1].name := Again(re, doc[|doc| - 1].value)]
  }

  function RawText(raw: Object, k: string): string {
    if k in raw && raw[k].Str? then raw[k].s else ""
  }

  // ---- Writing claims and extras ----

  function Strs(xs: seq<string>): seq<JSON> {
    seq(|xs|, i requires 0 <= i < |xs| => Str(xs[i]))
  }

  /** Marshalling omits the optional claims that are zero. */
  function ObjectOf(c: Claims): Object {
    (map k | k in c.text :: Str(c.text[k])) + map["exp" := Num(c.exp), "iat" := Num(c.iat)] +
    (if c.amr == [] then map[] else map["amr" := Arr(Strs(c.amr))])
  }

  /** The members in the order the claims are declared. */
  function Declared(order: seq<string>, o: Object): Doc {
    if order == [] then []
    else
      var last := order[|order| - 1];
      Declared(order[..|order| - 1], o) + (if last in o then [Member(last, o[last])] else [])
  }

  predicate Largest(k: string, names: set<string>) {
    k in names && forall j :: j in names && j != k ==> StrLess(j, k)
  }

  lemma {:induction false} LargestExists(names: set<string>)
    requires names != {}
    ensures exists k :: k in names && Largest(k, names)
    decreases |names|
  {
    var k :| k in names;
    var rest := names - {k};
    if rest == {} {
      assert names == {k} && Largest(k, names);
    } else {
      assert |rest| < |names|;
      LargestExists(rest);
      var j :| j in rest && Largest(j, rest);
      StrLessTotal(j, k);
      forall i | i in names ensures i != j && StrLess(j, k) ==> i == k || StrLess(i, k) {
        if i != j && i != k && StrLess(j, k) {
          StrLessTransitive(i, j, k);
        }
      }
      assert Largest(if StrLess(j, k) then k else j, names);
    }
  }

  lemma LargestIsUnique(j: string, k: string, names: set<string>)
    requires Largest(j, names) && Largest(k, names)
    ensures j == k
  {
    StrLessTotal(j, k);
  }

  /** The members of a map in the order an encoder writes them: by name. */
  function Sorted(o: Object): Doc
    decreases o.Keys
  {
    if o == map[] then []
    else
      LargestExists(o.Keys);
      assert forall j, k :: Largest(j, o.Keys) && Largest(k, o.Keys) ==> j == k by {
        forall j, k | Largest(j, o.Keys) && Largest(k, o.Keys) ensures j == k {
          LargestIsUnique(j, k, o.Keys);
        }
      }
      var k :| k in o.Keys && Largest(k, o.Keys);
      Sorted(o - {k}) + [Member(k, o[k])]
  }

  /** The encoded claims decoded without types and extended by the extras; an extra name already there is an error. */
  function Extended(re: Reencoder, c: Claims, extra: Object): Option<Object> {
    var base := ObjectOf(c);
    if base.Keys !! extra.Keys then Some((map k | k in base :: Again(re, base[k])) + extra) else None
  }

  function Payload(re: Reencoder, c: Claims, extra: Object): Option<Doc> {
    if extra == map[] then Some(Declared(FIELD_ORDER, ObjectOf(c)))
    else if Extended(re, c, extra).Some? then Some(Sorted(Extended(re, c, extra).value))
    else None
  }

  method MergeClaims(re: Reencoder, c: Claims, extra: Object) returns (doc: Option<Doc>)
    ensures doc == Payload(re, c, extra)
  {
    var base := ObjectOf(c);
    if extra == map[] {
      return Some(Declared(FIELD_ORDER, base));
    }
    var merged := AddAll(map k | k in base :: Again(re, base[k]), extra);
    return if merged.None? then None else Some(Sorted(merged.value));
  }

  method AddAll(base: Object, extra: Object) returns (merged: Option<Object>)
    ensures merged == if base.Keys !! extra.Keys then Some(base + extra) else None
  {
    var out, todo := base, extra.Keys;
    while todo != {}
      invariant todo <= extra.Keys && (extra.Keys - todo) !! base.Keys
      invariant out.Keys == base.Keys + (extra.Keys - todo)
      invariant forall k :: k in out ==> out[k] == if k in base then base[k] else extra[k]
    {
      var k :| k in todo;
      if k in out {
        assert k in base.Keys && k in extra.Keys;
        return None;
      }
      out, todo := out[k := extra[k]], todo - {k};
    }
    assert out == base + extra;
    return Some(out);
  }

  // ---- What a payload spells ----

  /** The document lists the named members of the object, each once. */
  ghost predicate Spells(doc: Doc, names: set<string>, o: Object)
    requires names <= o.Keys
  {
    && (forall i :: 0 <= i < |doc| ==> doc[i].name in names && o[doc[i].name] == doc[i].value)
    && (forall n :: n in names ==> exists i :: 0 <= i < |doc| && doc[i].name == n)
    && (forall i, j :: 0 <= i < j < |doc| ==> doc[i].name != doc[j].name)
  }

  lemma OneMore(doc: Doc, names: set<string>, o: Object, k: string)
    requires names <= o.Keys && k in o && k !in names && Spells(doc, names, o)
    ensures Spells(doc + [Member(k, o[k])], names + {k}, o)
  {
    var longer := doc + [Member(k, o[k])];
    forall n | n in names + {k} ensures exists i :: 0 <= i < |longer| && longer[i].name == n {
      if n == k {
        assert longer[|doc|].name == n;
      } else {
        var i :| 0 <= i < |doc| && doc[i].name == n;
        assert longer[i].name == n;
      }
    }
  }

  /** Members that name the same claim come in name order. */
  predicate FoldOrdered(doc: Doc) {
    forall i, j :: 0 <= i < j < |doc| && Fold(doc[i].name) == Fold(doc[j].name) ==> StrLess(doc[i].name, doc[j].name)
  }

  lemma SortedStep(o: Object) returns (k: string)
    requires o != map[]
    ensures Largest(k, o.Keys) && Sorted(o) == Sorted(o - {k}) + [Member(k, o[k])]
  {
    LargestExists(o.Keys);
    k :| k in o.Keys && Largest(k, o.Keys);
    forall j | Largest(j, o.Keys) ensures j == k {
      LargestIsUnique(j, k, o.Keys);
    }
  }

  lemma LargestLast(front: Doc, o: Object, k: string)
    requires k in o && Spells(front, (o - {k}).Keys, o - {k})
    ensures Spells(front + [Member(k, o[k])], o.Keys, o)
  {
    var rest := o - {k};
    assert Spells(front, rest.Keys, o);
    OneMore(front, rest.Keys, o, k);
    assert rest.Keys + {k} == o.Keys;
  }

  lemma {:induction false} SortedSpells(o: Object)
    ensures Spells(Sorted(o), o.Keys, o)
    decreases o.Keys
  {
    if o != map[] {
      var k := SortedStep(o);
      SortedSpells(o - {k});
      LargestLast(Sorted(o - {k}), o, k);
    }
  }

  lemma {:induction false} SortedAscends(o: Object)
    ensures Ascending(Sorted(o))
    decreases o.Keys
  {
    if o != map[] {
      var k := SortedStep(o);
      SortedAscends(o - {k});
      SortedSpells(o - {k});
    }
  }

  predicate Ascending(doc: Doc) {
    forall i, j :: 0 <= i < j < |doc| ==> StrLess(doc[i].name, doc[j].name)
  }

  lemma {:induction false} DeclaredSpells(order: seq<string>, o: Object)
    requires forall i, j :: 0 <= i < j < |order| ==> order[i] != order[j]
    ensures Spells(Declared(order, o), (set k | k in order && k in o), o)
  {
    if order != [] {
      var front, last := order[..|order| - 1], order[|order| - 1];
      DeclaredSpells(front, o);
      assert order == front + [last] && last !in front;
      var names := set k | k in front && k in o;
      if last in o {
        OneMore(Declared(front, o), names, o, last);
        assert names + {last} == set k | k in order && k in o;
      } else {
        assert names == set k | k in order && k in o;
        assert Declared(order, o) == Declared(front, o);
      }
    }
  }

  // ---- The last member that names a claim decides it ----

  function LastText(doc: Doc, k: string): int {
    if doc == [] then -1 else if SetsText(doc[|doc| - 1], k) then |doc| - 1 else LastText(doc[..|doc| - 1], k)
  }

  lemma {:induction false} LastTextReads(doc: Doc, k: string)
    ensures var i := LastText(doc, k);
            && -1 <= i < |doc| && (forall j :: i < j < |doc| ==> !SetsText(doc[j], k))
            && (if i < 0 then TextIn(doc, k) == "" else SetsText(doc[i], k) && TextIn(doc, k) == doc[i].value.s)
  {
    if doc != [] && !SetsText(doc[|doc| - 1], k) {
      LastTextReads(doc[..|doc| - 1], k);
    }
  }

  lemma {:induction false} LastNumReads(doc: Doc, k: string, i: nat)
    requires i < |doc| && SetsNum(doc[i], k) && forall j :: i < j < |doc| ==> !SetsNum(doc[j], k)
    ensures NumIn(doc, k) == doc[i].value.n
  {
    if i < |doc| - 1 {
      LastNumReads(doc[..|doc| - 1], k, i);
    }
  }

  function LastList(doc: Doc, k: string): int {
    if doc == [] then -1 else if Fold(doc[|doc| - 1].name) == k then |doc| - 1 else LastList(doc[..|doc| - 1], k)
  }

  /** The last list member decides whether the list is empty, and decides all of it when it has no null items. */
  lemma {:induction false} LastListReads(doc: Doc, k: string)
    requires forall i :: 0 <= i < |doc| && Fold(doc[i].name) == k ==> doc[i].value.Null? || doc[i].value.Arr?
    ensures var i := LastList(doc, k);
            && -1 <= i < |doc| && (forall j :: i < j < |doc| ==> Fold(doc[j].name) != k)
            && (i < 0 ==> ListIn(doc, k) == [])
            && (0 <= i ==> Fold(doc[i].name) == k)
            && (0 <= i ==> (ListIn(doc, k) == [] <==> doc[i].value.Null? || doc[i].value == Arr([])))
            && (0 <= i ==> forall xs :: doc[i].value == Arr(Strs(xs)) ==> ListIn(doc, k) == xs)
  {
    if doc != [] {
      var m, front := doc[|doc| - 1], doc[..|doc| - 1];
      LastListReads(front, k);
      if Fold(m.name) == k && m.value.Arr? {
        forall xs | m.value == Arr(Strs(xs)) ensures ListIn(doc, k) == xs {
          assert |Strs(xs)| == |xs|;
        }
      }
    }
  }

  // ---- What the payload of claims and extras says ----

  lemma FieldNames()
    ensures "exp" !in TEXT_FIELDS && "iat" !in TEXT_FIELDS && "amr" !in TEXT_FIELDS
    ensures "exp" != "iat" && "exp" != "amr" && "iat" != "amr"
    ensures CLAIM_FIELDS == TEXT_FIELDS + {"exp", "iat", "amr"}
    ensures NoSpecialLetter("exp") && NoSpecialLetter("iat") && NoSpecialLetter("amr")
  {
  }

  /** A number after the encoding: extras send it through a float. */
  function Carried(re: Reencoder, extra: Object, n: int): int {
    if extra == map[] then n else re.integer(n)
  }

  /** The claims' members after the encoding. */
  function BaseOf(re: Reencoder, c: Claims, extra: Object): Object {
    map k | k in ObjectOf(c) :: if extra == map[] then ObjectOf(c)[k] else Again(re, ObjectOf(c)[k])
  }

  lemma AgainStrs(re: Reencoder, xs: seq<string>)
    ensures Again(re, Arr(Strs(xs))) == Arr(Strs(xs))
  {
    assert Again(re, Arr(Strs(xs))).items == Strs(xs);
  }

  lemma ObjectMembers(c: Claims)
    requires Normal(c)
    ensures forall k :: k in ObjectOf(c) <==> k in c.text || k == "exp" || k == "iat" || (k == "amr" && c.amr != [])
    ensures forall k :: k in c.text ==> ObjectOf(c)[k] == Str(c.text[k])
    ensures ObjectOf(c)["exp"] == Num(c.exp) && ObjectOf(c)["iat"] == Num(c.iat)
    ensures c.amr != [] ==> ObjectOf(c)["amr"] == Arr(Strs(c.amr))
  {
    FieldNames();
  }

  lemma BaseMembers(re: Reencoder, c: Claims, extra: Object)
    requires Normal(c)
    ensures forall k :: k in BaseOf(re, c, extra) <==> k in c.text || k == "exp" || k == "iat" || (k == "amr" && c.amr != [])
    ensures forall k :: k in c.text ==> BaseOf(re, c, extra)[k] == Str(c.text[k])
    ensures BaseOf(re, c, extra)["exp"] == Num(Carried(re, extra, c.exp)) && BaseOf(re, c, extra)["iat"] == Num(Carried(re, extra, c.iat))
    ensures c.amr != [] ==> BaseOf(re, c, extra)["amr"] == Arr(Strs(c.amr))
  {
    ObjectMembers(c);
    AgainStrs(re, c.amr);
  }

  lemma FieldOrderIsComplete()
    ensures forall k :: k in CLAIM_FIELDS ==> k in FIELD_ORDER
    ensures forall k :: k in FIELD_ORDER ==> k in CLAIM_FIELDS
  {
    forall k | k in CLAIM_FIELDS ensures k in FIELD_ORDER {
      assert FIELD_ORDER[0] == "sub" && FIELD_ORDER[1] == "iss" && FIELD_ORDER[2] == "aud" && FIELD_ORDER[3] == "exp" && FIELD_ORDER[4] == "iat"
        && FIELD_ORDER[5] == "jti" && FIELD_ORDER[6] == "tenant_id" && FIELD_ORDER[7] == "scope" && FIELD_ORDER[8] == "session_id"
        && FIELD_ORDER[9] == "nonce" && FIELD_ORDER[10] == "acr" && FIELD_ORDER[11] == "amr";
    }
  }

  lemma FieldOrderIsDistinct()
    ensures forall i, j :: 0 <= i < j < |FIELD_ORDER| ==> FIELD_ORDER[i] != FIELD_ORDER[j]
  {
  }

  /** The payload spells the encoded claims and the extras, which do not overlap. */
  lemma PayloadSpells(re: Reencoder, c: Claims, extra: Object)
    requires Normal(c) && Payload(re, c, extra).Some?
    ensures BaseOf(re, c, extra).Keys !! extra.Keys
    ensures var o := BaseOf(re, c, extra) + extra; Spells(Payload(re, c, extra).value, o.Keys, o)
    ensures FoldOrdered(Payload(re, c, extra).value)
  {
    var o := BaseOf(re, c, extra) + extra;
    if extra == map[] {
      assert o == ObjectOf(c);
      ObjectNames(c);
      PlainPayloadSpells(o);
    } else {
      assert BaseOf(re, c, extra).Keys == ObjectOf(c).Keys;
      assert Extended(re, c, extra).value == o;
      SortedSpells(o);
      SortedAscends(o);
    }
  }

  lemma PlainPayloadSpells(o: Object)
    requires forall k :: k in o ==> k in CLAIM_FIELDS
    ensures Spells(Declared(FIELD_ORDER, o), o.Keys, o) && FoldOrdered(Declared(FIELD_ORDER, o))
  {
    FieldOrderIsDistinct();
    DeclaredSpells(FIELD_ORDER, o);
    DeclaresAll(o);
    FieldsDoNotClash(Declared(FIELD_ORDER, o), o);
  }

  lemma DeclaresAll(o: Object)
    requires forall k :: k in o ==> k in CLAIM_FIELDS
    ensures (set k | k in FIELD_ORDER && k in o) == o.Keys
  {
    FieldOrderIsComplete();
  }

  lemma FieldsDoNotClash(doc: Doc, o: Object)
    requires Spells(doc, o.Keys, o) && forall k :: k in o ==> k in CLAIM_FIELDS
    ensures FoldOrdered(doc)
  {
    FieldsFold();
    forall i | 0 <= i < |doc| ensures Fold(doc[i].name) == doc[i].name {
      assert doc[i].name in CLAIM_FIELDS;
    }
  }

  lemma ObjectNames(c: Claims)
    requires Normal(c)
    ensures forall k :: k in ObjectOf(c) ==> k in CLAIM_FIELDS
  {
    ObjectMembers(c);
  }

  // ---- When the claims come back ----

  /** A non-null extra that the reader takes a text claim from: it sorts after the claim's own member, if there is one,
      and after every other such extra. */
  predicate Overrides(present: bool, extra: Object, n: string) {
    && n in extra && !extra[n].Null? && (present ==> StrLess(Fold(n), n))
    && forall m :: m in extra && m != n && Fold(m) == Fold(n) && !extra[m].Null? ==> StrLess(m, n)
  }

  /** The last extra that names the list claim. */
  predicate EndsList(extra: Object, k: string, n: string) {
    n in extra && Fold(n) == k && forall m :: m in extra && m != n && Fold(m) == k ==> StrLess(m, n)
  }

  predicate TextKept(c: Claims, extra: Object, k: string) {
    forall n :: n in extra && Fold(n) == k && Overrides(k in c.text, extra, n) ==> extra[n] == Str(TextOf(c, k))
  }

  predicate ListKept(c: Claims, extra: Object) {
    c.amr == [] ==> forall n :: n in extra && EndsList(extra, "amr", n) ==> extra[n].Null? || extra[n] == Arr([])
  }

  predicate AllFit(extra: Object) {
    forall n :: n in extra ==> Fits(n, extra[n])
  }

  predicate NumberKept(re: Reencoder, extra: Object, n: int) {
    Int64(n) && Carried(re, extra, n) == n
  }

  /** What must hold of claims and extras for the claims to come back: every extra that names a claim, in any spelling,
      fits its type; those the reader takes a claim from repeat it; and with extras both times survive a float. */
  predicate Undisturbed(re: Reencoder, c: Claims, extra: Object) {
    && AllFit(extra) && NumberKept(re, extra, c.exp) && NumberKept(re, extra, c.iat)
    && (forall k :: k in TEXT_FIELDS ==> TextKept(c, extra, k)) && ListKept(c, extra)
  }

  /** A document that spells the members of two disjoint objects, the first under plain claim names. */
  ghost predicate Joins(doc: Doc, base: Object, extra: Object) {
    && base.Keys !! extra.Keys && Spells(doc, (base + extra).Keys, base + extra) && FoldOrdered(doc)
    && forall k :: k in base ==> Fold(k) == k
  }

  lemma MemberAt(doc: Doc, base: Object, extra: Object, n: string) returns (i: nat)
    requires Joins(doc, base, extra) && (n in extra || n in base)
    ensures i < |doc| && doc[i] == Member(n, if n in extra then extra[n] else base[n])
  {
    assert n in base + extra;
    i :| 0 <= i < |doc| && doc[i].name == n;
  }

  predicate TextsOnly(o: Object, k: string) {
    forall n :: n in o && Fold(n) == k ==> o[n].Null? || o[n].Str?
  }

  /** The member a text claim is read from is the claim's own or the overriding extra. */
  lemma LastOverrides(doc: Doc, base: Object, extra: Object, k: string, i: nat)
    requires Joins(doc, base, extra) && TextsOnly(extra, k) && (k in base ==> base[k].Str?)
    requires i < |doc| && SetsText(doc[i], k) && forall j :: i < j < |doc| ==> !SetsText(doc[j], k)
    ensures doc[i].name !in extra ==> k in base && doc[i] == Member(k, base[k])
    ensures doc[i].name in extra ==> Overrides(k in base, extra, doc[i].name) && extra[doc[i].name] == doc[i].value
  {
    var n := doc[i].name;
    if n in extra {
      if k in base {
        var p := MemberAt(doc, base, extra, k);
        assert SetsText(doc[p], k);
      }
      forall m | m in extra && m != n && Fold(m) == k && !extra[m].Null? ensures StrLess(m, n) {
        var j := MemberAt(doc, base, extra, m);
        assert SetsText(doc[j], k);
      }
    }
  }

  lemma OverridesIsLast(doc: Doc, base: Object, extra: Object, k: string, i: int, n: string)
    requires Joins(doc, base, extra) && TextsOnly(extra, k) && (k in base ==> base[k].Str?)
    requires -1 <= i < |doc| && (0 <= i ==> SetsText(doc[i], k)) && forall j :: i < j < |doc| ==> !SetsText(doc[j], k)
    requires n in extra && Fold(n) == k && Overrides(k in base, extra, n)
    ensures 0 <= i && doc[i] == Member(n, extra[n])
  {
    var j := MemberAt(doc, base, extra, n);
    assert SetsText(doc[j], k);
    if i != j {
      LastOverrides(doc, base, extra, k, i);
      StrLessTotal(n, doc[i].name);
    }
  }

  /** One text claim. */
  lemma TextReads(doc: Doc, base: Object, extra: Object, k: string, t: string)
    requires Joins(doc, base, extra) && TextsOnly(extra, k) && (k in base ==> base[k] == Str(t)) && (k !in base ==> t == "")
    ensures TextIn(doc, k) == t <==> forall n :: n in extra && Fold(n) == k && Overrides(k in base, extra, n) ==> extra[n] == Str(t)
  {
    var i := LastText(doc, k);
    LastTextReads(doc, k);
    forall n | n in extra && Fold(n) == k && Overrides(k in base, extra, n) ensures 0 <= i && doc[i] == Member(n, extra[n]) {
      OverridesIsLast(doc, base, extra, k, i, n);
    }
    if 0 <= i {
      LastOverrides(doc, base, extra, k, i);
    } else if k in base {
      var p := MemberAt(doc, base, extra, k);
      assert SetsText(doc[p], k);
    }
  }

  /** A number: every other spelling of its name sorts before the claim's own member. */
  lemma NumberReads(doc: Doc, base: Object, extra: Object, k: string)
    requires Joins(doc, base, extra) && NoSpecialLetter(k) && k in base && base[k].Num?
    ensures NumIn(doc, k) == base[k].n
  {
    var p := MemberAt(doc, base, extra, k);
    forall j | p < j < |doc| ensures !SetsNum(doc[j], k) {
      if Fold(doc[j].name) == k {
        CapitalsSortFirst(doc[j].name, k);
        StrLessTotal(doc[j].name, k);
      }
    }
    LastNumReads(doc, k, p);
  }

  predicate ListsOnly(o: Object, k: string) {
    forall n :: n in o && Fold(n) == k ==> o[n].Null? || o[n].Arr?
  }

  /** The list claim, when it has a member of its own. */
  lemma ListReads(doc: Doc, base: Object, extra: Object, k: string, xs: seq<string>)
    requires Joins(doc, base, extra) && ListsOnly(extra, k) && NoSpecialLetter(k) && k in base && base[k] == Arr(Strs(xs))
    ensures ListIn(doc, k) == xs
  {
    LastListReads(doc, k);
    var i := LastList(doc, k);
    var p := MemberAt(doc, base, extra, k);
    if i != p {
      CapitalsSortFirst(doc[i].name, k);
      StrLessTotal(doc[i].name, k);
    }
  }

  /** The list claim, when it is omitted. */
  lemma OmittedListReads(doc: Doc, base: Object, extra: Object, k: string)
    requires Joins(doc, base, extra) && ListsOnly(extra, k) && k !in base
    ensures ListIn(doc, k) == [] <==> forall n :: n in extra && EndsList(extra, k, n) ==> extra[n].Null? || extra[n] == Arr([])
  {
    LastListReads(doc, k);
    var i := LastList(doc, k);
    forall m | m in extra && Fold(m) == k ensures 0 <= i && (m == doc[i].name || StrLess(m, doc[i].name)) {
      var j := MemberAt(doc, base, extra, m);
    }
    forall n | n in extra && EndsList(extra, k, n) ensures doc[i] == Member(n, extra[n]) {
      StrLessTotal(n, doc[i].name);
    }
    if 0 <= i {
      assert EndsList(extra, k, doc[i].name);
    }
  }

  lemma PayloadJoins(re: Reencoder, c: Claims, extra: Object)
    requires Normal(c) && Payload(re, c, extra).Some?
    ensures Joins(Payload(re, c, extra).value, BaseOf(re, c, extra), extra)
  {
    PayloadSpells(re, c, extra);
    BaseNames(re, c, extra);
    FieldsFold();
  }

  lemma BaseNames(re: Reencoder, c: Claims, extra: Object)
    requires Normal(c)
    ensures forall k :: k in BaseOf(re, c, extra) ==> k in CLAIM_FIELDS
  {
    BaseMembers(re, c, extra);
  }

  lemma BaseFits(re: Reencoder, c: Claims, extra: Object, n: string)
    requires Normal(c) && n in BaseOf(re, c, extra)
    ensures Fits(n, BaseOf(re, c, extra)[n]) <==>
            (n == "exp" ==> Int64(Carried(re, extra, c.exp))) && (n == "iat" ==> Int64(Carried(re, extra, c.iat)))
  {
    BaseMembers(re, c, extra);
    FieldNames();
    FieldsFold();
  }

  lemma JoinsFit(doc: Doc, base: Object, extra: Object)
    requires Joins(doc, base, extra)
    ensures WellTyped(doc) <==> AllFit(base) && AllFit(extra)
  {
    forall n | n in extra || n in base
      ensures exists i :: 0 <= i < |doc| && doc[i] == Member(n, if n in extra then extra[n] else base[n])
    {
      var i := MemberAt(doc, base, extra, n);
    }
  }

  lemma TypesFit(re: Reencoder, c: Claims, extra: Object)
    requires Normal(c) && Payload(re, c, extra).Some?
    ensures WellTyped(Payload(re, c, extra).value) <==>
            AllFit(extra) && Int64(Carried(re, extra, c.exp)) && Int64(Carried(re, extra, c.iat))
  {
    var base := BaseOf(re, c, extra);
    PayloadJoins(re, c, extra);
    JoinsFit(Payload(re, c, extra).value, base, extra);
    forall n | n in base
      ensures Fits(n, base[n]) <==> (n == "exp" ==> Int64(Carried(re, extra, c.exp))) && (n == "iat" ==> Int64(Carried(re, extra, c.iat)))
    {
      BaseFits(re, c, extra, n);
    }
    TimesArePresent(re, c, extra);
  }

  lemma TimesArePresent(re: Reencoder, c: Claims, extra: Object)
    ensures "exp" in BaseOf(re, c, extra) && "iat" in BaseOf(re, c, extra)
  {
    assert "exp" in ObjectOf(c) && "iat" in ObjectOf(c);
  }

  lemma TextsAreKept(re: Reencoder, c: Claims, extra: Object, k: string)
    requires Normal(c) && Payload(re, c, extra).Some? && AllFit(extra) && k in TEXT_FIELDS
    ensures TextIn(Payload(re, c, extra).value, k) == TextOf(c, k) <==> TextKept(c, extra, k)
  {
    PayloadJoins(re, c, extra);
    BaseMembers(re, c, extra);
    FieldNames();
    TextReads(Payload(re, c, extra).value, BaseOf(re, c, extra), extra, k, TextOf(c, k));
  }

  lemma NumbersAreCarried(re: Reencoder, c: Claims, extra: Object)
    requires Normal(c) && Payload(re, c, extra).Some?
    ensures NumIn(Payload(re, c, extra).value, "exp") == Carried(re, extra, c.exp)
    ensures NumIn(Payload(re, c, extra).value, "iat") == Carried(re, extra, c.iat)
  {
    PayloadJoins(re, c, extra);
    BaseMembers(re, c, extra);
    FieldNames();
    NumberReads(Payload(re, c, extra).value, BaseOf(re, c, extra), extra, "exp");
    NumberReads(Payload(re, c, extra).value, BaseOf(re, c, extra), extra, "iat");
  }

  lemma ListIsKept(re: Reencoder, c: Claims, extra: Object)
    requires Normal(c) && Payload(re, c, extra).Some? && AllFit(extra)
    ensures ListIn(Payload(re, c, extra).value, "amr") == c.amr <==> ListKept(c, extra)
  {
    PayloadJoins(re, c, extra);
    BaseMembers(re, c, extra);
    FieldNames();
    if c.amr == [] {
      OmittedListReads(Payload(re, c, extra).value, BaseOf(re, c, extra), extra, "amr");
    } else {
      ListReads(Payload(re, c, extra).value, BaseOf(re, c, extra), extra, "amr", c.amr);
    }
  }

  /** Reading the payload gives back the claims if and only if they are undisturbed. */
  lemma ExtrasLeaveClaims(re: Reencoder, c: Claims, extra: Object)
    requires Normal(c) && Payload(re, c, extra).Some?
    ensures ReadClaims(Payload(re, c, extra).value) == Some(c) <==> Undisturbed(re, c, extra)
  {
    var doc := Payload(re, c, extra).value;
    TypesFit(re, c, extra);
    if WellTyped(doc) {
      NumbersAreCarried(re, c, extra);
      ReadsAs(doc, c);
      ListIsKept(re, c, extra);
      forall k | k in TEXT_FIELDS ensures TextIn(doc, k) == TextOf(c, k) <==> TextKept(c, extra, k) {
        TextsAreKept(re, c, extra, k);
      }
    }
  }

  predicate Foreign(extra: Object) {
    forall n :: n in extra ==> Fold(n) !in CLAIM_FIELDS
  }

  lemma ForeignFits(n: string, v: JSON)
    requires Fold(n) !in CLAIM_FIELDS
    ensures Fits(n, v)
  {
  }

  lemma ForeignExtrasJoin(re: Reencoder, c: Claims, extra: Object)
    requires Normal(c) && Foreign(extra)
    ensures Payload(re, c, extra).Some? && AllFit(extra)
  {
    ObjectNames(c);
    FieldsFold();
    forall n | n in extra ensures Fits(n, extra[n]) && n !in ObjectOf(c) {
      ForeignFits(n, extra[n]);
    }
  }

  lemma ForeignTextKept(c: Claims, extra: Object, k: string)
    requires Foreign(extra) && k in CLAIM_FIELDS
    ensures TextKept(c, extra, k) && (k == "amr" ==> ListKept(c, extra))
  {
  }

  /** Extras that name no claim in any spelling leave the text and list claims alone, and all claims if the times
      survive. */
  lemma ForeignExtrasLeaveClaims(re: Reencoder, c: Claims, extra: Object)
    requires Normal(c) && Foreign(extra)
    ensures Payload(re, c, extra).Some?
    ensures ReadClaims(Payload(re, c, extra).value).Some? ==> ReadClaims(Payload(re, c, extra).value).value.text == c.text
    ensures Undisturbed(re, c, extra) <==> NumberKept(re, extra, c.exp) && NumberKept(re, extra, c.iat)
  {
    ForeignExtrasJoin(re, c, extra);
    FieldNames();
    ForeignTextKept(c, extra, "amr");
    forall k | k in TEXT_FIELDS ensures TextKept(c, extra, k) {
      ForeignTextKept(c, extra, k);
    }
    ForeignTextReads(re, c, extra);
  }

  lemma ForeignTextReads(re: Reencoder, c: Claims, extra: Object)
    requires Normal(c) && Foreign(extra) && Payload(re, c, extra).Some? && AllFit(extra)
    ensures ReadClaims(Payload(re, c, extra).value).Some? ==> ReadClaims(Payload(re, c, extra).value).value.text == c.text
  {
    if WellTyped(Payload(re, c, extra).value) {
      ReadsAs(Payload(re, c, extra).value, c);
      forall k | k in TEXT_FIELDS ensures TextIn(Payload(re, c, extra).value, k) == TextOf(c, k) {
        TextsAreKept(re, c, extra, k);
        ForeignTextKept(c, extra, k);
      }
    }
  }

  /** The untyped reading returns every extra under its exact name. */
  lemma ExtrasComeBack(re: Reencoder, c: Claims, extra: Object, n: string)
    requires Normal(c) && Payload(re, c, extra).Some? && n in extra
    ensures n in RawOf(re, Payload(re, c, extra).value) && RawOf(re, Payload(re, c, extra).value)[n] == Again(re, extra[n])
  {
    PayloadJoins(re, c, extra);
    var doc := Payload(re, c, extra).value;
    var i := MemberAt(doc, BaseOf(re, c, extra), extra, n);
    RawAt(re, doc, i);
  }

  lemma {:induction false} RawAt(re: Reencoder, doc: Doc, i: nat)
    requires i < |doc| && forall j :: i < j < |doc| ==> doc[j].name != doc[i].name
    ensures doc[i].name in RawOf(re, doc) && RawOf(re, doc)[doc[i].name] == Again(re, doc[i].value)
  {
    if i < |doc| - 1 {
      RawAt(re, doc[..|doc| - 1], i);
    }
  }

  // ---- Extras that do change a claim ----

  /** The claim is read from the extra that overrides it. */
  lemma OverridingExtraIsRead(re: Reencoder, c: Claims, extra: Object, n: string)
    requires Normal(c) && Payload(re, c, extra).Some? && AllFit(extra)
    requires n in extra && Fold(n) in TEXT_FIELDS && Overrides(Fold(n) in c.text, extra, n)
    ensures TextIn(Payload(re, c, extra).value, Fold(n)) == extra[n].s
  {
    var doc, base, k := Payload(re, c, extra).value, BaseOf(re, c, extra), Fold(n);
    PayloadJoins(re, c, extra);
    BaseMembers(re, c, extra);
    FieldNames();
    LastTextReads(doc, k);
    OverridesIsLast(doc, base, extra, k, LastText(doc, k), n);
  }

  /** The collision test compares exact names: an omitted claim's name passes it, in any spelling, */
  lemma OmittedNameJoins(re: Reencoder, c: Claims, name: string, x: string)
    requires Normal(c) && "nonce" !in c.text && Fold(name) == "nonce"
    ensures var extra: Object := map[name := Str(x)]; Payload(re, c, extra).Some? && AllFit(extra) && Overrides(false, extra, name)
    ensures "nonce" in TEXT_FIELDS
  {
    ObjectMembers(c);
    FieldsFold();
    FieldNames();
    assert name in ObjectOf(c) ==> name in CLAIM_FIELDS && name == "nonce";
  }

  /** so a capital fills the claim, */
  lemma CapitalFillsOmittedClaim(re: Reencoder, c: Claims, x: string)
    requires Normal(c) && "nonce" !in c.text
    ensures var p := Payload(re, c, map["Nonce" := Str(x)]); p.Some? && TextIn(p.value, "nonce") == x
  {
    assert Fold("Nonce") == "nonce";
    OmittedNameJoins(re, c, "Nonce", x);
    OverridingExtraIsRead(re, c, map["Nonce" := Str(x)], "Nonce");
  }

  /** a long s even replaces the subject, */
  lemma LongSReplacesSubject(re: Reencoder, c: Claims, x: string)
    requires Normal(c)
    ensures var p := Payload(re, c, map["\U{17F}ub" := Str(x)]); p.Some? && TextIn(p.value, "sub") == x
  {
    var n := "\U{17F}ub";
    var extra: Object := map[n := Str(x)];
    assert Fold(n) == "sub" && n !in CLAIM_FIELDS && StrLess("sub", n);
    ObjectNames(c);
    assert AllFit(extra);
    OverridingExtraIsRead(re, c, extra, n);
  }

  /** a value of the wrong type makes the payload unreadable, */
  lemma MistypedExtraIsUnreadable(re: Reencoder, c: Claims)
    requires Normal(c)
    ensures var p := Payload(re, c, map["AMR" := Num(5)]); p.Some? && ReadClaims(p.value) == None
  {
    var extra: Object := map["AMR" := Num(5)];
    assert Fold("AMR") == "amr" && "AMR" !in CLAIM_FIELDS;
    ObjectNames(c);
    TypesFit(re, c, extra);
    assert !Fits("AMR", extra["AMR"]);
  }

  /** and with any extra at all a time beyond 2^53 may come back as another. */
  lemma LargeTimeIsRounded(re: Reencoder, c: Claims, extra: Object)
    requires Normal(c) && Floats(re) && extra != map[] && c.exp == TWO53 + 1 && Payload(re, c, extra).Some?
    ensures NumIn(Payload(re, c, extra).value, "exp") == TWO53
  {
    NumbersAreCarried(re, c, extra);
  }
}
