/** RS256 tokens and key sets (pkg/jwtx/jwtx.go). */
module Jwt {
  import opened Common
  import opened ClaimSets

  const LEEWAY: int := 30 * SECOND

  type Byte = x: int | 0 <= x < 256

  // ---- Exponents ----

  /** The number a big-endian byte string stands for. */
  function ValueOf(bs: seq<Byte>): nat {
    if bs == [] then 0 else 256 * ValueOf(bs[..|bs| - 1]) + bs[|bs| - 1]
  }

  /** The `k` low bytes of `n`, most significant first. */
  function BigEndian(n: nat, k: nat): (bs: seq<Byte>)
    ensures |bs| == k
  {
    if k == 0 then [] else BigEndian(n / 256, k - 1) + [n % 256]
  }

  function Pow256(k: nat): nat {
    if k == 0 then 1 else 256 * Pow256(k - 1)
  }

  lemma {:induction false} BigEndianValue(n: nat, k: nat)
    requires n < Pow256(k)
    ensures ValueOf(BigEndian(n, k)) == n
  {
    if k > 0 {
      BigEndianValue(n / 256, k - 1);
      assert BigEndian(n, k)[..k - 1] == BigEndian(n / 256, k - 1);
    }
  }

  lemma {:induction false} LeadingZeros(bs: seq<Byte>, i: nat)
    requires i <= |bs| && forall j :: 0 <= j < i ==> bs[j] == 0
    ensures ValueOf(bs[i..]) == ValueOf(bs)
  {
    if i == |bs| {
      AllZeros(bs);
    } else {
      assert bs[i..][..|bs[i..]| - 1] == bs[..|bs| - 1][i..];
      LeadingZeros(bs[..|bs| - 1], i);
    }
  }

  lemma {:induction false} AllZeros(bs: seq<Byte>)
    requires forall j :: 0 <= j < |bs| ==> bs[j] == 0
    ensures ValueOf(bs) == 0
  {
    if bs != [] {
      AllZeros(bs[..|bs| - 1]);
    }
  }

  /** The exponent as a byte string: its value is the 64-bit pattern of `e`, and no leading byte could be dropped. */
  method BigEndianExponent(e: int) returns (bs: seq<Byte>)
    requires -TWO63 <= e < TWO63
    ensures 1 <= |bs| <= 8 && ValueOf(bs) == e % TWO64
    ensures |bs| > 1 ==> bs[0] != 0
  {
    var buf := BigEndian(e % TWO64, 8);
    assert Pow256(8) == TWO64;
    BigEndianValue(e % TWO64, 8);
    var i := 0;
    while i < 7 && buf[i] == 0
      invariant 0 <= i <= 7 && forall j :: 0 <= j < i ==> buf[j] == 0
    {
      i := i + 1;
    }
    LeadingZeros(buf, i);
    bs := buf[i..];
  }

  /** Accumulates the bytes in a 64-bit signed integer, wrapping as shifts do. */
  method DecodeExponent(bs: seq<Byte>) returns (e: int)
    ensures e == Signed64(ValueOf(bs))
  {
    e := 0;
    for i := 0 to |bs|
      invariant e == Signed64(ValueOf(bs[..i]))
    {
      assert bs[..i + 1][..i] == bs[..i];
      ShiftIn(ValueOf(bs[..i]), bs[i]);
      e := Signed64(e * 256 + bs[i]);
    }
    assert bs[..|bs|] == bs;
  }

  lemma ShiftIn(n: int, b: int)
    ensures Signed64(Signed64(n) * 256 + b) == Signed64(n * 256 + b)
  {
  }

  // ---- Keys, signing and verification ----

  datatype PublicKey = PublicKey(n: nat, e: int)

  datatype PrivateKey = PrivateKey(pub: PublicKey, secret: int)

  datatype JWK = JWK(kty: string, use: string, alg: string, kid: string, n: string, e: string)

  datatype Header = Header(alg: string, typ: string, kid: string)

  /** The library functions underneath: base64url, big-integer bytes, JSON, RSA signatures and key thumbprints. */
  datatype Library = Library(
    b64: seq<Byte> -> string, unb64: string -> Option<seq<Byte>>,
    natBytes: nat -> seq<Byte>,
    writeHeader: Header -> seq<Byte>, readHeader: seq<Byte> -> Option<Header>,
    writeDoc: Doc -> seq<Byte>, readDoc: seq<Byte> -> Option<Doc>, numbers: Reencoder,
    sign: (PrivateKey, string) -> seq<Byte>, checks: (PublicKey, string, seq<Byte>) -> bool,
    keyID: PublicKey -> string)

  /** Each decoder undoes its encoder, base64url never produces a dot and only of nothing nothing, a header is not empty,
      and a key's signature checks under it. */
  ghost predicate Lawful(lib: Library) {
    && (forall b :: lib.unb64(lib.b64(b)) == Some(b) && '.' !in lib.b64(b) && (lib.b64(b) == "" ==> b == []))
    && (forall n :: ValueOf(lib.natBytes(n)) == n)
    && (forall h :: lib.readHeader(lib.writeHeader(h)) == Some(h) && lib.writeHeader(h) != [])
    && (forall d :: lib.readDoc(lib.writeDoc(d)) == Some(d))
    && Floats(lib.numbers)
    && (forall k: PrivateKey, m: string :: lib.checks(k.pub, m, lib.sign(k, m)))
  }

  method NewJWK(lib: Library, pub: PublicKey) returns (k: JWK)
    requires -TWO63 <= pub.e < TWO63
    ensures k.kty == "RSA" && k.use == "sig" && k.alg == "RS256"
    ensures k.kid == lib.keyID(pub) && k.n == lib.b64(lib.natBytes(pub.n))
    ensures exists bs :: k.e == lib.b64(bs) && ValueOf(bs) == pub.e % TWO64 && 1 <= |bs| <= 8 && (|bs| > 1 ==> bs[0] != 0)
  {
    var bs := BigEndianExponent(pub.e);
    k := JWK("RSA", "sig", "RS256", lib.keyID(pub), lib.b64(lib.natBytes(pub.n)), lib.b64(bs));
  }

  function PublicKeyOf(lib: Library, k: JWK): Option<PublicKey> {
    var n, e := lib.unb64(k.n), lib.unb64(k.e);
    if n.None? || e.None? || Signed64(ValueOf(e.value)) <= 1 then None
    else Some(PublicKey(ValueOf(n.value), Signed64(ValueOf(e.value))))
  }

  method DecodeKey(lib: Library, k: JWK) returns (pub: Option<PublicKey>)
    ensures pub == PublicKeyOf(lib, k)
  {
    var n := lib.unb64(k.n);
    if n.None? {
      return None;
    }
    var eBytes := lib.unb64(k.e);
    if eBytes.None? {
      return None;
    }
    var e := DecodeExponent(eBytes.value);
    if e <= 1 {
      return None;
    }
    return Some(PublicKey(ValueOf(n.value), e));
  }

  /** Some key is RSA, and every RSA key decodes. */
  predicate Usable(lib: Library, set': seq<JWK>) {
    && (exists i :: 0 <= i < |set'| && set'[i].kty == "RSA")
    && (forall i :: 0 <= i < |set'| && set'[i].kty == "RSA" ==> PublicKeyOf(lib, set'[i]).Some?)
  }

  /** A verifier for a key set: non-RSA keys are skipped, any bad RSA key or an empty result is an error. */
  method NewVerifierFromJWKS(lib: Library, set': seq<JWK>) returns (keys: Option<map<string, PublicKey>>)
    ensures keys.Some? ==> keys.value != map[] && forall kid :: kid in keys.value ==>
              exists i :: 0 <= i < |set'| && set'[i].kty == "RSA" && set'[i].kid == kid && PublicKeyOf(lib, set'[i]) == Some(keys.value[kid])
    ensures keys.Some? ==> forall i :: 0 <= i < |set'| && set'[i].kty == "RSA" ==> set'[i].kid in keys.value && PublicKeyOf(lib, set'[i]).Some?
    ensures keys.Some? <==> Usable(lib, set')
  {
    var m: map<string, PublicKey> := map[];
    for i := 0 to |set'|
      invariant forall kid :: kid in m ==>
                  exists j :: 0 <= j < i && set'[j].kty == "RSA" && set'[j].kid == kid && PublicKeyOf(lib, set'[j]) == Some(m[kid])
      invariant forall j :: 0 <= j < i && set'[j].kty == "RSA" ==> set'[j].kid in m && PublicKeyOf(lib, set'[j]).Some?
    {
      if set'[i].kty == "RSA" {
        var pub := DecodeKey(lib, set'[i]);
        if pub.None? {
          return None;
        }
        m := m[set'[i].kid := pub.value];
      }
    }
    return if m == map[] then None else Some(m);
  }

  /** The published form of a key is read back as the same key, for every exponent above 1 that fits a non-negative
      64-bit int; an exponent of 1 or less is refused. */
  lemma KeyRoundTrip(lib: Library, pub: PublicKey, k: JWK, bs: seq<Byte>)
    requires Lawful(lib) && 0 <= pub.e < TWO63
    requires k.n == lib.b64(lib.natBytes(pub.n)) && k.e == lib.b64(bs) && ValueOf(bs) == pub.e % TWO64
    ensures PublicKeyOf(lib, k) == if pub.e > 1 then Some(pub) else None
  {
  }

  /** A verifier built from a signer's own published key set holds exactly the signer's key under its key id. */
  method VerifierOfSigner(lib: Library, key: PrivateKey) returns (keys: Option<map<string, PublicKey>>)
    requires Lawful(lib) && 0 <= key.pub.e < TWO63
    ensures keys == if key.pub.e > 1 then Some(map[lib.keyID(key.pub) := key.pub]) else None
  {
    var k := NewJWK(lib, key.pub);
    ghost var bs :| k.e == lib.b64(bs) && ValueOf(bs) == key.pub.e % TWO64;
    KeyRoundTrip(lib, key.pub, k, bs);
    keys := NewVerifierFromJWKS(lib, [k]);
    assert [k][0] == k;
    if keys.Some? {
      assert k.kid in keys.value && forall kid :: kid in keys.value ==> kid == k.kid && Some(keys.value[kid]) == PublicKeyOf(lib, k);
      assert keys.value == map[k.kid := key.pub];
    }
  }

  /** The pieces between dots. */
  function Split(s: string): (parts: seq<string>)
    ensures |parts| >= 1
  {
    if s == "" then [""]
    else
      var rest := Split(s[1..]);
      if s[0] == '.' then [""] + rest else [[s[0]] + rest[0]] + rest[1..]
  }

  lemma {:induction false} SplitPiece(a: string, rest: string)
    requires '.' !in a
    ensures Split(a + "." + rest) == [a] + Split(rest)
  {
    if a == "" {
      assert a + "." + rest == "." + rest && ("." + rest)[1..] == rest;
    } else {
      assert (a + "." + rest)[1..] == a[1..] + "." + rest;
      SplitPiece(a[1..], rest);
      assert [a[0]] + a[1..] == a;
    }
  }

  lemma {:induction false} SplitLast(a: string)
    requires '.' !in a
    ensures Split(a) == [a]
  {
    if a != "" {
      SplitLast(a[1..]);
      assert [a[0]] + a[1..] == a;
    }
  }

  function SigningInput(lib: Library, key: PrivateKey, payload: Doc, typ: string): string {
    var header := Header("RS256", if typ == "" then "JWT" else typ, lib.keyID(key.pub));
    lib.b64(lib.writeHeader(header)) + "." + lib.b64(lib.writeDoc(payload))
  }

  function SignTyped(lib: Library, key: PrivateKey, c: Claims, extra: Object, typ: string): Option<string> {
    var payload := Payload(lib.numbers, c, extra);
    if payload.None? then None
    else
      var input := SigningInput(lib, key, payload.value, typ);
      Some(input + "." + lib.b64(lib.sign(key, input)))
  }

  datatype Reason = Malformed | Algorithm | UnknownKey | Signature | Expired | NotYetValid | Issuer

  datatype Result = Accepted(claims: Claims, raw: Object) | Refused(reason: Reason)

  /** Structure, algorithm, key, signature, payload, time window with leeway, issuer: in this order. An empty expected
      issuer disables the last check, a zero exp or iat its side of the window. */
  function Verify(lib: Library, keys: map<string, PublicKey>, issuer: string, token: string, now: int): Result {
    var parts := Split(token);
    if |parts| != 3 then Refused(Malformed)
    else
      var headerBytes := lib.unb64(parts[0]);
      var header := if headerBytes.None? then None else lib.readHeader(headerBytes.value);
      if header.None? then Refused(Malformed)
      else if header.value.alg != "RS256" then Refused(Algorithm)
      else if header.value.kid !in keys then Refused(UnknownKey)
      else
        var sig := lib.unb64(parts[2]);
        if sig.None? then Refused(Malformed)
        else if !lib.checks(keys[header.value.kid], parts[0] + "." + parts[1], sig.value) then Refused(Signature)
        else
          var payload := lib.unb64(parts[1]);
          var doc := if payload.None? then None else lib.readDoc(payload.value);
          if doc.None? then Refused(Malformed) else CheckDoc(lib, doc.value, issuer, now)
  }

  function CheckDoc(lib: Library, doc: Doc, issuer: string, now: int): Result {
    var claims := ReadClaims(doc);
    if claims.None? then Refused(Malformed) else CheckWindow(claims.value, RawOf(lib.numbers, doc), issuer, now)
  }

  /** Seconds from the year 1, the origin of the clock's 64-bit second counter, to 1970; a time too far ahead wraps. */
  const YEAR_ONE: int := 62135596800
  const LAST_SECOND: int := TWO63 - 1 - YEAR_ONE

  function UnixTime(sec: int): int {
    (Signed64(sec + YEAR_ONE) - YEAR_ONE) * SECOND
  }

  /** When a token is no longer accepted: its expiry and the leeway, up to the end of the counter. */
  function Deadline(exp: int): int {
    Min(UnixTime(exp) + LEEWAY, LAST_SECOND * SECOND)
  }

  lemma UnixTimeIsExact(sec: int)
    requires Int64(sec)
    ensures UnixTime(sec) == sec * SECOND <==> sec <= LAST_SECOND
    ensures sec <= LAST_SECOND - 30 ==> Deadline(sec) == sec * SECOND + LEEWAY
    ensures sec > LAST_SECOND ==> UnixTime(sec) < 0
  {
  }

  function CheckWindow(c: Claims, raw: Object, issuer: string, now: int): Result {
    if c.exp != 0 && now > Deadline(c.exp) then Refused(Expired)
    else if c.iat != 0 && UnixTime(c.iat) > now + LEEWAY then Refused(NotYetValid)
    else if issuer != "" && TextOf(c, "iss") != issuer then Refused(Issuer)
    else Accepted(c, raw)
  }

  // ---- What acceptance means ----

  /** The token is a header, a payload and a signature; the header names RS256 and a known key, and the signature checks
      under that key over the other two parts as written. */
  predicate Authentic(lib: Library, keys: map<string, PublicKey>, token: string) {
    var parts := Split(token);
    && |parts| == 3
    && lib.unb64(parts[0]).Some? && lib.unb64(parts[2]).Some?
    && var header := lib.readHeader(lib.unb64(parts[0]).value);
       && header.Some? && header.value.alg == "RS256" && header.value.kid in keys
       && lib.checks(keys[header.value.kid], parts[0] + "." + parts[1], lib.unb64(parts[2]).value)
  }

  /** The payload of a token: its second part. */
  function DocOf(lib: Library, token: string): Option<Doc> {
    var parts := Split(token);
    if |parts| != 3 || lib.unb64(parts[1]).None? then None else lib.readDoc(lib.unb64(parts[1]).value)
  }

  predicate Timely(c: Claims, now: int) {
    (c.exp == 0 || now <= Deadline(c.exp)) && (c.iat == 0 || UnixTime(c.iat) - LEEWAY <= now)
  }

  /** Any token at all is accepted, with these claims, if and only if it is authentic, its payload reads as these claims,
      they are timely, and the issuer is the expected one. */
  lemma AcceptedIff(lib: Library, keys: map<string, PublicKey>, issuer: string, token: string, now: int, c: Claims, raw: Object)
    ensures Verify(lib, keys, issuer, token, now) == Accepted(c, raw) <==>
            && Authentic(lib, keys, token)
            && DocOf(lib, token).Some? && ReadClaims(DocOf(lib, token).value) == Some(c) && raw == RawOf(lib.numbers, DocOf(lib, token).value)
            && Timely(c, now) && (issuer == "" || TextOf(c, "iss") == issuer)
  {
  }

  /** What each refusal of an authentic token says, in the order of the checks; a token whose signature is reported does
      not check. */
  lemma RefusalReasons(lib: Library, keys: map<string, PublicKey>, issuer: string, token: string, now: int)
    ensures var r := Verify(lib, keys, issuer, token, now);
            && (r == Refused(Signature) || r == Refused(UnknownKey) || r == Refused(Algorithm) ==> !Authentic(lib, keys, token))
            && (Authentic(lib, keys, token) ==>
                  if DocOf(lib, token).None? || ReadClaims(DocOf(lib, token).value).None? then r == Refused(Malformed)
                  else
                    var c := ReadClaims(DocOf(lib, token).value).value;
                    && (r == Refused(Expired) <==> c.exp != 0 && Deadline(c.exp) < now)
                    && (r == Refused(NotYetValid) <==> (c.exp == 0 || now <= Deadline(c.exp)) && c.iat != 0 && now + LEEWAY < UnixTime(c.iat))
                    && (r == Refused(Issuer) <==> Timely(c, now) && issuer != "" && TextOf(c, "iss") != issuer))
  {
  }

  lemma {:induction false} PiecesHaveNoDots(s: string)
    ensures forall i :: 0 <= i < |Split(s)| ==> '.' !in Split(s)[i]
  {
    if s != "" {
      PiecesHaveNoDots(s[1..]);
    }
  }

  /** What a signer has put its name to. */
  datatype Issue = Issue(c: Claims, extra: Object, typ: string)

  /** `m` is what one of the issued tokens was signed over. */
  predicate SignedFor(lib: Library, key: PrivateKey, issued: set<Issue>, m: string) {
    exists i :: i in issued && Payload(lib.numbers, i.c, i.extra).Some? && m == SigningInput(lib, key, Payload(lib.numbers, i.c, i.extra).value, i.typ)
  }

  /** The token carries a signature that checks under the key over something its holder has not issued. */
  predicate Forged(lib: Library, key: PrivateKey, issued: set<Issue>, token: string) {
    var parts := Split(token);
    && |parts| == 3 && lib.unb64(parts[2]).Some? && lib.checks(key.pub, parts[0] + "." + parts[1], lib.unb64(parts[2]).value)
    && !SignedFor(lib, key, issued, parts[0] + "." + parts[1])
  }

  /** Whatever a verifier with that key accepts, from anywhere and at any time, has the payload and the claims of an
      issued token, unless its signature is forged. */
  lemma AcceptedWasIssued(lib: Library, key: PrivateKey, keys: map<string, PublicKey>, issued: set<Issue>, issuer: string, token: string, now: int)
    requires Lawful(lib) && (forall kid :: kid in keys ==> keys[kid] == key.pub) && !Forged(lib, key, issued, token)
    requires Verify(lib, keys, issuer, token, now).Accepted?
    ensures exists i :: i in issued && Payload(lib.numbers, i.c, i.extra).Some? && DocOf(lib, token) == Payload(lib.numbers, i.c, i.extra)
    ensures ReadClaims(DocOf(lib, token).value) == Some(Verify(lib, keys, issuer, token, now).claims)
  {
    var r := Verify(lib, keys, issuer, token, now);
    AcceptedIff(lib, keys, issuer, token, now, r.claims, r.raw);
    AuthenticWasIssued(lib, key, keys, issued, token);
  }

  lemma AuthenticWasIssued(lib: Library, key: PrivateKey, keys: map<string, PublicKey>, issued: set<Issue>, token: string)
    requires Lawful(lib) && (forall kid :: kid in keys ==> keys[kid] == key.pub) && !Forged(lib, key, issued, token)
    requires Authentic(lib, keys, token)
    ensures exists i :: i in issued && Payload(lib.numbers, i.c, i.extra).Some? && DocOf(lib, token) == Payload(lib.numbers, i.c, i.extra)
  {
    var parts := Split(token);
    var m := parts[0] + "." + parts[1];
    assert SignedFor(lib, key, issued, m);
    var i :| i in issued && Payload(lib.numbers, i.c, i.extra).Some? && m == SigningInput(lib, key, Payload(lib.numbers, i.c, i.extra).value, i.typ);
    InputReads(lib, key, Payload(lib.numbers, i.c, i.extra).value, i.typ, token);
  }

  /** Two parts that spell a signing input are its header and its payload. */
  lemma InputReads(lib: Library, key: PrivateKey, doc: Doc, typ: string, token: string)
    requires Lawful(lib) && |Split(token)| == 3 && Split(token)[0] + "." + Split(token)[1] == SigningInput(lib, key, doc, typ)
    ensures DocOf(lib, token) == Some(doc)
  {
    var parts := Split(token);
    var header := Header("RS256", if typ == "" then "JWT" else typ, lib.keyID(key.pub));
    PiecesHaveNoDots(token);
    SamePieces(parts[0], parts[1], lib.b64(lib.writeHeader(header)), lib.b64(lib.writeDoc(doc)));
    assert lib.unb64(parts[1]) == Some(lib.writeDoc(doc)) && lib.readDoc(lib.writeDoc(doc)) == Some(doc);
  }

  lemma SamePieces(a: string, b: string, c: string, d: string)
    requires '.' !in a && '.' !in b && '.' !in c && '.' !in d && a + "." + b == c + "." + d
    ensures a == c && b == d
  {
    SplitPiece(a, b);
    SplitPiece(c, d);
    SplitLast(b);
    SplitLast(d);
    assert [a] + [b] == [c] + [d];
    assert ([a] + [b])[0] == a && ([a] + [b])[1] == b;
  }

  function SignedHeader(lib: Library, key: PrivateKey, typ: string): Header {
    Header("RS256", if typ == "" then "JWT" else typ, lib.keyID(key.pub))
  }

  /** The parts of a signed token, and what they decode to. */
  lemma SignedParts(lib: Library, key: PrivateKey, c: Claims, extra: Object, typ: string)
    requires Lawful(lib) && SignTyped(lib, key, c, extra, typ).Some?
    ensures var parts := Split(SignTyped(lib, key, c, extra, typ).value);
            && |parts| == 3 && parts[0] != ""
            && lib.unb64(parts[0]).Some? && lib.readHeader(lib.unb64(parts[0]).value) == Some(SignedHeader(lib, key, typ))
            && lib.unb64(parts[1]).Some? && lib.readDoc(lib.unb64(parts[1]).value) == Payload(lib.numbers, c, extra)
            && lib.unb64(parts[2]).Some? && lib.checks(key.pub, parts[0] + "." + parts[1], lib.unb64(parts[2]).value)
  {
    var doc, header := Payload(lib.numbers, c, extra).value, SignedHeader(lib, key, typ);
    var a, b := lib.b64(lib.writeHeader(header)), lib.b64(lib.writeDoc(doc));
    var s := lib.b64(lib.sign(key, a + "." + b));
    var token := SignTyped(lib, key, c, extra, typ).value;
    assert token == a + "." + (b + "." + s);
    SplitPiece(a, b + "." + s);
    SplitPiece(b, s);
    SplitLast(s);
    assert Split(token) == [a, b, s];
    assert lib.unb64(a) == Some(lib.writeHeader(header)) && lib.readHeader(lib.writeHeader(header)) == Some(header);
    assert lib.unb64(b) == Some(lib.writeDoc(doc)) && lib.readDoc(lib.writeDoc(doc)) == Some(doc);
    assert lib.unb64(s) == Some(lib.sign(key, a + "." + b)) && lib.checks(key.pub, a + "." + b, lib.sign(key, a + "." + b));
  }

  /** Everything in a signed token but its payload verifies, under any key set that holds the key. */
  lemma SignedTokenReads(lib: Library, key: PrivateKey, keys: map<string, PublicKey>, issuer: string, c: Claims, extra: Object, typ: string, now: int)
    requires Lawful(lib) && SignTyped(lib, key, c, extra, typ).Some?
    requires lib.keyID(key.pub) in keys && keys[lib.keyID(key.pub)] == key.pub
    ensures Verify(lib, keys, issuer, SignTyped(lib, key, c, extra, typ).value, now)
            == CheckDoc(lib, Payload(lib.numbers, c, extra).value, issuer, now)
  {
    SignedParts(lib, key, c, extra, typ);
  }

  predicate InWindow(c: Claims, now: int) {
    UnixTime(c.iat) - LEEWAY <= now <= Deadline(c.exp)
  }

  /** Sign/verify round trip: with non-zero exp and iat and the expected issuer, a verifier holding the signer's key
      accepts the token and returns the same claims if and only if the extras leave the claims undisturbed and the
      clock is from iat - 30s to exp + 30s. Whenever it accepts, every extra is there. */
  lemma SignVerifyRoundTrip(lib: Library, key: PrivateKey, keys: map<string, PublicKey>, issuer: string, c: Claims, extra: Object, typ: string, now: int)
    requires Lawful(lib) && Normal(c) && SignTyped(lib, key, c, extra, typ).Some?
    requires lib.keyID(key.pub) in keys && keys[lib.keyID(key.pub)] == key.pub
    requires c.exp != 0 && c.iat != 0 && (issuer == "" || TextOf(c, "iss") == issuer)
    ensures var r := Verify(lib, keys, issuer, SignTyped(lib, key, c, extra, typ).value, now);
            && (r.Accepted? && r.claims == c <==> Undisturbed(lib.numbers, c, extra) && InWindow(c, now))
            && (Undisturbed(lib.numbers, c, extra) ==> (r.Accepted? <==> InWindow(c, now)))
            && (r.Accepted? ==> forall n :: n in extra ==> n in r.raw && r.raw[n] == Again(lib.numbers, extra[n]))
  {
    SignedTokenReads(lib, key, keys, issuer, c, extra, typ, now);
    ExtrasLeaveClaims(lib.numbers, c, extra);
    forall n | n in extra
      ensures n in RawOf(lib.numbers, Payload(lib.numbers, c, extra).value)
      ensures RawOf(lib.numbers, Payload(lib.numbers, c, extra).value)[n] == Again(lib.numbers, extra[n])
    {
      ExtrasComeBack(lib.numbers, c, extra, n);
    }
  }

  /** In the ordinary case: extras that name no claim in any spelling, and times up to 2^53. */
  lemma OrdinaryRoundTrip(lib: Library, key: PrivateKey, keys: map<string, PublicKey>, issuer: string, c: Claims, extra: Object, typ: string, now: int)
    requires Lawful(lib) && Normal(c) && Foreign(extra)
    requires 0 < c.exp <= TWO53 && 0 < c.iat <= TWO53 && (issuer == "" || TextOf(c, "iss") == issuer)
    requires lib.keyID(key.pub) in keys && keys[lib.keyID(key.pub)] == key.pub
    ensures var token := SignTyped(lib, key, c, extra, typ);
            && token.Some?
            && var r := Verify(lib, keys, issuer, token.value, now);
               && (r.Accepted? <==> c.iat * SECOND - LEEWAY <= now <= c.exp * SECOND + LEEWAY)
               && (r.Accepted? ==> r.claims == c)
  {
    ForeignExtrasLeaveClaims(lib.numbers, c, extra);
    SignVerifyRoundTrip(lib, key, keys, issuer, c, extra, typ, now);
    OrdinaryWindow(c, now);
  }

  lemma OrdinaryWindow(c: Claims, now: int)
    requires -TWO53 <= c.exp <= TWO53 && -TWO53 <= c.iat <= TWO53
    ensures InWindow(c, now) <==> c.iat * SECOND - LEEWAY <= now <= c.exp * SECOND + LEEWAY
  {
    UnixTimeIsExact(c.exp);
    UnixTimeIsExact(c.iat);
  }

  /** An extra that names an omitted claim, exactly or in another spelling, is not refused at signing, and comes back as
      that claim. */
  lemma ExtraFillsOmittedClaim(lib: Library, key: PrivateKey, keys: map<string, PublicKey>, c: Claims, name: string, nonce: string, now: int)
    requires Lawful(lib) && Normal(c) && "nonce" !in c.text && Fold(name) == "nonce" && nonce != ""
    requires lib.keyID(key.pub) in keys && keys[lib.keyID(key.pub)] == key.pub
    requires -TWO53 <= c.exp <= TWO53 && -TWO53 <= c.iat <= TWO53
    requires c.iat * SECOND - LEEWAY <= now <= c.exp * SECOND + LEEWAY
    ensures var token := SignTyped(lib, key, c, map[name := Str(nonce)], "");
            token.Some? && Verify(lib, keys, "", token.value, now).Accepted? &&
            TextOf(Verify(lib, keys, "", token.value, now).claims, "nonce") == nonce
  {
    var extra: Object := map[name := Str(nonce)];
    OmittedNameJoins(lib.numbers, c, name, nonce);
    OverridingExtraIsRead(lib.numbers, c, extra, name);
    TypesFit(lib.numbers, c, extra);
    NumbersAreCarried(lib.numbers, c, extra);
    SignedTokenReads(lib, key, keys, "", c, extra, "", now);
    OrdinaryWindow(c, now);
  }
}
