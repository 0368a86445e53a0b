/**
 * Model of v2/identifier/uuid.go: 16-byte UUIDs after RFC 4122, their version
 * and variant fields (sections 4.1.1 and 4.1.3), the 8-4-4-4-12 text form
 * (section 3), the predefined namespaces (Appendix C) and the post-processing
 * of name-based (sections 4.3) and random (section 4.4) UUIDs. The MD5 and
 * SHA-1 digests and the random source are inputs.
 */
module UUIDs {
  import opened Base

  type byte = bv8

  /** A UUID: exactly 16 bytes, a Go `[16]byte` value. */
  type UUID = s: seq<byte> | |s| == 16 witness [0, 0, 0, 0, 0, 0, 0, 0, 0, 0, 0, 0, 0, 0, 0, 0]

  /** The three versions the package generates. */
  const UUIDv3: byte := 3
  const UUIDv4: byte := 4
  const UUIDv5: byte := 5

  /**
   * Namespace selectors. They share the `iota` counter with the three version
   * constants above them, so they are 3, 4, 5 and 6.
   */
  const UUIDNamespaceDNS: int := 3
  const UUIDNamespaceURL: int := 4
  const UUIDNamespaceOID: int := 5
  const UUIDNamespaceX500: int := 6

  /** The version field: the high nibble of byte 6. */
  function Version(u: UUID): (v: byte)
    ensures v < 16
    ensures (v << 4) | (u[6] & 0x0f) == u[6]
  {
    (u[6] & 0xf0) >> 4
  }

  /** Byte 8 carries the RFC 4122 variant: its two high bits are 1, 0. */
  predicate HasRFC4122Variant(u: UUID)
  {
    u[8] & 0xc0 == 0x80
  }

  /**
   * The UUID after `setVersion(v)`. A byte shifted left by four loses its
   * high nibble, so only `v`'s low nibble survives as the version.
   */
  function WithVersion(u: UUID, v: byte): (r: UUID)
    ensures Version(r) == v & 0x0f
    ensures v < 16 ==> Version(r) == v
    ensures r[6] & 0x0f == u[6] & 0x0f
    ensures forall i | 0 <= i < 16 && i != 6 :: r[i] == u[i]
  {
    u[6 := (u[6] & 0x0f) | (v << 4)]
  }

  /** The UUID after `setVariant()`: high nibble of byte 8 set to 8. */
  function WithVariant(u: UUID): (r: UUID)
    ensures r[8] >> 4 == 8 && r[8] & 0x0f == u[8] & 0x0f
    ensures HasRFC4122Variant(r)
    ensures Version(r) == Version(u)
    ensures forall i | 0 <= i < 16 && i != 8 :: r[i] == u[i]
  {
    u[8 := (u[8] & 0x0f) | (8 << 4)]
  }

  /** setVersion, through the pointer receiver: writes byte 6 of the array in place. */
  method SetVersion(a: array<byte>, v: byte)
    requires a.Length == 16
    modifies a
    ensures a[..] == WithVersion(old(a[..]), v)
  {
    a[6] := (a[6] & 0x0f) | (v << 4);
  }

  /** setVariant, through the pointer receiver: writes byte 8 of the array in place. */
  method SetVariant(a: array<byte>)
    requires a.Length == 16
    modifies a
    ensures a[..] == WithVariant(old(a[..]))
  {
    a[8] := (a[8] & 0x0f) | (8 << 4);
  }

  /** The two setters write disjoint bytes, so their order does not matter. */
  lemma VersionVariantCommute(u: UUID, v: byte)
    ensures WithVariant(WithVersion(u, v)) == WithVersion(WithVariant(u), v)
  {
  }

  /** Setting the same version twice is setting it once, and so for the variant. */
  lemma SettersIdempotent(u: UUID, v: byte)
    ensures WithVersion(WithVersion(u, v), v) == WithVersion(u, v)
    ensures WithVariant(WithVariant(u)) == WithVariant(u)
  {
  }

  /** The post-processing the three constructors share: version `v`, then the variant. */
  function Stamp(raw: UUID, v: byte): (r: UUID)
    requires v < 16
    ensures Version(r) == v && HasRFC4122Variant(r)
    ensures r[6] & 0x0f == raw[6] & 0x0f && r[8] & 0x0f == raw[8] & 0x0f
    ensures forall i | 0 <= i < 16 && i != 6 && i != 8 :: r[i] == raw[i]
  {
    WithVariant(WithVersion(raw, v))
  }

  /**
   * Builds a UUID from its first 16 raw bytes the way the constructors do:
   * a zero array, `copy` of the raw bytes, then setVersion and setVariant.
   */
  method Build(raw: seq<byte>, v: byte) returns (u: UUID)
    requires |raw| >= 16 && v < 16
    ensures u == Stamp(raw[..16], v)
  {
    var a := new byte[16];
    forall i | 0 <= i < 16 {
      a[i] := raw[i];
    }
    assert a[..] == raw[..16];
    SetVersion(a, v);
    SetVariant(a);
    u := a[..];
  }

  /** What is hashed for a name-based UUID: the namespace's bytes followed by the name. */
  function HashInput(ns: UUID, name: seq<byte>): (r: seq<byte>)
    ensures |r| == 16 + |name| && r[..16] == ns && r[16..] == name
  {
    ns + name
  }

  /**
   * NewUUIDv3: the first 16 bytes of the MD5 digest of the namespace and the
   * name, stamped with version 3. `md5` is the digest function. It never fails.
   */
  method NewUUIDv3(ns: UUID, name: seq<byte>, md5: seq<byte> -> seq<byte>) returns (r: Result<UUID, string>)
    requires |md5(HashInput(ns, name))| == 16
    ensures r.Ok?
    ensures r.value == Stamp(md5(HashInput(ns, name))[..16], UUIDv3)
    ensures Version(r.value) == 3 && HasRFC4122Variant(r.value)
  {
    var d := Dump(ns);
    var sum := md5(d[..] + name);
    var u := Build(sum, UUIDv3);
    r := Ok(u);
  }

  /**
   * NewUUIDv5: the first 16 of the 20 bytes of the SHA-1 digest of the
   * namespace and the name, stamped with version 5. It never fails.
   */
  method NewUUIDv5(ns: UUID, name: seq<byte>, sha1: seq<byte> -> seq<byte>) returns (r: Result<UUID, string>)
    requires |sha1(HashInput(ns, name))| == 20
    ensures r.Ok?
    ensures r.value == Stamp(sha1(HashInput(ns, name))[..16], UUIDv5)
    ensures Version(r.value) == 5 && HasRFC4122Variant(r.value)
  {
    var d := Dump(ns);
    var sum := sha1(d[..] + name);
    var u := Build(sum, UUIDv5);
    r := Ok(u);
  }

  /**
   * NewUUIDv4: 16 random bytes stamped with version 4. `random` is what
   * `rand.Read` delivered: 16 bytes, or the error it reported, which is passed on.
   */
  method NewUUIDv4(random: Result<seq<byte>, string>) returns (r: Result<UUID, string>)
    requires random.Ok? ==> |random.value| == 16
    ensures random.Err? ==> r == Err(random.error)
    ensures random.Ok? ==> r.Ok? && r.value == Stamp(random.value, UUIDv4)
    ensures r.Ok? ==> Version(r.value) == 4 && HasRFC4122Variant(r.value)
  {
    if random.Err? {
      return Err(random.error);
    }
    var u := Build(random.value, UUIDv4);
    r := Ok(u);
  }

  /** NewUUID: a version 4 UUID from 16 bytes the random source delivered. */
  method NewUUID(random: seq<byte>) returns (u: UUID)
    requires |random| == 16
    ensures u == Stamp(random, UUIDv4)
    ensures Version(u) == 4 && HasRFC4122Variant(u)
  {
    var r := NewUUIDv4(Ok(random));
    u := r.value;
  }

  /** Copy: a UUID is a value, so the copy holds the same 16 bytes. */
  function Copy(u: UUID): (c: UUID)
    ensures forall i | 0 <= i < 16 :: c[i] == u[i]
  {
    u
  }

  /** Raw: the 16 bytes as a plain array value. */
  function Raw(u: UUID): (r: seq<byte>)
    ensures |r| == 16 && forall i | 0 <= i < 16 :: r[i] == u[i]
  {
    u[..]
  }

  /** dump: a freshly allocated byte slice holding the UUID's bytes. */
  method Dump(u: UUID) returns (d: array<byte>)
    ensures fresh(d) && d[..] == u
  {
    d := new byte[16];
    forall i | 0 <= i < 16 {
      d[i] := u[i];
    }
  }

  /**
   * The copied UUID keeps its bytes when the array it was copied from is
   * overwritten afterwards (the original is zeroed here, byte by byte);
   * so a copy of a UUID with a version, such as any NewUUID, differs from
   * the cleared original.
   */
  method CopyThenClear(a: array<byte>) returns (c: UUID)
    requires a.Length == 16
    modifies a
    ensures c == old(a[..])
    ensures forall i | 0 <= i < 16 :: a[i] == 0
    ensures Version(c) != 0 ==> c != a[..]
  {
    c := Copy(a[..]);
    for i := 0 to 16
      invariant forall j | 0 <= j < i :: a[j] == 0
    {
      a[i] := 0;
    }
  }

  // ----- Text form -----

  predicate IsLowerHex(c: char)
  {
    '0' <= c <= '9' || 'a' <= c <= 'f'
  }

  /** The lowercase hexadecimal digit of a nibble, as `%x` writes it. */
  function HexDigit(n: byte): (c: char)
    requires n < 16
    ensures IsLowerHex(c) && HexValue(c) == n
  {
    if n < 10 then ('0' as int + n as int) as char else ('a' as int + n as int - 10) as char
  }

  /** The value of a lowercase hexadecimal digit. */
  function HexValue(c: char): (n: byte)
    requires IsLowerHex(c)
    ensures n < 16
  {
    if c <= '9' then (c as int - '0' as int) as byte else (c as int - 'a' as int + 10) as byte
  }

  /** Digit `i` of the hexadecimal form of `bs`: the high nibble of a byte first. */
  function NibbleDigit(bs: seq<byte>, i: nat): char
    requires i < 2 * |bs|
  {
    var b := bs[i / 2];
    if i % 2 == 0 then HexDigit(b >> 4) else HexDigit(b & 0x0f)
  }

  /** `%x` of a byte slice: two lowercase hexadecimal digits per byte, in order. */
  function HexOf(bs: seq<byte>): (s: string)
    ensures |s| == 2 * |bs|
    ensures forall i | 0 <= i < |s| :: IsLowerHex(s[i])
  {
    seq(2 * |bs|, i requires 0 <= i < 2 * |bs| => NibbleDigit(bs, i))
  }

  /** One byte from two hexadecimal digits. */
  function HexPair(h: char, l: char): byte
    requires IsLowerHex(h) && IsLowerHex(l)
  {
    (HexValue(h) << 4) | HexValue(l)
  }

  /** The low nibble of a decoded pair is the value of its second digit. */
  lemma HexPairLow(h: char, l: char)
    requires IsLowerHex(h) && IsLowerHex(l)
    ensures HexPair(h, l) & 0x0f == HexValue(l)
  {
    var hi, lo := HexValue(h), HexValue(l);
    assert ((hi << 4) | lo) & 0x0f == lo;
  }

  /** The bytes that a string of hexadecimal digit pairs spells, as `hex.DecodeString` reads it. */
  function UnHex(s: string): (r: seq<byte>)
    requires |s| % 2 == 0 && forall i | 0 <= i < |s| :: IsLowerHex(s[i])
    ensures |r| == |s| / 2
  {
    seq(|s| / 2, i requires 0 <= i < |s| / 2 => HexPair(s[2 * i], s[2 * i + 1]))
  }

  /** Decoding the hexadecimal form gives back the bytes. */
  lemma UnHexOf(bs: seq<byte>)
    ensures UnHex(HexOf(bs)) == bs
  {
    forall j | 0 <= j < |bs|
      ensures UnHex(HexOf(bs))[j] == bs[j]
    {
      UnHexOfAt(bs, j);
    }
  }

  /** Byte `j` of the decoded form is byte `j` of the bytes. */
  lemma UnHexOfAt(bs: seq<byte>, j: nat)
    requires j < |bs|
    ensures UnHex(HexOf(bs))[j] == bs[j]
  {
    var h := HexOf(bs);
    NibbleDigits(bs, j);
    assert UnHex(h)[j] == HexPair(h[2 * j], h[2 * j + 1]);
    HexPairOfDigits(bs[j]);
  }

  /** Digits `2 * j` and `2 * j + 1` are the high and the low nibble of byte `j`. */
  lemma NibbleDigits(bs: seq<byte>, j: nat)
    requires j < |bs|
    ensures NibbleDigit(bs, 2 * j) == HexDigit(bs[j] >> 4)
    ensures NibbleDigit(bs, 2 * j + 1) == HexDigit(bs[j] & 0x0f)
  {
    assert (2 * j) / 2 == j && (2 * j) % 2 == 0;
    assert (2 * j + 1) / 2 == j && (2 * j + 1) % 2 == 1;
  }

  /** The two digits of a byte spell that byte. */
  lemma HexPairOfDigits(b: byte)
    ensures HexPair(HexDigit(b >> 4), HexDigit(b & 0x0f)) == b
  {
    var hi, lo := b >> 4, b & 0x0f;
    assert HexValue(HexDigit(hi)) == hi;
    assert HexValue(HexDigit(lo)) == lo;
    assert (hi << 4) | lo == b;
  }

  /** The positions of the four '-' in the 36-character form. */
  predicate IsDashPosition(i: int)
  {
    i == 8 || i == 13 || i == 18 || i == 23
  }

  /** 36 characters: '-' at the four dash positions, lowercase hexadecimal digits elsewhere. */
  predicate IsUUIDText(s: string)
  {
    |s| == 36 && forall i | 0 <= i < 36 :: if IsDashPosition(i) then s[i] == '-' else IsLowerHex(s[i])
  }

  /** String: `%x-%x-%x-%x-%x` over bytes 0-3, 4-5, 6-7, 8-9 and 10-15. */
  function String(u: UUID): (s: string)
    ensures IsUUIDText(s)
  {
    HexOf(u[0..4]) + "-" + HexOf(u[4..6]) + "-" + HexOf(u[6..8]) + "-" + HexOf(u[8..10]) + "-" + HexOf(u[10..16])
  }

  /** Reads the 8-4-4-4-12 form back into its 16 bytes; `None` for any other text. */
  function Parse(s: string): (r: Option<UUID>)
    ensures r.Some? <==> IsUUIDText(s)
  {
    if IsUUIDText(s) then
      Some(UnHex(s[0..8]) + UnHex(s[9..13]) + UnHex(s[14..18]) + UnHex(s[19..23]) + UnHex(s[24..36]))
    else
      None
  }

  /** Parsing the text form of a UUID gives back the UUID. */
  lemma ParseString(u: UUID)
    ensures Parse(String(u)) == Some(u)
  {
    var s := String(u);
    var a, b, c, d, e := u[0..4], u[4..6], u[6..8], u[8..10], u[10..16];
    var p := Parse(s);
    assert p.Some? && p.value == UnHex(s[0..8]) + UnHex(s[9..13]) + UnHex(s[14..18]) + UnHex(s[19..23]) + UnHex(s[24..36]);
    GroupsOfText(HexOf(a), HexOf(b), HexOf(c), HexOf(d), HexOf(e));
    assert UnHex(s[0..8]) == a by { UnHexOf(a); }
    assert UnHex(s[9..13]) == b by { UnHexOf(b); }
    assert UnHex(s[14..18]) == c by { UnHexOf(c); }
    assert UnHex(s[19..23]) == d by { UnHexOf(d); }
    assert UnHex(s[24..36]) == e by { UnHexOf(e); }
    RegroupBytes(u);
  }

  /** The five byte groups of the text form make up the whole UUID. */
  lemma RegroupBytes(u: UUID)
    ensures u[0..4] + u[4..6] + u[6..8] + u[8..10] + u[10..16] == u
  {
  }

  /** The five groups sit at fixed offsets of the dash-joined text. */
  lemma GroupsOfText(g0: string, g1: string, g2: string, g3: string, g4: string)
    requires |g0| == 8 && |g1| == 4 && |g2| == 4 && |g3| == 4 && |g4| == 12
    ensures var s := g0 + "-" + g1 + "-" + g2 + "-" + g3 + "-" + g4;
      s[0..8] == g0 && s[9..13] == g1 && s[14..18] == g2 && s[19..23] == g3 && s[24..36] == g4
  {
  }

  /** Distinct UUIDs have distinct text forms. */
  lemma StringInjective(u: UUID, w: UUID)
    ensures String(u) == String(w) ==> u == w
  {
    ParseString(u);
    ParseString(w);
  }

  // ----- Namespaces -----

  /**
   * The text given to `hex.DecodeString` for each of the four selectors; any
   * other selector makes the source panic.
   */
  function NamespaceHex(nsId: int): string
    requires UUIDNamespaceDNS <= nsId <= UUIDNamespaceX500
  {
    if nsId == UUIDNamespaceDNS then "6ba7b8109dad11d180b400c04fd430c8"
    else if nsId == UUIDNamespaceURL then "6ba7b8119dad11d180b400c04fd430c8"
    else if nsId == UUIDNamespaceOID then "6ba7b8129dad11d180b400c04fd430c8"
    else "6ba7b8149dad11d180b400c04fd430c8"
  }

  /**
   * A namespace text: 32 hexadecimal digits, "1" and `tag` for byte 3, "11"
   * for byte 6 (version 1) and "80" for byte 8 (the RFC 4122 variant).
   */
  predicate IsNamespaceHex(s: string, tag: char)
  {
    && |s| == 32 && (forall i | 0 <= i < |s| :: IsLowerHex(s[i]))
    && s[6] == '1' && s[7] == tag && s[12] == '1' && s[13] == '1' && s[16] == '8' && s[17] == '0'
  }

  /** The digit that tells the four namespace texts apart. */
  function NamespaceTag(nsId: int): (c: char)
    requires UUIDNamespaceDNS <= nsId <= UUIDNamespaceX500
    ensures IsLowerHex(c) && HexValue(c) == NamespaceTagValue(nsId)
  {
    if nsId == UUIDNamespaceDNS then '0'
    else if nsId == UUIDNamespaceURL then '1'
    else if nsId == UUIDNamespaceOID then '2'
    else '4'
  }

  /** The value of that digit: 0, 1, 2 and 4 for DNS, URL, OID and X.500. */
  function NamespaceTagValue(nsId: int): byte
  {
    if nsId == UUIDNamespaceDNS then 0
    else if nsId == UUIDNamespaceURL then 1
    else if nsId == UUIDNamespaceOID then 2
    else 4
  }

  lemma DNSHex()
    ensures IsNamespaceHex(NamespaceHex(UUIDNamespaceDNS), '0')
  {
  }

  lemma URLHex()
    ensures IsNamespaceHex(NamespaceHex(UUIDNamespaceURL), '1')
  {
  }

  lemma OIDHex()
    ensures IsNamespaceHex(NamespaceHex(UUIDNamespaceOID), '2')
  {
  }

  lemma X500Hex()
    ensures IsNamespaceHex(NamespaceHex(UUIDNamespaceX500), '4')
  {
  }

  /** Each selector's text has the namespace shape, with that selector's tag. */
  lemma NamespaceHexShape(nsId: int)
    requires UUIDNamespaceDNS <= nsId <= UUIDNamespaceX500
    ensures IsNamespaceHex(NamespaceHex(nsId), NamespaceTag(nsId))
  {
    if nsId == UUIDNamespaceDNS {
      DNSHex();
    } else if nsId == UUIDNamespaceURL {
      URLHex();
    } else if nsId == UUIDNamespaceOID {
      OIDHex();
    } else {
      X500Hex();
    }
  }

  /**
   * UUIDNamespace: the namespace IDs of RFC 4122 Appendix C for the four
   * selectors, decoded from their hexadecimal text; any other selector makes
   * the source panic, here `None`.
   */
  function UUIDNamespace(nsId: int): (r: Option<UUID>)
    ensures r.Some? <==> UUIDNamespaceDNS <= nsId <= UUIDNamespaceX500
    ensures r.Some? ==> Version(r.value) == 1 && HasRFC4122Variant(r.value)
    ensures r.Some? ==> r.value[3] & 0x0f == NamespaceTagValue(nsId)
  {
    if UUIDNamespaceDNS <= nsId <= UUIDNamespaceX500 then
      var s := NamespaceHex(nsId);
      NamespaceHexShape(nsId);
      var u := UnHex(s);
      assert u[3] == HexPair(s[6], s[7]) && u[6] == HexPair(s[12], s[13]) && u[8] == HexPair(s[16], s[17]);
      HexPairLow(s[6], s[7]);
      Some(u)
    else
      None
  }

  /** Each lowercase hexadecimal digit is the digit of its own value. */
  lemma DigitOfValue(c: char)
    requires IsLowerHex(c)
    ensures HexDigit(HexValue(c)) == c
  {
    if c <= '9' {
      DecimalDigitOfValue(c);
    } else {
      LetterDigitOfValue(c);
    }
  }

  lemma DecimalDigitOfValue(c: char)
    requires '0' <= c <= '9'
    ensures HexDigit(HexValue(c)) == c
  {
    var n := (c as int - '0' as int) as byte;
    assert HexValue(c) == n && n as int == c as int - '0' as int;
  }

  lemma LetterDigitOfValue(c: char)
    requires 'a' <= c <= 'f'
    ensures HexDigit(HexValue(c)) == c
  {
    var n := (c as int - 'a' as int + 10) as byte;
    assert HexValue(c) == n && n as int == c as int - 'a' as int + 10;
  }

  /** The high nibble of a decoded pair is the value of its first digit. */
  lemma HexPairHigh(h: char, l: char)
    requires IsLowerHex(h) && IsLowerHex(l)
    ensures HexPair(h, l) >> 4 == HexValue(h)
  {
    var hi, lo := HexValue(h), HexValue(l);
    assert ((hi << 4) | lo) >> 4 == hi;
  }

  /** Writing decoded digit pairs in hexadecimal gives back the digits. */
  lemma HexOfUnHex(s: string)
    requires |s| % 2 == 0 && forall i | 0 <= i < |s| :: IsLowerHex(s[i])
    ensures HexOf(UnHex(s)) == s
  {
    var bs := UnHex(s);
    forall i | 0 <= i < |s|
      ensures HexOf(bs)[i] == s[i]
    {
      var k := i / 2;
      assert bs[k] == HexPair(s[2 * k], s[2 * k + 1]);
      HexPairHigh(s[2 * k], s[2 * k + 1]);
      HexPairLow(s[2 * k], s[2 * k + 1]);
      DigitOfValue(s[2 * k]);
      DigitOfValue(s[2 * k + 1]);
    }
  }

  /** A run of decoded bytes is the decoding of the digits that spell it. */
  lemma UnHexSlice(s: string, i: nat, j: nat)
    requires |s| % 2 == 0 && forall k | 0 <= k < |s| :: IsLowerHex(s[k])
    requires i <= j <= |s| / 2
    ensures UnHex(s)[i..j] == UnHex(s[2 * i..2 * j])
  {
    var t := s[2 * i..2 * j];
    forall k | 0 <= k < j - i
      ensures UnHex(s)[i..j][k] == UnHex(t)[k]
    {
      assert t[2 * k] == s[2 * (i + k)] && t[2 * k + 1] == s[2 * (i + k) + 1];
    }
  }

  /** The text form of the UUID that 32 hexadecimal digits spell is those digits grouped 8-4-4-4-12. */
  lemma StringOfHex(h: string)
    requires |h| == 32 && forall i | 0 <= i < 32 :: IsLowerHex(h[i])
    ensures String(UnHex(h)) == h[0..8] + "-" + h[8..12] + "-" + h[12..16] + "-" + h[16..20] + "-" + h[20..32]
  {
    GroupHex(h, 0, 4);
    GroupHex(h, 4, 6);
    GroupHex(h, 6, 8);
    GroupHex(h, 8, 10);
    GroupHex(h, 10, 16);
  }

  /** One group of the text form of decoded digits is the digits it was decoded from. */
  lemma GroupHex(h: string, i: nat, j: nat)
    requires |h| % 2 == 0 && forall k | 0 <= k < |h| :: IsLowerHex(h[k])
    requires i <= j <= |h| / 2
    ensures HexOf(UnHex(h)[i..j]) == h[2 * i..2 * j]
  {
    UnHexSlice(h, i, j);
    HexOfUnHex(h[2 * i..2 * j]);
  }

  /**
   * The text form of a namespace is its hexadecimal text from the source,
   * grouped 8-4-4-4-12: the bytes decoded are exactly the ones the text spells.
   */
  lemma NamespaceString(nsId: int)
    requires UUIDNamespaceDNS <= nsId <= UUIDNamespaceX500
    ensures UUIDNamespace(nsId).Some?
    ensures var h := NamespaceHex(nsId);
      String(UUIDNamespace(nsId).value) == h[0..8] + "-" + h[8..12] + "-" + h[12..16] + "-" + h[16..20] + "-" + h[20..32]
  {
    NamespaceHexShape(nsId);
    StringOfHex(NamespaceHex(nsId));
  }

  /** The four namespaces differ from one another (in byte 3). */
  lemma NamespacesDistinct(a: int, b: int)
    requires UUIDNamespace(a).Some? && UUIDNamespace(b).Some?
    ensures UUIDNamespace(a) == UUIDNamespace(b) <==> a == b
  {
    if a != b {
      assert NamespaceTagValue(a) != NamespaceTagValue(b);
    }
  }
}
