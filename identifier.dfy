/**
 * Model of v2/identifier/identifier.go: the older version 4 UUID constructor,
 * identifiers built from normalised parts (lower case, runs of other
 * characters collapsed to one '-', empty parts dropped, parts joined by a
 * separator), plain colon joins, and type names turned into kebab case.
 * The parts arrive as the strings `fmt.Sprintf("%v", p)` gives, and type
 * names as the strings `reflect.TypeOf(i).String()` gives.
 */
module Identifiers {
  import opened Runes
  import opened Strs
  import UUIDs
  import opened Base

  // ----- NewUUID -----

  /**
   * NewUUID: 16 random bytes (what `io.ReadFull` delivered), then version 4
   * in byte 6 and the RFC 4122 variant in byte 8, written directly. It agrees
   * with the setVersion/setVariant route of uuid.go.
   */
  method NewUUID(random: seq<UUIDs.byte>) returns (u: UUIDs.UUID)
    requires |random| == 16
    ensures u[6] == 0x40 | (random[6] & 0x0f) && u[8] == 0x80 | (random[8] & 0x0f)
    ensures forall i | 0 <= i < 16 && i != 6 && i != 8 :: u[i] == random[i]
    ensures u == UUIDs.Stamp(random, UUIDs.UUIDv4)
  {
    var a := new UUIDs.byte[16];
    forall i | 0 <= i < 16 {
      a[i] := random[i];
    }
    var version: UUIDs.byte := 4 << 4;
    var variant: UUIDs.byte := 8 << 4;
    a[6] := version | (a[6] & 15);
    a[8] := variant | (a[8] & 15);
    u := a[..];
  }

  /**
   * String of the UUID type declared in this file: the same `%x` groups of
   * bytes 0-3, 4-5, 6-7, 8-9 and 10-15 joined by '-' as UUIDs.String, so it
   * reads back as the UUID it came from.
   */
  function String(u: UUIDs.UUID): (s: string)
    ensures UUIDs.IsUUIDText(s) && UUIDs.Parse(s) == Some(u)
  {
    UUIDs.ParseString(u);
    UUIDs.String(u)
  }

  // ----- Identifier parts -----

  /** A rune survives normalisation: a letter or digit, and with `limit` one whose lower case is ASCII. */
  predicate Passes(limit: bool, r: char)
  {
    (IsLetter(r) || IsDigit(r)) && (!limit || ToLower(r) as int <= MaxASCII)
  }

  /** What an emitted part may hold besides '-': lower-case letters and digits, ASCII only under `limit`. */
  predicate IsIdentChar(limit: bool, c: char)
  {
    if limit then 'a' <= c <= 'z' || IsDigit(c) else (IsLetter(c) && !IsUpper(c)) || IsDigit(c)
  }

  /** The mapping function given to `strings.Map`: survivors in lower case, everything else a space. */
  function MapRune(limit: bool, r: char): (m: char)
    ensures Passes(limit, r) ==> m == ToLower(r) && IsIdentChar(limit, m)
    ensures !Passes(limit, r) ==> m == ' '
  {
    if IsLetter(r) || IsDigit(r) then
      var lcr := ToLower(r);
      if limit then (if lcr as int <= MaxASCII then lcr else ' ') else lcr
    else
      ' '
  }

  /** strings.Map with MapRune. */
  function MapRunes(limit: bool, s: string): (m: string)
    ensures |m| == |s|
  {
    seq(|s|, i requires 0 <= i < |s| => MapRune(limit, s[i]))
  }

  /** One normalised part: `strings.Join(strings.Fields(tmp), "-")` of the mapped text. */
  function NormalizePart(limit: bool, p: string): string
  {
    Join(Fields(MapRunes(limit, p)), "-")
  }

  /** A well-formed emitted part: non-empty, IsIdentChar or '-', no '-' at either end, no two '-' in a row. */
  predicate IsIdentPart(limit: bool, q: string)
  {
    && |q| > 0
    && q[0] != '-' && q[|q| - 1] != '-'
    && (forall i | 0 <= i < |q| :: q[i] == '-' || IsIdentChar(limit, q[i]))
    && (forall i | 0 <= i < |q| - 1 :: q[i] == '-' ==> q[i + 1] != '-')
  }

  predicate IsIdentWord(limit: bool, w: string)
  {
    w != [] && forall k | 0 <= k < |w| :: IsIdentChar(limit, w[k])
  }

  /** Words of identifier characters joined by '-' make a well-formed part. */
  lemma {:induction false} JoinWords(limit: bool, ws: seq<string>)
    requires |ws| >= 1
    requires forall j | 0 <= j < |ws| :: IsIdentWord(limit, ws[j])
    ensures IsIdentPart(limit, Join(ws, "-"))
  {
    if |ws| > 1 {
      JoinWords(limit, ws[1..]);
      DashBetween(limit, ws[0], Join(ws[1..], "-"));
    }
  }

  /** Removing the '-' from words joined by '-' leaves the words, concatenated. */
  lemma {:induction false} JoinWordsWithout(ws: seq<string>)
    requires forall j | 0 <= j < |ws| :: '-' !in ws[j]
    ensures Without(Join(ws, "-"), '-') == Concat(ws)
  {
    if |ws| > 0 {
      var w := ws[0];
      WithoutAbsent(w, '-');
      if |ws| > 1 {
        var rest := Join(ws[1..], "-");
        calc {
          Without(Join(ws, "-"), '-');
          Without(w + "-" + rest, '-');
          { WithoutDashAfter(w, rest); }
          w + Without(rest, '-');
          { JoinWordsWithout(ws[1..]); }
          w + Concat(ws[1..]);
        }
      }
    }
  }

  /** Dropping the dashes of a dash-free word, a '-' and a rest leaves the word and the rest without its dashes. */
  lemma WithoutDashAfter(w: string, rest: string)
    requires '-' !in w
    ensures Without(w + "-" + rest, '-') == w + Without(rest, '-')
  {
    WithoutConcat(w + "-", rest, '-');
    WithoutDashEnd(w);
  }

  /** Dropping the dashes of a dash-free word and a '-' leaves the word. */
  lemma WithoutDashEnd(w: string)
    requires '-' !in w
    ensures Without(w + "-", '-') == w
  {
    WithoutConcat(w, "-", '-');
    WithoutAbsent(w, '-');
    WithoutOnly('-');
    assert w + [] == w;
  }

  /** A word, a '-' and a well-formed part make a well-formed part. */
  lemma DashBetween(limit: bool, w: string, rest: string)
    requires IsIdentWord(limit, w) && IsIdentPart(limit, rest)
    ensures IsIdentPart(limit, w + "-" + rest)
  {
    var q := w + "-" + rest;
    forall i | 0 <= i < |q| - 1
      ensures q[i] == '-' ==> q[i + 1] != '-'
    {
      if i < |w| - 1 {
        assert q[i] == w[i];
      } else if i == |w| - 1 {
        assert q[i + 1] == '-' && q[i] == w[i];
      } else if i == |w| {
        assert q[i + 1] == rest[0];
      } else {
        assert q[i] == rest[i - |w| - 1] && q[i + 1] == rest[i - |w|];
      }
    }
    forall i | 0 <= i < |q|
      ensures q[i] == '-' || IsIdentChar(limit, q[i])
    {
      if i < |w| {
        assert q[i] == w[i];
      } else if i > |w| {
        assert q[i] == rest[i - |w| - 1];
      }
    }
  }

  /**
   * What normalisation makes of one part: empty exactly when no rune of it
   * passes; otherwise a well-formed part whose '-'-free letters are the
   * passing runes in lower case, in order.
   */
  lemma PartShape(limit: bool, p: string)
    ensures NormalizePart(limit, p) == [] <==> forall i | 0 <= i < |p| :: !Passes(limit, p[i])
    ensures NormalizePart(limit, p) != [] ==> IsIdentPart(limit, NormalizePart(limit, p))
    ensures Without(NormalizePart(limit, p), '-') == Squeeze(MapRunes(limit, p))
  {
    var m := MapRunes(limit, p);
    var fs := Fields(m);
    MappedChars(limit, p);
    FieldsChars(m, c => IsIdentChar(limit, c));
    FieldsConcat(m);
    FieldsEmpty(m);
    SqueezeEmpty(m);
    JoinWordsWithout(fs);
    if fs != [] {
      JoinWords(limit, fs);
    }
  }

  /** Mapping the runes leaves a space exactly where a rune does not pass, and an identifier character elsewhere. */
  lemma MappedChars(limit: bool, p: string)
    ensures forall i | 0 <= i < |p| :: IsSpace(MapRunes(limit, p)[i]) || IsIdentChar(limit, MapRunes(limit, p)[i])
    ensures forall i | 0 <= i < |p| :: IsSpace(MapRunes(limit, p)[i]) <==> !Passes(limit, p[i])
  {
    var m := MapRunes(limit, p);
    forall i | 0 <= i < |m|
      ensures IsSpace(m[i]) || IsIdentChar(limit, m[i])
      ensures IsSpace(m[i]) <==> !Passes(limit, p[i])
    {
      assert m[i] == MapRune(limit, p[i]);
    }
  }

  /**
   * Runs of dropped runes become dashes: where a dropped rune separates two
   * pieces that each keep a rune, the part normalises to the two pieces'
   * normal forms with exactly one '-' between them.
   */
  lemma DashForDropped(limit: bool, a: string, x: char, b: string)
    requires !Passes(limit, x) && HasSurvivor(limit, a) && HasSurvivor(limit, b)
    ensures NormalizePart(limit, a + [x] + b) == NormalizePart(limit, a) + "-" + NormalizePart(limit, b)
  {
    MapRunesAround(limit, a, x, b);
    FieldsAtSpace(MapRunes(limit, a), ' ', MapRunes(limit, b));
    SurvivorFields(limit, a);
    SurvivorFields(limit, b);
    JoinConcat(Fields(MapRunes(limit, a)), Fields(MapRunes(limit, b)), "-");
  }

  /** Dropped runes at either end of a part leave no trace. */
  lemma DroppedAtEnds(limit: bool, x: char, p: string)
    requires !Passes(limit, x)
    ensures NormalizePart(limit, [x] + p) == NormalizePart(limit, p)
    ensures NormalizePart(limit, p + [x]) == NormalizePart(limit, p)
  {
    MapRunesAround(limit, [], x, p);
    MapRunesAround(limit, p, x, []);
    assert [] + [x] + p == [x] + p && p + [x] + [] == p + [x];
    FieldsAtSpace([], ' ', MapRunes(limit, p));
    FieldsAtSpace(MapRunes(limit, p), ' ', []);
    assert MapRunes(limit, []) == [];
    assert Fields(MapRunes(limit, p)) + Fields([]) == Fields(MapRunes(limit, p));
  }

  /** A part whose every rune survives is kept whole, in lower case, without any '-'. */
  lemma AllSurvive(limit: bool, p: string)
    requires |p| > 0 && forall i | 0 <= i < |p| :: Passes(limit, p[i])
    ensures NormalizePart(limit, p) == ToLowerString(p)
  {
    var m := MapRunes(limit, p);
    MappedChars(limit, p);
    FieldsWhole(m);
    assert m == ToLowerString(p);
  }

  /** Mapping runes maps each piece on its own; a dropped rune becomes a space. */
  lemma MapRunesAround(limit: bool, a: string, x: char, b: string)
    requires !Passes(limit, x)
    ensures MapRunes(limit, a + [x] + b) == MapRunes(limit, a) + [' '] + MapRunes(limit, b)
  {
    var s := a + [x] + b;
    forall i | 0 <= i < |s|
      ensures MapRunes(limit, s)[i] == (MapRunes(limit, a) + [' '] + MapRunes(limit, b))[i]
    {
      if i < |a| {
        assert s[i] == a[i];
      } else if i > |a| {
        assert s[i] == b[i - |a| - 1];
      }
    }
  }

  /** A part with a surviving rune has at least one field. */
  lemma SurvivorFields(limit: bool, p: string)
    requires HasSurvivor(limit, p)
    ensures Fields(MapRunes(limit, p)) != []
  {
    var m := MapRunes(limit, p);
    MappedChars(limit, p);
    FieldsEmpty(m);
    SqueezeEmpty(m);
  }

  /** A text squeezes to nothing exactly when every character of it is white space. */
  lemma {:induction false} SqueezeEmpty(s: string)
    ensures Squeeze(s) == [] <==> forall i | 0 <= i < |s| :: IsSpace(s[i])
  {
    if |s| > 0 {
      SqueezeEmpty(s[1..]);
      assert forall i | 1 <= i < |s| :: s[i] == s[1..][i - 1];
    }
  }

  /** The parts that survive normalisation, normalised, in input order. */
  function Emitted(limit: bool, parts: seq<string>): (r: seq<string>)
    ensures |r| <= |parts|
  {
    if |parts| == 0 then [] else Emitted(limit, parts[..|parts| - 1]) + Kept(limit, parts[|parts| - 1])
  }

  /** What one part contributes: its normalised form, unless that is empty. */
  function Kept(limit: bool, p: string): seq<string>
  {
    var q := NormalizePart(limit, p);
    if q != [] then [q] else []
  }

  /** A part none of whose runes survives contributes nothing. */
  lemma KeptNone(limit: bool, p: string)
    requires forall i | 0 <= i < |p| :: !Passes(limit, p[i])
    ensures Kept(limit, p) == []
  {
    PartShape(limit, p);
  }

  /** A part with a surviving rune contributes its normalised form. */
  lemma KeptSome(limit: bool, p: string)
    requires HasSurvivor(limit, p)
    ensures Kept(limit, p) == [NormalizePart(limit, p)]
  {
    PartShape(limit, p);
  }

  /** Emitting one more part appends what it contributes. */
  lemma EmittedSnoc(limit: bool, parts: seq<string>, p: string)
    ensures Emitted(limit, parts + [p]) == Emitted(limit, parts) + Kept(limit, p)
  {
    assert (parts + [p])[..|parts|] == parts;
  }

  /** Emitting one more part with a surviving rune appends its normalised form. */
  lemma EmittedSnocSome(limit: bool, parts: seq<string>, p: string)
    requires HasSurvivor(limit, p)
    ensures Emitted(limit, parts + [p]) == Emitted(limit, parts) + [NormalizePart(limit, p)]
  {
    EmittedSnoc(limit, parts, p);
    KeptSome(limit, p);
  }

  /** Every emitted part is well formed. */
  lemma {:induction false} EmittedWellFormed(limit: bool, parts: seq<string>)
    ensures forall j | 0 <= j < |Emitted(limit, parts)| :: IsIdentPart(limit, Emitted(limit, parts)[j])
  {
    if |parts| > 0 {
      EmittedWellFormed(limit, parts[..|parts| - 1]);
      PartShape(limit, parts[|parts| - 1]);
    }
  }

  /** Some rune of the part survives normalisation. */
  predicate HasSurvivor(limit: bool, p: string)
  {
    exists i | 0 <= i < |p| :: Passes(limit, p[i])
  }

  /** When every part has a surviving rune, each part is emitted, normalised, at its own position. */
  lemma {:induction false} EmittedKeepsAll(limit: bool, parts: seq<string>)
    requires forall j | 0 <= j < |parts| :: HasSurvivor(limit, parts[j])
    ensures |Emitted(limit, parts)| == |parts|
    ensures forall j | 0 <= j < |parts| :: Emitted(limit, parts)[j] == NormalizePart(limit, parts[j])
  {
    if |parts| > 0 {
      var init, last := parts[..|parts| - 1], parts[|parts| - 1];
      assert parts == init + [last];
      forall j | 0 <= j < |init|
        ensures HasSurvivor(limit, init[j])
      {
        assert init[j] == parts[j];
      }
      EmittedKeepsAll(limit, init);
      EmittedSnocSome(limit, init, last);
      var e := Emitted(limit, parts);
      forall j | 0 <= j < |parts|
        ensures e[j] == NormalizePart(limit, parts[j])
      {
        if j < |init| {
          assert parts[j] == init[j];
        }
      }
    }
  }

  /** A part none of whose runes survives adds nothing, wherever it stands. */
  lemma {:induction false} EmittedDropsEmpty(limit: bool, before: seq<string>, p: string, after: seq<string>)
    requires forall i | 0 <= i < |p| :: !Passes(limit, p[i])
    ensures Emitted(limit, before + [p] + after) == Emitted(limit, before + after)
    decreases |after|
  {
    KeptNone(limit, p);
    if |after| == 0 {
      EmittedSnoc(limit, before, p);
      assert before + [p] + after == before + [p];
      assert before + after == before;
    } else {
      var init, last := after[..|after| - 1], after[|after| - 1];
      var x, y := before + [p] + init, before + init;
      calc {
        Emitted(limit, before + [p] + after);
        { assert before + [p] + after == x + [last]; }
        Emitted(limit, x + [last]);
        { EmittedSnoc(limit, x, last); }
        Emitted(limit, x) + Kept(limit, last);
        { EmittedDropsEmpty(limit, before, p, init); }
        Emitted(limit, y) + Kept(limit, last);
        { EmittedSnoc(limit, y, last); }
        Emitted(limit, y + [last]);
        { assert before + after == y + [last]; }
        Emitted(limit, before + after);
      }
    }
  }

  /**
   * LimitedSepIdentifier: normalise every part, keep the non-empty ones in
   * order, and join them with `sep`.
   */
  method LimitedSepIdentifier(sep: string, limit: bool, parts: seq<string>) returns (id: string)
    ensures id == Join(Emitted(limit, parts), sep)
  {
    var iparts: seq<string> := [];
    for i := 0 to |parts|
      invariant iparts == Emitted(limit, parts[..i])
    {
      var ipart := NormalizePart(limit, parts[i]);
      assert parts[..i + 1][..i] == parts[..i];
      if |ipart| > 0 {
        iparts := iparts + [ipart];
      }
    }
    assert parts[..|parts|] == parts;
    id := Join(iparts, sep);
  }

  /** SepIdentifier: LimitedSepIdentifier without the ASCII limit. */
  method SepIdentifier(sep: string, parts: seq<string>) returns (id: string)
    ensures id == Join(Emitted(false, parts), sep)
  {
    id := LimitedSepIdentifier(sep, false, parts);
  }

  /** Identifier: SepIdentifier with ':' as the separator. */
  method Identifier(parts: seq<string>) returns (id: string)
    ensures id == Join(Emitted(false, parts), ":")
  {
    id := SepIdentifier(":", parts);
  }

  /**
   * JoinedIdentifier: the identifiers joined by ':' with no normalisation,
   * so `n` identifiers gain `n - 1` colons.
   */
  function JoinedIdentifier(identifiers: seq<string>): (r: string)
    ensures |identifiers| >= 1 ==> |r| == TotalLength(identifiers) + |identifiers| - 1
  {
    if |identifiers| >= 1 then JoinLength(identifiers, ":"); Join(identifiers, ":")
    else Join(identifiers, ":")
  }

  /** Splitting a joined identifier at ':' gives back the identifiers when none of them holds a colon. */
  lemma SplitJoinedIdentifier(identifiers: seq<string>)
    requires |identifiers| >= 1
    requires forall i | 0 <= i < |identifiers| :: ':' !in identifiers[i]
    ensures Split(JoinedIdentifier(identifiers), ':') == identifiers
  {
    SplitJoin(identifiers, ':');
  }

  // ----- Type names -----

  /** What the loop writes for the rune at index `i`: a '-' before an upper-case rune that is not the first. */
  function Piece(i: nat, r: char): string
  {
    if IsUpper(r) && i > 0 then ['-', r] else [r]
  }

  /** The buffer after the loop has written the runes of `t`. */
  function Dashed(t: string): string
  {
    if |t| == 0 then "" else Dashed(t[..|t| - 1]) + Piece(|t| - 1, t[|t| - 1])
  }

  /** One more rune of `t` adds its piece to the buffer. */
  lemma DashedSnoc(t: string, i: nat)
    requires i < |t|
    ensures Dashed(t[..i + 1]) == Dashed(t[..i]) + Piece(i, t[i])
  {
    assert t[..i + 1][..i] == t[..i];
  }

  /** The number of upper-case runes of `t` after its first. */
  function UpperAfterFirst(t: string): nat
  {
    if |t| <= 1 then 0 else UpperAfterFirst(t[..|t| - 1]) + (if IsUpper(t[|t| - 1]) then 1 else 0)
  }

  /**
   * The dashes are the only thing the loop adds: without them the buffer is
   * the type name again, and there is one per upper-case rune after the first.
   */
  lemma {:induction false} DashedShape(t: string)
    requires '-' !in t
    ensures Without(Dashed(t), '-') == t
    ensures |Dashed(t)| == |t| + UpperAfterFirst(t)
    ensures |t| > 0 ==> Dashed(t)[0] == t[0]
  {
    if |t| > 0 {
      var init, r := t[..|t| - 1], t[|t| - 1];
      assert t == init + [r];
      assert '-' !in init;
      DashedShape(init);
      var piece := Piece(|t| - 1, r);
      assert Dashed(t) == Dashed(init) + piece;
      calc {
        Without(Dashed(t), '-');
        { WithoutConcat(Dashed(init), piece, '-'); }
        Without(Dashed(init), '-') + Without(piece, '-');
        { PieceWithout(|t| - 1, r); }
        init + [r];
      }
    }
  }

  /** Removing '-' from a piece leaves its rune. */
  lemma PieceWithout(i: nat, r: char)
    requires r != '-'
    ensures Without(Piece(i, r), '-') == [r]
  {
    assert Without([r], '-') == [r];
    assert Without(['-', r], '-') == Without([r], '-');
  }

  /** Lower-casing and removing '-' can be done in either order. */
  lemma {:induction false} ToLowerWithout(s: string)
    ensures Without(ToLowerString(s), '-') == ToLowerString(Without(s, '-'))
  {
    if |s| > 0 {
      ToLowerWithout(s[1..]);
      assert ToLowerString(s)[1..] == ToLowerString(s[1..]);
      assert ToLowerString(s)[0] == ToLower(s[0]);
      if s[0] != '-' {
        assert [s[0]] + Without(s[1..], '-') == Without(s, '-');
        assert ToLowerString([s[0]] + Without(s[1..], '-')) == [ToLower(s[0])] + ToLowerString(Without(s[1..], '-'));
      }
    }
  }

  /** The type name: the text after the last '.' of the full name. */
  function TypeName(fullTypeName: string): (t: string)
    ensures '.' !in t
    ensures |t| <= |fullTypeName| && t == fullTypeName[|fullTypeName| - |t|..]
  {
    After(fullTypeName, '.')
  }

  /**
   * What TypeAsIdentifierPart returns for a type name without '-' (every
   * named Go type): no upper-case rune, the lower-cased name once the dashes are
   * removed, and one dash per upper-case rune after the first.
   */
  lemma KebabShape(t: string)
    requires '-' !in t
    ensures forall i | 0 <= i < |ToLowerString(Dashed(t))| :: !IsUpper(ToLowerString(Dashed(t))[i])
    ensures Without(ToLowerString(Dashed(t)), '-') == ToLowerString(t)
    ensures |ToLowerString(Dashed(t))| == |t| + UpperAfterFirst(t)
  {
    DashedShape(t);
    ToLowerWithout(Dashed(t));
  }

  /**
   * TypeAsIdentifierPart: the type name with a '-' written before each
   * upper-case rune but the first, then lower-cased.
   */
  method TypeAsIdentifierPart(fullTypeName: string) returns (part: string)
    ensures part == ToLowerString(Dashed(TypeName(fullTypeName)))
  {
    var typeName := TypeName(fullTypeName);
    var buf := "";
    for i := 0 to |typeName|
      invariant buf == Dashed(typeName[..i])
    {
      var r := typeName[i];
      DashedSnoc(typeName, i);
      if IsUpper(r) {
        if i > 0 {
          buf := buf + "-";
        }
      }
      buf := buf + [r];
    }
    assert typeName[..|typeName|] == typeName;
    part := ToLowerString(buf);
  }
}
