/**
 * The pieces of Go's `strings` and `path` packages that the core uses:
 * `strings.Join`, `strings.Split` on a one-character separator,
 * `strings.LastIndex` of one character, `strings.Fields`, and their round trips.
 */
module Strs {
  import opened Runes

  /** strings.Join: the parts with `sep` between neighbours. */
  function Join(parts: seq<string>, sep: string): string
  {
    if |parts| == 0 then ""
    else if |parts| == 1 then parts[0]
    else parts[0] + sep + Join(parts[1..], sep)
  }

  /** The index of the first `c` in `s`, or -1 when there is none. */
  function IndexOf(s: string, c: char): (r: int)
    ensures -1 <= r < |s|
    ensures r >= 0 ==> s[r] == c
    ensures forall j | 0 <= j < r :: s[j] != c
    ensures r < 0 <==> c !in s
  {
    if |s| == 0 then -1
    else if s[0] == c then 0
    else var i := IndexOf(s[1..], c); (if i < 0 then -1 else i + 1)
  }

  /** strings.LastIndex for a one-character needle: the last index of `c`, or -1. */
  function LastIndexOf(s: string, c: char): (r: int)
    ensures -1 <= r < |s|
    ensures r >= 0 ==> s[r] == c
    ensures forall j | r < j < |s| :: s[j] != c
    ensures r < 0 <==> c !in s
  {
    if |s| == 0 then -1
    else if s[|s| - 1] == c then |s| - 1
    else LastIndexOf(s[..|s| - 1], c)
  }

  /** The text after the last `c` (all of `s` when there is no `c`), as `s[LastIndex(s, c)+1:]` in Go. */
  function After(s: string, c: char): (r: string)
    ensures c !in r
    ensures |r| <= |s| && r == s[|s| - |r|..]
  {
    s[LastIndexOf(s, c) + 1..]
  }

  /** What follows the last `c` of `p + [c] + tail` is `tail`, when `tail` holds no `c`. */
  lemma AfterLast(p: string, c: char, tail: string)
    requires c !in tail
    ensures After(p + [c] + tail, c) == tail
  {
    var s := p + [c] + tail;
    assert s[|p|] == c;
    assert forall j | |p| < j < |s| :: s[j] == tail[j - |p| - 1];
    assert s[|p| + 1..] == tail;
  }

  /** The two halves of a concatenation are its prefix and its suffix. */
  lemma Halves<T>(a: seq<T>, b: seq<T>)
    ensures (a + b)[..|a|] == a && (a + b)[|a|..] == b
  {
  }

  /** Concatenation is associative. */
  lemma Assoc<T>(a: seq<T>, b: seq<T>, c: seq<T>)
    ensures a + b + c == a + (b + c)
  {
  }

  /** strings.Split with a one-character separator: the pieces between the separators. */
  function Split(s: string, c: char): (r: seq<string>)
    ensures |r| >= 1
    decreases |s|
  {
    var i := IndexOf(s, c);
    if i < 0 then [s] else [s[..i]] + Split(s[i + 1..], c)
  }

  /** Joining the pieces of a split with the separator gives back the text. */
  lemma {:induction false} JoinSplit(s: string, c: char)
    ensures Join(Split(s, c), [c]) == s
    decreases |s|
  {
    var i := IndexOf(s, c);
    if i >= 0 {
      var rest := s[i + 1..];
      JoinSplit(rest, c);
      JoinCons(s[..i], Split(rest, c), [c]);
      Around(s, i);
    }
  }

  /** A text is what comes before position `i`, the character there, and what comes after. */
  lemma Around(s: string, i: nat)
    requires i < |s|
    ensures s == s[..i] + [s[i]] + s[i + 1..]
  {
    assert s[i..] == [s[i]] + s[i + 1..];
    assert s == s[..i] + s[i..];
  }

  /** No piece of a split holds the separator. */
  lemma {:induction false} SplitPieces(s: string, c: char)
    ensures forall i | 0 <= i < |Split(s, c)| :: c !in Split(s, c)[i]
    decreases |s|
  {
    var i := IndexOf(s, c);
    if i >= 0 {
      SplitPieces(s[i + 1..], c);
      assert c !in s[..i];
    }
  }

  /** Joining a part in front of at least one more puts one separator between them. */
  lemma JoinCons(head: string, tail: seq<string>, sep: string)
    requires |tail| >= 1
    ensures Join([head] + tail, sep) == head + sep + Join(tail, sep)
  {
    assert ([head] + tail)[1..] == tail;
  }

  /** Splitting parts that do not contain the separator, joined by it, gives back the parts. */
  lemma {:induction false} SplitJoin(parts: seq<string>, c: char)
    requires |parts| >= 1
    requires forall i | 0 <= i < |parts| :: c !in parts[i]
    ensures Split(Join(parts, [c]), c) == parts
  {
    if |parts| > 1 {
      var p, tail := parts[0], Join(parts[1..], [c]);
      var s := p + [c] + tail;
      assert Join(parts, [c]) == s;
      IndexOfAfter(p, c, tail);
      assert s[..|p|] == p;
      assert s[|p| + 1..] == tail;
      SplitJoin(parts[1..], c);
    }
  }

  /** The first separator of `p + [c] + tail` sits right after `p` when `p` does not contain it. */
  lemma {:induction false} IndexOfAfter(p: string, c: char, tail: string)
    requires c !in p
    ensures IndexOf(p + [c] + tail, c) == |p|
  {
    if |p| > 0 {
      assert (p + [c] + tail)[1..] == p[1..] + [c] + tail;
      IndexOfAfter(p[1..], c, tail);
    }
  }

  /** Joining a prefix and a suffix of the parts, with the separator between, joins all of them. */
  lemma {:induction false} JoinAt(parts: seq<string>, sep: string, k: nat)
    requires 0 < k < |parts|
    ensures Join(parts[..k], sep) + sep + Join(parts[k..], sep) == Join(parts, sep)
  {
    if k > 1 {
      JoinAt(parts[1..], sep, k - 1);
      assert parts[1..][..k - 1] == parts[..k][1..];
      assert parts[1..][k - 1..] == parts[k..];
    } else {
      assert parts[..1] == [parts[0]];
      assert parts[1..] == parts[k..];
    }
  }

  /** The length of a join: the parts' lengths plus one separator between each pair of neighbours. */
  lemma {:induction false} JoinLength(parts: seq<string>, sep: string)
    requires |parts| >= 1
    ensures |Join(parts, sep)| == TotalLength(parts) + (|parts| - 1) * |sep|
  {
    if |parts| > 1 {
      JoinLength(parts[1..], sep);
    }
  }

  /** The sum of the lengths of the parts. */
  function TotalLength(parts: seq<string>): nat
  {
    if |parts| == 0 then 0 else |parts[0]| + TotalLength(parts[1..])
  }

  /** The text with every `c` removed. */
  function Without(s: string, c: char): (r: string)
    ensures c !in r
    ensures |r| <= |s|
  {
    if |s| == 0 then "" else (if s[0] == c then "" else [s[0]]) + Without(s[1..], c)
  }

  lemma {:induction false} WithoutConcat(a: string, b: string, c: char)
    ensures Without(a + b, c) == Without(a, c) + Without(b, c)
  {
    if |a| == 0 {
      assert a + b == b;
    } else {
      assert (a + b)[0] == a[0];
      assert (a + b)[1..] == a[1..] + b;
      var h := if a[0] == c then "" else [a[0]];
      var x, y := Without(a[1..], c), Without(b, c);
      WithoutConcat(a[1..], b, c);
      assert h + (x + y) == (h + x) + y;
    }
  }

  lemma {:induction false} WithoutAbsent(s: string, c: char)
    requires c !in s
    ensures Without(s, c) == s
  {
    if |s| > 0 {
      WithoutAbsent(s[1..], c);
    }
  }

  /** The one-character text of `c` has nothing left once `c` is dropped. */
  lemma WithoutOnly(c: char)
    ensures Without([c], c) == []
  {
    assert [c][1..] == [];
  }

  /** The concatenation of the parts, with nothing between them. */
  function Concat(parts: seq<string>): string
  {
    if |parts| == 0 then "" else parts[0] + Concat(parts[1..])
  }

  /** The text with every white-space character removed. */
  function Squeeze(s: string): (r: string)
    ensures forall i | 0 <= i < |r| :: !IsSpace(r[i])
  {
    if |s| == 0 then "" else (if IsSpace(s[0]) then "" else [s[0]]) + Squeeze(s[1..])
  }

  /** The longest prefix of `s` that holds no white space. */
  function Word(s: string): (w: string)
    ensures |w| <= |s| && w == s[..|w|]
    ensures forall i | 0 <= i < |w| :: !IsSpace(w[i])
    ensures |w| < |s| ==> IsSpace(s[|w|])
  {
    if |s| == 0 || IsSpace(s[0]) then "" else [s[0]] + Word(s[1..])
  }

  /** strings.Fields: the maximal runs of non-space characters, in order. */
  function Fields(s: string): (r: seq<string>)
    ensures forall j | 0 <= j < |r| :: r[j] != [] && forall k | 0 <= k < |r[j]| :: !IsSpace(r[j][k])
    decreases |s|
  {
    if |s| == 0 then []
    else if IsSpace(s[0]) then Fields(s[1..])
    else var w := Word(s); [w] + Fields(s[|w|..])
  }

  /** The fields, put back together, are the text without its white space. */
  lemma {:induction false} FieldsConcat(s: string)
    ensures Concat(Fields(s)) == Squeeze(s)
    decreases |s|
  {
    if |s| > 0 {
      if IsSpace(s[0]) {
        FieldsConcat(s[1..]);
      } else {
        var w := Word(s);
        FieldsConcat(s[|w|..]);
        assert Fields(s) == [w] + Fields(s[|w|..]);
        assert ([w] + Fields(s[|w|..]))[1..] == Fields(s[|w|..]);
        SqueezeWord(s);
      }
    }
  }

  /** Squeezing a text that starts with a word keeps the word. */
  lemma {:induction false} SqueezeWord(s: string)
    ensures Squeeze(s) == Word(s) + Squeeze(s[|Word(s)|..])
  {
    if |s| > 0 && !IsSpace(s[0]) {
      SqueezeWord(s[1..]);
    }
  }

  /** A text has no fields exactly when it is all white space. */
  lemma FieldsEmpty(s: string)
    ensures Fields(s) == [] <==> Squeeze(s) == []
  {
    FieldsConcat(s);
    if Fields(s) != [] {
      var fs := Fields(s);
      assert Concat(fs) == fs[0] + Concat(fs[1..]);
    }
  }

  /** A word ends at the first white space. */
  lemma {:induction false} WordSpace(s: string, x: char, t: string)
    requires IsSpace(x)
    ensures Word(s + [x] + t) == Word(s)
  {
    if |s| == 0 {
      assert (s + [x] + t)[0] == x;
    } else {
      assert (s + [x] + t)[0] == s[0];
      assert (s + [x] + t)[1..] == s[1..] + [x] + t;
      WordSpace(s[1..], x, t);
    }
  }

  /** The fields on both sides of a white-space character are the fields of the whole, in order. */
  lemma {:induction false} FieldsAtSpace(s: string, x: char, t: string)
    requires IsSpace(x)
    ensures Fields(s + [x] + t) == Fields(s) + Fields(t)
    decreases |s|
  {
    var u := s + [x] + t;
    if |s| == 0 {
      assert u[0] == x && u[1..] == t;
    } else if IsSpace(s[0]) {
      assert u[0] == s[0] && u[1..] == s[1..] + [x] + t;
      FieldsAtSpace(s[1..], x, t);
    } else {
      assert u[0] == s[0];
      var w := Word(s);
      WordSpace(s, x, t);
      assert u[|w|..] == s[|w|..] + [x] + t;
      FieldsAtSpace(s[|w|..], x, t);
      assert Fields(s) == [w] + Fields(s[|w|..]);
      assert Fields(u) == [w] + Fields(u[|w|..]);
    }
  }

  /** A non-empty text without white space is one field. */
  lemma {:induction false} FieldsWhole(s: string)
    requires |s| > 0 && forall i | 0 <= i < |s| :: !IsSpace(s[i])
    ensures Fields(s) == [s]
  {
    WordWhole(s);
    assert s[|s|..] == [];
  }

  /** A text without white space is one word. */
  lemma {:induction false} WordWhole(s: string)
    requires forall i | 0 <= i < |s| :: !IsSpace(s[i])
    ensures Word(s) == s
  {
    if |s| > 0 {
      WordWhole(s[1..]);
      assert s == [s[0]] + s[1..];
    }
  }

  /** Joining two non-empty lists of parts one after the other puts one separator between them. */
  lemma JoinConcat(a: seq<string>, b: seq<string>, sep: string)
    requires |a| > 0 && |b| > 0
    ensures Join(a + b, sep) == Join(a, sep) + sep + Join(b, sep)
  {
    JoinAt(a + b, sep, |a|);
    assert (a + b)[..|a|] == a && (a + b)[|a|..] == b;
  }

  /** Every character of a field is a non-space character of the text. */
  lemma {:induction false} FieldsChars(s: string, ok: char -> bool)
    requires forall i | 0 <= i < |s| :: IsSpace(s[i]) || ok(s[i])
    ensures forall j, k | 0 <= j < |Fields(s)| && 0 <= k < |Fields(s)[j]| :: ok(Fields(s)[j][k])
    decreases |s|
  {
    if |s| > 0 {
      if IsSpace(s[0]) {
        FieldsChars(s[1..], ok);
      } else {
        var w := Word(s);
        FieldsChars(s[|w|..], ok);
        assert Fields(s) == [w] + Fields(s[|w|..]);
      }
    }
  }
}
