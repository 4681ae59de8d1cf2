/**
 Texts as sequences of Unicode code points (so that a lone surrogate, which a
 Python string may hold, is representable), the two orders on them that RFC 8785
 distinguishes, and the splitting and joining the addon uses on its tokens.
 */
module Texts {

  datatype Option<+T> = None | Some(value: T)

  function Or<T>(o: Option<T>, default: T): T {
    match o
    case Some(v) => v
    case None => default
  }

  const DOT: CodePoint := 0x2E

  type CodePoint = c: int | 0 <= c < 0x110000
  type Text = seq<CodePoint>

  /** The code points of an ASCII literal. */
  function Chars(s: string): (t: Text)
    ensures |t| == |s|
    ensures forall i | 0 <= i < |s| :: t[i] == s[i] as int
  {
    seq(|s|, i requires 0 <= i < |s| => s[i] as int)
  }

  predicate IsSurrogate(c: CodePoint) {
    0xD800 <= c <= 0xDFFF
  }

  /** No surrogate: exactly the texts that `str.encode("utf-8")` accepts. */
  predicate Encodable(t: Text) {
    forall i | 0 <= i < |t| :: !IsSurrogate(t[i])
  }

  // ------------------------------------------------------------------ orders

  /** Lexicographic order: Python's `<` on strings, or the code-unit order on UTF-16. */
  predicate LexLess(a: seq<int>, b: seq<int>) {
    b != [] && (a == [] || a[0] < b[0] || (a[0] == b[0] && LexLess(a[1..], b[1..])))
  }

  lemma {:induction false} LexIrreflexive(a: seq<int>)
    ensures !LexLess(a, a)
  {
    if a != [] { LexIrreflexive(a[1..]); }
  }

  lemma {:induction false} LexTotal(a: seq<int>, b: seq<int>)
    ensures LexLess(a, b) || a == b || LexLess(b, a)
  {
    if a != [] && b != [] && a[0] == b[0] {
      LexTotal(a[1..], b[1..]);
      assert a == [a[0]] + a[1..] && b == [b[0]] + b[1..];
    }
  }

  lemma {:induction false} LexTransitive(a: seq<int>, b: seq<int>, c: seq<int>)
    requires LexLess(a, b) && LexLess(b, c)
    ensures LexLess(a, c)
  {
    if a != [] && a[0] == b[0] == c[0] {
      LexTransitive(a[1..], b[1..], c[1..]);
    }
  }

  lemma LexAsymmetric(a: seq<int>, b: seq<int>)
    requires LexLess(a, b)
    ensures !LexLess(b, a)
  {
    if LexLess(b, a) {
      LexTransitive(a, b, a);
      LexIrreflexive(a);
    }
  }

  lemma {:induction false} LexCommonPrefix(p: seq<int>, a: seq<int>, b: seq<int>)
    ensures LexLess(p + a, p + b) <==> LexLess(a, b)
  {
    if p == [] {
      assert p + a == a && p + b == b;
    } else {
      assert (p + a)[1..] == p[1..] + a && (p + b)[1..] == p[1..] + b;
      LexCommonPrefix(p[1..], a, b);
    }
  }

  // ------------------------------------------------------------------ UTF-16

  /** The UTF-16 code units of one code point. */
  function Units(c: CodePoint): (u: seq<int>)
    ensures u != []
  {
    if c < 0x10000 then [c]
    else [0xD800 + (c - 0x10000) / 0x400, 0xDC00 + (c - 0x10000) % 0x400]
  }

  /** Beyond the BMP a high and a low surrogate, which carry ten bits each. */
  lemma UnitsAre(c: CodePoint)
    ensures c <= 0xFFFF ==> Units(c) == [c]
    ensures c > 0xFFFF ==> |Units(c)| == 2 && 0xD800 <= Units(c)[0] <= 0xDBFF && 0xDC00 <= Units(c)[1] <= 0xDFFF &&
                           c == 0x10000 + 0x400 * (Units(c)[0] - 0xD800) + (Units(c)[1] - 0xDC00)
  {
  }

  function Utf16(t: Text): seq<int> {
    if t == [] then [] else Units(t[0]) + Utf16(t[1..])
  }

  /** One of the two lies above the surrogates in the BMP, the other outside the BMP:
      the only pairs that the two orders rank differently. */
  predicate Crosses(c: CodePoint, d: CodePoint) {
    || (0xE000 <= c <= 0xFFFF && 0x10000 <= d)
    || (0xE000 <= d <= 0xFFFF && 0x10000 <= c)
  }

  /** The first code points at which the two texts differ cross. */
  predicate FirstDifferenceCrosses(a: Text, b: Text) {
    a != [] && b != [] &&
    (if a[0] == b[0] then FirstDifferenceCrosses(a[1..], b[1..]) else Crosses(a[0], b[0]))
  }

  /** On well-formed texts, code point order and UTF-16 order agree exactly when the
      first difference does not cross. */
  lemma {:induction false} OrdersAgree(a: Text, b: Text)
    requires Encodable(a) && Encodable(b)
    ensures (LexLess(a, b) <==> LexLess(Utf16(a), Utf16(b))) <==> !FirstDifferenceCrosses(a, b)
  {
    if a == [] || b == [] {
    } else if a[0] == b[0] {
      OrdersAgree(a[1..], b[1..]);
      LexCommonPrefix(Units(a[0]), Utf16(a[1..]), Utf16(b[1..]));
    } else {
      FirstUnitsDecide(a[0], b[0], Utf16(a[1..]), Utf16(b[1..]));
    }
  }

  lemma FirstUnitsDecide(c: CodePoint, d: CodePoint, x: seq<int>, y: seq<int>)
    requires c != d && !IsSurrogate(c) && !IsSurrogate(d)
    ensures LexLess(Units(c) + x, Units(d) + y) <==> (if Crosses(c, d) then d < c else c < d)
  {
    var u, v := Units(c) + x, Units(d) + y;
    assert u[0] == Units(c)[0] && v[0] == Units(d)[0];
    if 0x10000 <= c && 0x10000 <= d && u[0] == v[0] {
      assert u[1..][0] == Units(c)[1] && v[1..][0] == Units(d)[1];
    }
  }

  /** UTF-16 loses nothing on well-formed texts. */
  lemma {:induction false} Utf16Injective(a: Text, b: Text)
    requires Encodable(a) && Encodable(b) && Utf16(a) == Utf16(b)
    ensures a == b
  {
    if a == [] || b == [] {
      assert |a| > 0 ==> |Utf16(a)| > 0;
      assert |b| > 0 ==> |Utf16(b)| > 0;
    } else {
      var u, v := Utf16(a), Utf16(b);
      assert u[0] == Units(a[0])[0] && v[0] == Units(b[0])[0];
      if 0x10000 <= a[0] && 0x10000 <= b[0] {
        assert u[1] == Units(a[0])[1] && v[1] == Units(b[0])[1];
      }
      assert a[0] == b[0];
      assert u[|Units(a[0])|..] == Utf16(a[1..]) && v[|Units(a[0])|..] == Utf16(b[1..]);
      Utf16Injective(a[1..], b[1..]);
      assert a == [a[0]] + a[1..] && b == [b[0]] + b[1..];
    }
  }

  // ------------------------------------------------------- splitting, joining

  /** The text before the first `sep`, or all of it (`s.split(sep)[0]`). */
  function Before(t: Text, sep: CodePoint): (r: Text)
    ensures sep !in r
    ensures sep !in t ==> r == t
  {
    if t == [] || t[0] == sep then [] else [t[0]] + Before(t[1..], sep)
  }

  lemma {:induction false} BeforeFirst(a: Text, sep: CodePoint, b: Text)
    requires sep !in a
    ensures Before(a + ([sep] + b), sep) == a
  {
    var t := a + ([sep] + b);
    if a != [] {
      assert t[1..] == a[1..] + ([sep] + b);
      BeforeFirst(a[1..], sep, b);
    }
  }

  /** `t.split(sep)` for a one-character separator. */
  function Split(t: Text, sep: CodePoint): (parts: seq<Text>)
    ensures parts != []
  {
    if t == [] then [[]]
    else
      var rest := Split(t[1..], sep);
      if t[0] == sep then [[]] + rest else [[t[0]] + rest[0]] + rest[1..]
  }

  /** Splitting at the first separator. */
  lemma {:induction false} SplitFirst(a: Text, sep: CodePoint, b: Text)
    requires sep !in a
    ensures Split(a + [sep] + b, sep) == [a] + Split(b, sep)
  {
    var t := a + [sep] + b;
    if a == [] {
      assert t[1..] == b;
    } else {
      assert t[1..] == a[1..] + [sep] + b;
      SplitFirst(a[1..], sep, b);
      assert [a[0]] + a[1..] == a;
    }
  }

  lemma {:induction false} SplitNone(a: Text, sep: CodePoint)
    requires sep !in a
    ensures Split(a, sep) == [a]
  {
    if a != [] {
      SplitNone(a[1..], sep);
      assert [a[0]] + a[1..] == a;
    }
  }

  lemma PrefixCut<T>(p: seq<T>, x: seq<T>, y: seq<T>)
    ensures p + x == p + y <==> x == y
  {
    assert (p + x)[|p|..] == x && (p + y)[|p|..] == y;
  }

  /** Two texts that agree up to a separator neither side contains before it. */
  lemma CutAtFirst(a: Text, sep: CodePoint, b: Text, a': Text, b': Text)
    requires sep !in a && sep !in a'
    requires a + [sep] + b == a' + [sep] + b'
    ensures a == a' && b == b'
  {
    SplitFirst(a, sep, b);
    SplitFirst(a', sep, b');
    assert a == Split(a + [sep] + b, sep)[0];
    assert b == (a + [sep] + b)[|a| + 1..] && b' == (a' + [sep] + b')[|a| + 1..];
  }

  /** The same, from the right: no separator after it on either side. */
  lemma CutAtLast(a: Text, sep: CodePoint, b: Text, a': Text, b': Text)
    requires sep !in b && sep !in b'
    requires a + [sep] + b == a' + [sep] + b'
    ensures a == a' && b == b'
  {
    LastSeparator(a, sep, b);
    LastSeparator(a', sep, b');
    var t, t' := a + [sep] + b, a' + [sep] + b';
    assert |a| == |a'|;
    assert a == t[..|a|] && a' == t'[..|a|];
    assert b == t[|a| + 1..] && b' == t'[|a| + 1..];
  }

  lemma LastSeparator(a: Text, sep: CodePoint, b: Text)
    requires sep !in b
    ensures (a + [sep] + b)[|a|] == sep
    ensures forall i | |a| < i < |a + [sep] + b| :: (a + [sep] + b)[i] != sep
  {
    var t := a + [sep] + b;
    forall i | |a| < i < |t| ensures t[i] != sep {
      assert t[i] == b[i - |a| - 1];
    }
  }
}
