/**
 The canonical printer of utils/jcs.py.
 */
module Jcs {
  import opened Texts
  import opened Decimals
  import opened KeySort
  import opened Json

  datatype Error = ValueError | TypeError
  datatype Result<+T> = Ok(value: T) | Err(error: Error)

  const QUOTE: CodePoint := 0x22
  const BACKSLASH: CodePoint := 0x5C
  const COMMA: CodePoint := 0x2C
  const COLON: CodePoint := 0x3A
  const LBRACKET: CodePoint := 0x5B
  const RBRACKET: CodePoint := 0x5D
  const LBRACE: CodePoint := 0x7B
  const RBRACE: CodePoint := 0x7D

  function Canonicalize(v: Json): Result<Text>
    decreases v
  {
    match v
    case Null => Ok(Chars("null"))
    case Bool(b) => Ok(if b then Chars("true") else Chars("false"))
    case Int(n) => Ok(PrintInt(n))
    case Float(d) => Ok(FormatNumber(d))
    case NonFinite(_) => Err(ValueError)
    case Str(s) => Ok(Quoted(s))
    case List(vs) => Wrap(LBRACKET, JoinAll(CanonicalizeAll(vs)), RBRACKET)
    case Tuple(vs) => Wrap(LBRACKET, JoinAll(CanonicalizeAll(vs)), RBRACKET)
    case Dict(es) => Wrap(LBRACE, JoinAll(Label(SortByKey(CanonicalizeEntries(es)))), RBRACE)
    case Unsupported => Err(TypeError)
  }

  function CanonicalizeAll(vs: seq<Json>): (r: seq<Result<Text>>)
    ensures |r| == |vs|
    ensures forall i | 0 <= i < |vs| :: r[i] == Canonicalize(vs[i])
    decreases vs
  {
    if vs == [] then [] else [Canonicalize(vs[0])] + CanonicalizeAll(vs[1..])
  }

  function CanonicalizeEntries(es: Entries): (r: seq<(Text, Result<Text>)>)
    ensures |r| == |es|
    ensures forall i | 0 <= i < |es| ::
              (assert es decreases to es[i]; assert es[i] decreases to es[i].1;
               r[i] == (es[i].0, Canonicalize(es[i].1)))
    decreases es
  {
    if es == [] then [] else
      assert es decreases to es[0]; assert es[0] decreases to es[0].1;
      [(es[0].0, Canonicalize(es[0].1))] + CanonicalizeEntries(es[1..])
  }

  function Pair(key: Text, value: Result<Text>): Result<Text> {
    match value
    case Ok(t) => Ok(Quoted(key) + [COLON] + t)
    case Err(e) => Err(e)
  }

  /** `"key":value` for each entry; an error in a value stays where it is. */
  function Label(es: seq<(Text, Result<Text>)>): (r: seq<Result<Text>>)
    ensures |r| == |es|
    ensures forall i | 0 <= i < |es| :: r[i] == Pair(es[i].0, es[i].1)
  {
    if es == [] then [] else [Pair(es[0].0, es[0].1)] + Label(es[1..])
  }

  /** `",".join(...)`; the first failing element raises. */
  function JoinAll(rs: seq<Result<Text>>): Result<Text> {
    if rs == [] then Ok([])
    else if rs[0].Err? || |rs| == 1 then rs[0]
    else match JoinAll(rs[1..])
         case Ok(t) => Ok(rs[0].value + [COMMA] + t)
         case Err(e) => Err(e)
  }

  function Wrap(open: CodePoint, body: Result<Text>, close: CodePoint): Result<Text> {
    match body
    case Ok(t) => Ok([open] + t + [close])
    case Err(e) => Err(e)
  }

  // ----------------------------------------------------------------- strings

  function HexDigit(n: int): CodePoint
    requires 0 <= n < 16
  {
    if n < 10 then 0x30 + n else 0x61 + n - 10
  }

  function EscapeChar(c: CodePoint): (t: Text)
    ensures t != []
  {
    if c < 0x20 then
      if c == 0x08 then Chars("\\b")
      else if c == 0x09 then Chars("\\t")
      else if c == 0x0A then Chars("\\n")
      else if c == 0x0C then Chars("\\f")
      else if c == 0x0D then Chars("\\r")
      else [BACKSLASH, 'u' as int, ZERO, ZERO, HexDigit(c / 16), HexDigit(c % 16)]
    else if c == QUOTE then [BACKSLASH, QUOTE]
    else if c == BACKSLASH then [BACKSLASH, BACKSLASH]
    else [c]
  }

  function Escaped(s: Text): Text {
    if s == [] then [] else EscapeChar(s[0]) + Escaped(s[1..])
  }

  function Quoted(s: Text): Text {
    [QUOTE] + Escaped(s) + [QUOTE]
  }

  lemma {:induction false} EscapedSnoc(s: Text, c: CodePoint)
    ensures Escaped(s + [c]) == Escaped(s) + EscapeChar(c)
  {
    if s == [] {
      assert s + [c] == [c];
    } else {
      assert (s + [c])[1..] == s[1..] + [c];
      EscapedSnoc(s[1..], c);
    }
  }

  /** The branch of the loop body one character takes. */
  method Render(cp: CodePoint) returns (piece: Text)
    ensures piece == EscapeChar(cp)
  {
    hide Chars, HexDigit;
    if cp < 0x20 {
      if cp == 0x08 { piece := Chars("\\b"); }
      else if cp == 0x09 { piece := Chars("\\t"); }
      else if cp == 0x0A { piece := Chars("\\n"); }
      else if cp == 0x0C { piece := Chars("\\f"); }
      else if cp == 0x0D { piece := Chars("\\r"); }
      else { piece := [BACKSLASH, 'u' as int, ZERO, ZERO, HexDigit(cp / 16), HexDigit(cp % 16)]; }
    } else if cp == QUOTE {
      piece := [BACKSLASH, QUOTE];
    } else if cp == BACKSLASH {
      piece := [BACKSLASH, BACKSLASH];
    } else {
      piece := [cp];
    }
  }

  /** `_escape_string`: appends each character's rendering to `out` and joins. */
  method EscapeString(s: Text) returns (r: Text)
    ensures r == Quoted(s)
  {
    hide EscapeChar;
    var out: Text := [QUOTE];
    for i := 0 to |s|
      invariant out == [QUOTE] + Escaped(s[..i])
    {
      var cp := s[i];
      var piece := Render(cp);
      out := out + piece;
      EscapedSnoc(s[..i], cp);
      assert s[..i + 1] == s[..i] + [cp];
    }
    assert s[..|s|] == s;
    r := out + [QUOTE];
  }

  // ----------------------------------------------------------------- numbers

  /** Digits of |m| padded so that at least one stands before the point. */
  function Figures(d: Decimal): (t: Text)
    ensures |t| > d.k && AllDigits(t)
  {
    PadLeft(Digits(Abs(d.m)), d.k + 1)
  }

  /** The power of ten of the leading digit. */
  function Exponent(d: Decimal): int {
    |Digits(Abs(d.m))| - 1 - d.k
  }

  /** Integer-valued floats lose their fraction; others print as Python's `repr`, positionally
      from 0.0001 on and below that with an exponent of at least two digits. */
  function FormatNumber(d: Decimal): (t: Text)
    ensures t != []
  {
    if d.k == 0 then PrintInt(d.m)
    else if Exponent(d) >= -4 then Fixed(d)
    else Scientific(d.m < 0, Digits(Abs(d.m)), PadLeft(Digits(-Exponent(d)), 2))
  }

  function Fixed(d: Decimal): (t: Text)
    ensures t != []
  {
    var fs := Figures(d);
    Positional(d.m < 0, fs[..|fs| - d.k], fs[|fs| - d.k..])
  }

  function Positional(neg: bool, ip: Text, fp: Text): (t: Text)
    ensures t != []
  {
    (if neg then [MINUS] else []) + ip + [POINT] + fp
  }

  const LETTER_E: CodePoint := 0x65

  /** `d.ddde-xx`, the point only when a digit follows it. */
  function Scientific(neg: bool, ds: Text, exponent: Text): (t: Text)
    requires ds != []
    ensures t != []
  {
    (if neg then [MINUS] else []) + [ds[0]] + (if |ds| > 1 then [POINT] + ds[1..] else []) + [LETTER_E, MINUS] + exponent
  }

  // --------------------------------------- same value, same text (either way)

  /** Insertion order, list or tuple, 99 or 99.0: none of it shows in the text,
      nor in which error is raised. */
  lemma {:induction false} SameValueSameText(v: Json, w: Json)
    requires WellFormed(v) && WellFormed(w) && SameValue(v, w)
    ensures Canonicalize(v) == Canonicalize(w)
    decreases v
  {
    match v
    case List(vs) => SameItems(v, w);
    case Tuple(vs) => SameItems(v, w);
    case Dict(es) =>
      var fs := w.entries;
      var a, b := CanonicalizeEntries(es), CanonicalizeEntries(fs);
      forall e | e in a ensures e in b {
        var i :| 0 <= i < |a| && a[i] == e;
        assert HasKey(es, es[i].0);
        assert HasKey(fs, es[i].0);
        var j :| 0 <= j < |fs| && fs[j].0 == es[i].0;
        SameValueSameText(es[i].1, fs[j].1);
        assert b[j] == e;
      }
      forall e | e in b ensures e in a {
        var j :| 0 <= j < |b| && b[j] == e;
        assert HasKey(fs, fs[j].0);
        assert HasKey(es, fs[j].0);
        var i :| 0 <= i < |es| && es[i].0 == fs[j].0;
        SameValueSameText(es[i].1, fs[j].1);
        assert a[i] == e;
      }
      SameMembersSameSort(a, b);
    case _ =>
  }

  lemma SameItems(v: Json, w: Json)
    requires IsSequence(v) && IsSequence(w) && |v.items| == |w.items|
    requires WellFormed(v) && WellFormed(w) && SameValue(v, w)
    ensures Canonicalize(v) == Canonicalize(w)
    decreases v, 0
  {
    forall i | 0 <= i < |v.items| ensures Canonicalize(v.items[i]) == Canonicalize(w.items[i]) {
      SameValueSameText(v.items[i], w.items[i]);
    }
    assert CanonicalizeAll(v.items) == CanonicalizeAll(w.items);
  }

  lemma SameMembersSameSort<V(!new)>(a: seq<(Text, V)>, b: seq<(Text, V)>)
    requires DistinctKeys(a) && DistinctKeys(b) && SameMembers(a, b)
    ensures SortByKey(a) == SortByKey(b)
  {
    SortSorts(a);
    SortSorts(b);
    SortSameMembers(a);
    SortSameMembers(b);
    forall e ensures e in SortByKey(a) <==> e in SortByKey(b) {
      assert e in a <==> e in b;
    }
    SortedUnique(SortByKey(a), SortByKey(b));
  }
}
