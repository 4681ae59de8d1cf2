/**
 A reader of compact JSON (RFC 8259 without optional white space), written independently
 of the printer, and the proof that it inverts the printer.
 */
module JsonReader {
  import opened Texts
  import opened Decimals
  import opened KeySort
  import opened Json
  import opened Jcs

  predicate StartsWith(t: Text, p: Text) {
    |p| <= |t| && t[..|p|] == p
  }

  // ----------------------------------------------------------------- strings

  predicate IsHex(c: CodePoint) {
    0x30 <= c <= 0x39 || 0x41 <= c <= 0x46 || 0x61 <= c <= 0x66
  }

  function HexVal(c: CodePoint): (n: nat)
    requires IsHex(c)
    ensures n < 16
  {
    if c <= 0x39 then c - 0x30 else if c <= 0x46 then c - 0x41 + 10 else c - 0x61 + 10
  }

  /** The unit of a leading \uXXXX escape. */
  function ReadUnit(t: Text): (u: Option<CodePoint>)
    ensures u.Some? ==> u.value < 0x10000 && |t| >= 6
  {
    if |t| >= 6 && t[0] == BACKSLASH && t[1] == 'u' as int &&
       IsHex(t[2]) && IsHex(t[3]) && IsHex(t[4]) && IsHex(t[5])
    then Some(0x1000 * HexVal(t[2]) + 0x100 * HexVal(t[3]) + 0x10 * HexVal(t[4]) + HexVal(t[5]))
    else None
  }

  /** One possibly escaped character, and how much text it took; a high surrogate escape
      followed by a low one is one character. */
  function ReadChar(t: Text): (r: Option<(CodePoint, nat)>)
    ensures r.Some? ==> 0 < r.value.1 <= |t|
  {
    if t == [] || t[0] < 0x20 || t[0] == QUOTE then None
    else if t[0] != BACKSLASH then Some((t[0], 1))
    else if |t| < 2 then None
    else if t[1] == 'u' as int then
      match ReadUnit(t)
      case None => None
      case Some(hi) =>
        match ReadUnit(t[6..])
        case Some(lo) =>
          if 0xD800 <= hi < 0xDC00 <= lo < 0xE000
          then Some((0x10000 + 0x400 * (hi - 0xD800) + (lo - 0xDC00), 12))
          else Some((hi, 6))
        case None => Some((hi, 6))
    else if t[1] == QUOTE || t[1] == BACKSLASH || t[1] == '/' as int then Some((t[1], 2))
    else if t[1] == 'b' as int then Some((0x08, 2))
    else if t[1] == 't' as int then Some((0x09, 2))
    else if t[1] == 'n' as int then Some((0x0A, 2))
    else if t[1] == 'f' as int then Some((0x0C, 2))
    else if t[1] == 'r' as int then Some((0x0D, 2))
    else None
  }

  /** The characters up to the closing quote. */
  function ReadChars(t: Text): (r: Option<(Text, Text)>)
    ensures r.Some? ==> |r.value.1| < |t|
    decreases |t|
  {
    if t != [] && t[0] == QUOTE then Some(([], t[1..]))
    else match ReadChar(t)
         case None => None
         case Some((c, n)) =>
           match ReadChars(t[n..])
           case None => None
           case Some((s, rest)) => Some(([c] + s, rest))
  }

  function ReadString(t: Text): (r: Option<(Text, Text)>)
    ensures r.Some? ==> |r.value.1| < |t|
  {
    if t != [] && t[0] == QUOTE then ReadChars(t[1..]) else None
  }

  // ----------------------------------------------------------------- numbers

  function DigitRun(t: Text): (n: nat)
    ensures n <= |t| && AllDigits(t[..n])
    ensures n < |t| ==> !IsDigit(t[n])
  {
    if t == [] || !IsDigit(t[0]) then 0
    else
      var n := DigitRun(t[1..]);
      assert t[..n + 1] == [t[0]] + t[1..][..n];
      n + 1
  }

  predicate IsE(c: CodePoint) {
    c == LETTER_E || c == 0x45
  }

  /** An optional minus, then int, frac and exp; no leading zeros. */
  function ReadNumber(t: Text): (r: Option<(Json, Text)>)
    ensures r.Some? ==> |r.value.1| < |t|
  {
    if t != [] && t[0] == MINUS then ReadMagnitude(true, t[1..]) else ReadMagnitude(false, t)
  }

  function ReadMagnitude(neg: bool, t: Text): (r: Option<(Json, Text)>)
    ensures r.Some? ==> |r.value.1| < |t|
  {
    var n := DigitRun(t);
    if n == 0 || (t[0] == ZERO && n > 1) then None
    else if n < |t| && t[n] == POINT then ReadFraction(neg, t[..n], t[n + 1..])
    else if n < |t| && IsE(t[n]) then ReadExponent(neg, t[..n], 0, t[n..])
    else Some((Int(Signed(neg, NatOf(t[..n]))), t[n..]))
  }

  function ReadFraction(neg: bool, ip: Text, t: Text): (r: Option<(Json, Text)>)
    requires AllDigits(ip)
    ensures r.Some? ==> |r.value.1| < |t|
  {
    var f := DigitRun(t);
    if f == 0 then None
    else
      assert AllDigits(ip + t[..f]);
      ReadExponent(neg, ip + t[..f], f, t[f..])
  }

  /** What may follow the digits `ds`, `f` of them behind the point: an exponent. */
  function ReadExponent(neg: bool, ds: Text, f: nat, t: Text): (r: Option<(Json, Text)>)
    requires AllDigits(ds)
    ensures r.Some? ==> |r.value.1| <= |t|
    ensures r.Some? && t != [] && IsE(t[0]) ==> |r.value.1| < |t|
  {
    if t == [] || !IsE(t[0]) then Some((Float(Normalize(Signed(neg, NatOf(ds)), f)), t))
    else
      var down := |t| > 1 && t[1] == MINUS;
      var v := if |t| > 1 && (t[1] == MINUS || t[1] == PLUS) then t[2..] else t[1..];
      var n := DigitRun(v);
      if n == 0 then None
      else Some((Float(Scaled(Signed(neg, NatOf(ds)), f, Signed(down, NatOf(v[..n])))), v[n..]))
  }

  /** m / 10^f * 10^x. */
  function Scaled(m: int, f: nat, x: int): Decimal {
    if x <= f then Normalize(m, f - x) else Decimal(m * Pow10(x - f), 0)
  }

  function Signed(neg: bool, n: int): int {
    if neg then -n else n
  }

  // ------------------------------------------------------------------ values

  function ReadValue(t: Text): (r: Option<(Json, Text)>)
    ensures r.Some? ==> |r.value.1| < |t|
    decreases |t|, 0
  {
    if t == [] then None
    else if t[0] == QUOTE then
      match ReadString(t)
      case Some((s, rest)) => Some((Str(s), rest))
      case None => None
    else if t[0] == LBRACKET then
      if |t| > 1 && t[1] == RBRACKET then Some((List([]), t[2..]))
      else match ReadItems(t[1..])
           case Some((vs, rest)) => Some((List(vs), rest))
           case None => None
    else if t[0] == LBRACE then
      if |t| > 1 && t[1] == RBRACE then Some((Dict([]), t[2..]))
      else match ReadMembers(t[1..])
           case Some((es, rest)) => Some((Dict(es), rest))
           case None => None
    else if StartsWith(t, Chars("null")) then Some((Null, t[4..]))
    else if StartsWith(t, Chars("true")) then Some((Bool(true), t[4..]))
    else if StartsWith(t, Chars("false")) then Some((Bool(false), t[5..]))
    else ReadNumber(t)
  }

  /** One or more values separated by commas, then the closing bracket. */
  function ReadItems(t: Text): (r: Option<(seq<Json>, Text)>)
    ensures r.Some? ==> |r.value.1| < |t|
    decreases |t|, 1
  {
    match ReadValue(t)
    case None => None
    case Some((v, rest)) =>
      if rest != [] && rest[0] == RBRACKET then Some(([v], rest[1..]))
      else if rest != [] && rest[0] == COMMA then
        match ReadItems(rest[1..])
        case Some((vs, end)) => Some(([v] + vs, end))
        case None => None
      else None
  }

  /** One `"key":value`. */
  function ReadMember(t: Text): (r: Option<((Text, Json), Text)>)
    ensures r.Some? ==> |r.value.1| < |t|
    decreases |t|, 1
  {
    match ReadString(t)
    case None => None
    case Some((k, colon)) =>
      if colon == [] || colon[0] != COLON then None
      else match ReadValue(colon[1..])
           case None => None
           case Some((v, rest)) => Some(((k, v), rest))
  }

  /** One or more members separated by commas, then the closing brace. */
  function ReadMembers(t: Text): (r: Option<(Entries, Text)>)
    ensures r.Some? ==> |r.value.1| < |t|
    decreases |t|, 2
  {
    match ReadMember(t)
    case None => None
    case Some((e, rest)) =>
      if rest != [] && rest[0] == RBRACE then Some(([e], rest[1..]))
      else if rest != [] && rest[0] == COMMA then
        match ReadMembers(rest[1..])
        case Some((es, end)) => Some(([e] + es, end))
        case None => None
      else None
  }

  // ------------------------------------------------------------ normal forms

  /** The value the text of `v` denotes: keys sorted, tuples as lists, 99.0 as 99. */
  function Canon(v: Json): Json
    decreases v
  {
    match v
    case Float(d) => if d.k == 0 then Int(d.m) else v
    case List(vs) => List(CanonAll(vs))
    case Tuple(vs) => List(CanonAll(vs))
    case Dict(es) => Dict(SortByKey(CanonEntries(es)))
    case _ => v
  }

  function CanonAll(vs: seq<Json>): (r: seq<Json>)
    ensures |r| == |vs|
    ensures forall i | 0 <= i < |vs| :: r[i] == Canon(vs[i])
    decreases vs
  {
    if vs == [] then [] else [Canon(vs[0])] + CanonAll(vs[1..])
  }

  function CanonEntries(es: Entries): (r: Entries)
    ensures |r| == |es|
    ensures forall i | 0 <= i < |es| ::
              (assert es decreases to es[i]; assert es[i] decreases to es[i].1;
               r[i] == (es[i].0, Canon(es[i].1)))
    decreases es
  {
    if es == [] then [] else
      assert es decreases to es[0]; assert es[0] decreases to es[0].1;
      [(es[0].0, Canon(es[0].1))] + CanonEntries(es[1..])
  }

  /** No digit, point or exponent continues a number. */
  predicate EndsNumber(rest: Text) {
    rest != [] ==> !IsDigit(rest[0]) && rest[0] != POINT && !IsE(rest[0])
  }

  /** Anything may follow the text of a value that is no number. */
  predicate LegalRest(v: Json, rest: Text) {
    IsNumber(v) ==> EndsNumber(rest)
  }

  // -------------------------------------------------- reading printed strings

  lemma ReadEscaped(c: CodePoint, rest: Text)
    ensures ReadChar(EscapeChar(c) + rest) == Some((c, |EscapeChar(c)|))
  {
    var t := EscapeChar(c) + rest;
    assert t[0] == EscapeChar(c)[0];
    if |EscapeChar(c)| >= 2 { assert t[1] == EscapeChar(c)[1]; }
    if |EscapeChar(c)| == 6 {
      assert t[2] == ZERO && t[3] == ZERO && t[4] == HexDigit(c / 16) && t[5] == HexDigit(c % 16);
      assert ReadUnit(t) == Some(c);
    }
  }

  lemma {:induction false} ReadCharsInverts(s: Text, rest: Text)
    ensures ReadChars(Escaped(s) + [QUOTE] + rest) == Some((s, rest))
  {
    var t := Escaped(s) + [QUOTE] + rest;
    if s == [] {
      assert t[1..] == rest;
    } else {
      var tail := Escaped(s[1..]) + [QUOTE] + rest;
      assert t == EscapeChar(s[0]) + tail;
      ReadEscaped(s[0], tail);
      assert t[0] == EscapeChar(s[0])[0] != QUOTE;
      assert t[|EscapeChar(s[0])|..] == tail;
      ReadCharsInverts(s[1..], rest);
      assert [s[0]] + s[1..] == s;
    }
  }

  lemma ReadStringInverts(s: Text, rest: Text)
    ensures ReadString(Quoted(s) + rest) == Some((s, rest))
  {
    var t := Quoted(s) + rest;
    assert t[1..] == Escaped(s) + [QUOTE] + rest;
    ReadCharsInverts(s, rest);
  }

  // -------------------------------------------------- reading printed numbers

  lemma {:induction false} DigitRunOf(ds: Text, rest: Text)
    requires AllDigits(ds) && (rest == [] || !IsDigit(rest[0]))
    ensures DigitRun(ds + rest) == |ds|
  {
    if ds == [] {
      assert ds + rest == rest;
    } else {
      assert (ds + rest)[1..] == ds[1..] + rest;
      DigitRunOf(ds[1..], rest);
    }
  }

  lemma ReadSigned(neg: bool, ip: Text, tail: Text)
    requires AllDigits(ip) && ip != []
    ensures ReadNumber(if neg then [MINUS] + (ip + tail) else ip + tail) == ReadMagnitude(neg, ip + tail)
  {
    var u := ip + tail;
    assert u[0] == ip[0];
    assert ([MINUS] + u)[1..] == u;
  }

  lemma ReadWholeInverts(neg: bool, ds: Text, rest: Text)
    requires AllDigits(ds) && ds != [] && (ds[0] == ZERO ==> |ds| == 1)
    requires EndsNumber(rest)
    ensures ReadMagnitude(neg, ds + rest) == Some((Int(Signed(neg, NatOf(ds))), rest))
  {
    hide NatOf;
    var t := ds + rest;
    DigitRunOf(ds, rest);
    assert t[..|ds|] == ds && t[|ds|..] == rest && t[0] == ds[0];
  }

  lemma ReadIntInverts(n: int, rest: Text)
    requires EndsNumber(rest)
    ensures ReadNumber(PrintInt(n) + rest) == Some((Int(n), rest))
  {
    hide Digits, NatOf;
    ReadWholeInverts(n < 0, Digits(Abs(n)), rest);
    NatOfDigits(Abs(n));
    if n < 0 { assert PrintInt(n) + rest == [MINUS] + (Digits(-n) + rest); }
    ReadSigned(n < 0, Digits(Abs(n)), rest);
  }

  /** The integer part of a printed decimal has no superfluous zero. */
  lemma FiguresLead(d: Decimal)
    requires d.k > 0
    ensures Figures(d)[0] == ZERO ==> |Figures(d)| == d.k + 1
  {
  }

  lemma ReadFractionInverts(neg: bool, ip: Text, fp: Text, tail: Text)
    requires AllDigits(ip) && AllDigits(fp) && fp != []
    requires tail == [] || !IsDigit(tail[0])
    ensures AllDigits(ip + fp)
    ensures ReadFraction(neg, ip, fp + tail) == ReadExponent(neg, ip + fp, |fp|, tail)
  {
    DigitRunOf(fp, tail);
    assert (fp + tail)[..|fp|] == fp && (fp + tail)[|fp|..] == tail;
  }

  lemma ReadMagnitudeInverts(neg: bool, ip: Text, tail: Text)
    requires AllDigits(ip) && ip != [] && (ip[0] == ZERO ==> |ip| == 1)
    ensures ReadMagnitude(neg, ip + ([POINT] + tail)) == ReadFraction(neg, ip, tail)
  {
    var t := ip + ([POINT] + tail);
    DigitRunOf(ip, [POINT] + tail);
    assert t[..|ip|] == ip && t[|ip|] == POINT && t[0] == ip[0];
    assert t[|ip| + 1..] == tail;
  }

  lemma PositionalText(neg: bool, ip: Text, fp: Text, rest: Text)
    ensures Positional(neg, ip, fp) + rest
         == if neg then [MINUS] + (ip + ([POINT] + (fp + rest))) else ip + ([POINT] + (fp + rest))
  {
    if neg {
      assert Positional(neg, ip, fp) == [MINUS] + ip + [POINT] + fp;
    } else {
      assert Positional(neg, ip, fp) == ip + [POINT] + fp;
    }
  }

  lemma ReadPositional(neg: bool, ip: Text, fp: Text, rest: Text)
    requires AllDigits(ip) && ip != [] && (ip[0] == ZERO ==> |ip| == 1)
    requires AllDigits(fp) && fp != [] && EndsNumber(rest)
    ensures AllDigits(ip + fp)
    ensures ReadNumber(Positional(neg, ip, fp) + rest)
         == Some((Float(Normalize(Signed(neg, NatOf(ip + fp)), |fp|)), rest))
  {
    PositionalText(neg, ip, fp, rest);
    ReadSigned(neg, ip, [POINT] + (fp + rest));
    ReadMagnitudeInverts(neg, ip, fp + rest);
    ReadFractionInverts(neg, ip, fp, rest);
  }

  lemma ReadFixedInverts(d: Decimal, rest: Text)
    requires d.k > 0 && EndsNumber(rest)
    ensures ReadNumber(Fixed(d) + rest) == Some((Float(d), rest))
  {
    hide ReadNumber, Positional, Digits, PadLeft, NatOf;
    var fs := Figures(d);
    var ip, fp := fs[..|fs| - d.k], fs[|fs| - d.k..];
    FiguresLead(d);
    ReadPositional(d.m < 0, ip, fp, rest);
    assert ip + fp == fs;
    NatOfPadLeft(Abs(d.m), d.k + 1);
  }

  lemma ReadExponentInverts(neg: bool, ds: Text, f: nat, x: Text, rest: Text)
    requires AllDigits(ds) && AllDigits(x) && x != [] && EndsNumber(rest)
    ensures ReadExponent(neg, ds, f, [LETTER_E, MINUS] + (x + rest))
         == Some((Float(Normalize(Signed(neg, NatOf(ds)), f + NatOf(x))), rest))
  {
    var t := [LETTER_E, MINUS] + (x + rest);
    assert t[0] == LETTER_E && t[1] == MINUS && t[2..] == x + rest;
    DigitRunOf(x, rest);
    assert (x + rest)[..|x|] == x && (x + rest)[|x|..] == rest;
  }

  /** What follows the first digit of a mantissa: a point and the others, if there are any. */
  function AfterLead(ds: Text, tail: Text): Text
    requires ds != []
  {
    if |ds| > 1 then [POINT] + (ds[1..] + tail) else tail
  }

  lemma ReadMantissa(neg: bool, ds: Text, tail: Text)
    requires AllDigits(ds) && ds != [] && tail != [] && tail[0] == LETTER_E
    ensures ReadMagnitude(neg, [ds[0]] + AfterLead(ds, tail)) == ReadExponent(neg, ds, |ds| - 1, tail)
  {
    if |ds| > 1 {
      ReadMagnitudeInverts(neg, [ds[0]], ds[1..] + tail);
      ReadFractionInverts(neg, [ds[0]], ds[1..], tail);
      assert [ds[0]] + ds[1..] == ds;
    } else {
      var t := [ds[0]] + tail;
      DigitRunOf([ds[0]], tail);
      assert t[..1] == ds && t[1..] == tail && t[1] == LETTER_E;
    }
  }

  lemma RegroupScientific(s: Text, l: Text, m: Text, e: Text, x: Text, r: Text)
    ensures s + l + m + e + x + r == s + (l + (m + (e + (x + r))))
  {
    assert s + l + m + e + x + r == s + l + m + (e + (x + r));
  }

  lemma ScientificText(neg: bool, ds: Text, x: Text, rest: Text)
    requires ds != []
    ensures var t := [ds[0]] + AfterLead(ds, [LETTER_E, MINUS] + (x + rest));
            Scientific(neg, ds, x) + rest == if neg then [MINUS] + t else t
  {
    var tail := [LETTER_E, MINUS] + (x + rest);
    var sign, more := if neg then [MINUS] else [], if |ds| > 1 then [POINT] + ds[1..] else [];
    RegroupScientific(sign, [ds[0]], more, [LETTER_E, MINUS], x, rest);
    assert more + tail == AfterLead(ds, tail);
    assert [] + ([ds[0]] + AfterLead(ds, tail)) == [ds[0]] + AfterLead(ds, tail);
  }

  lemma ReadScientific(neg: bool, ds: Text, x: Text, rest: Text)
    requires AllDigits(ds) && ds != [] && AllDigits(x) && x != [] && EndsNumber(rest)
    ensures ReadNumber(Scientific(neg, ds, x) + rest)
         == Some((Float(Normalize(Signed(neg, NatOf(ds)), |ds| - 1 + NatOf(x))), rest))
  {
    hide ReadNumber, ReadMagnitude, ReadExponent, NatOf, Scientific, AfterLead, Normalize, Signed;
    var tail := [LETTER_E, MINUS] + (x + rest);
    ScientificText(neg, ds, x, rest);
    ReadSigned(neg, [ds[0]], AfterLead(ds, tail));
    ReadMantissa(neg, ds, tail);
    ReadExponentInverts(neg, ds, |ds| - 1, x, rest);
  }

  lemma ReadDecimalInverts(d: Decimal, rest: Text)
    requires d.k > 0 && EndsNumber(rest)
    ensures ReadNumber(FormatNumber(d) + rest) == Some((Float(d), rest))
  {
    hide ReadNumber, Fixed, Scientific, Digits, PadLeft, NatOf;
    if Exponent(d) >= -4 {
      ReadFixedInverts(d, rest);
    } else {
      var ds := Digits(Abs(d.m));
      ReadScientific(d.m < 0, ds, PadLeft(Digits(-Exponent(d)), 2), rest);
      NatOfDigits(Abs(d.m));
      NatOfPadLeft(-Exponent(d), 2);
      assert |ds| - 1 - Exponent(d) == d.k;
    }
  }

  // ---------------------------------------------------------------- inversion

  /** The first character tells the kinds of value apart. */
  lemma FirstChar(v: Json)
    requires Canonicalize(v).Ok?
    ensures Canonicalize(v).value != []
    ensures Canonicalize(v).value[0] != RBRACKET && Canonicalize(v).value[0] != RBRACE
  {
    match v
    case Float(d) => if d.k > 0 { assert FormatNumber(d)[0] == MINUS || IsDigit(FormatNumber(d)[0]); }
    case _ =>
  }

  /** Reading the printed form of a value, whatever legal text follows, gives the value
      (in normal form) and leaves exactly that text. */
  lemma {:induction false} ReadInvertsPrint(v: Json, rest: Text)
    requires Canonicalize(v).Ok? && LegalRest(v, rest)
    ensures ReadValue(Canonicalize(v).value + rest) == Some((Canon(v), rest))
    decreases v, 1
  {
    var p := Canonicalize(v).value;
    var t := p + rest;
    match v
    case Null => assert t[..4] == Chars("null") && t[4..] == rest;
    case Bool(b) => ReadBool(b, rest);
    case Int(n) =>
      ReadIntInverts(n, rest);
      NumberFirst(t, p[0]);
    case Float(d) =>
      if d.k == 0 { ReadIntInverts(d.m, rest); } else { ReadDecimalInverts(d, rest); }
      NumberFirst(t, p[0]);
    case Str(s) => ReadStringInverts(s, rest);
    case List(vs) => ReadSequence(v, rest);
    case Tuple(vs) => ReadSequence(v, rest);
    case Dict(es) => ReadDict(v, rest);
  }

  lemma ReadBool(b: bool, rest: Text)
    ensures ReadValue((if b then Chars("true") else Chars("false")) + rest) == Some((Bool(b), rest))
  {
    var t := (if b then Chars("true") else Chars("false")) + rest;
    if b {
      assert t[..4] == Chars("true") && t[4..] == rest;
      assert t[0] == 't' as int && Chars("null")[0] == 'n' as int;
      assert t[..4][0] != Chars("null")[0];
    } else {
      assert t[..5] == Chars("false") && t[5..] == rest;
      assert t[..4][0] != Chars("null")[0] && t[..4][0] != Chars("true")[0];
    }
  }

  lemma NumberFirst(t: Text, c: CodePoint)
    requires t != [] && t[0] == c && (IsDigit(c) || c == MINUS)
    ensures ReadValue(t) == ReadNumber(t)
  {
    if |t| >= 4 { assert t[..4][0] != Chars("null")[0] && t[..4][0] != Chars("true")[0]; }
    if |t| >= 5 { assert t[..5][0] != Chars("false")[0]; }
  }

  lemma ReadSequence(v: Json, rest: Text)
    requires IsSequence(v) && Canonicalize(v).Ok?
    ensures ReadValue(Canonicalize(v).value + rest) == Some((List(CanonAll(v.items)), rest))
    decreases v, 0, |v.items| + 1
  {
    var vs := v.items;
    assert Canonicalize(v) == Wrap(LBRACKET, JoinAll(CanonicalizeAll(vs)), RBRACKET);
    if vs == [] {
      assert Canonicalize(v).value + rest == [LBRACKET, RBRACKET] + rest;
      assert ([LBRACKET, RBRACKET] + rest)[2..] == rest;
    } else {
      ReadItemsInverts(v, vs, rest);
      FirstOfJoin(vs);
      ReadBracketed(JoinAll(CanonicalizeAll(vs)).value, CanonAll(vs), rest);
    }
  }

  lemma ReadBracketed(body: Text, vs: seq<Json>, rest: Text)
    requires body != [] && body[0] != RBRACKET
    requires ReadItems(body + [RBRACKET] + rest) == Some((vs, rest))
    ensures ReadValue([LBRACKET] + body + [RBRACKET] + rest) == Some((List(vs), rest))
  {
    hide ReadItems, ReadMembers, ReadNumber, ReadString, Chars;
    var t := [LBRACKET] + body + [RBRACKET] + rest;
    assert t[0] == LBRACKET && t[1] == body[0];
    assert t[1..] == body + [RBRACKET] + rest;
  }

  lemma FirstOfJoin(vs: seq<Json>)
    requires vs != [] && JoinAll(CanonicalizeAll(vs)).Ok?
    ensures Canonicalize(vs[0]).Ok?
    ensures JoinAll(CanonicalizeAll(vs)).value != []
    ensures JoinAll(CanonicalizeAll(vs)).value[0] != RBRACKET
  {
    FirstChar(vs[0]);
  }

  lemma {:induction false} ReadItemsInverts(v: Json, vs: seq<Json>, rest: Text)
    requires vs != [] && JoinAll(CanonicalizeAll(vs)).Ok?
    requires forall i | 0 <= i < |vs| :: vs[i] < v
    ensures ReadItems(JoinAll(CanonicalizeAll(vs)).value + [RBRACKET] + rest) == Some((CanonAll(vs), rest))
    decreases v, 0, |vs|
  {
    ItemsText(vs);
    hide JoinAll, CanonicalizeAll, Canonicalize;
    var first := Canonicalize(vs[0]).value;
    if |vs| == 1 {
      var after := [RBRACKET] + rest;
      assert first + [RBRACKET] + rest == first + after;
      ReadInvertsPrint(vs[0], after);
      assert CanonAll(vs) == [Canon(vs[0])];
      assert after[1..] == rest;
    } else {
      var others := JoinAll(CanonicalizeAll(vs[1..])).value;
      var more := others + [RBRACKET] + rest;
      var after := [COMMA] + more;
      RegroupItems(first, others, rest);
      ReadInvertsPrint(vs[0], after);
      assert after[1..] == more;
      ReadItemsInverts(v, vs[1..], rest);
    }
  }

  lemma RegroupItems(f: Text, o: Text, r: Text)
    ensures f + [COMMA] + o + [RBRACKET] + r == f + ([COMMA] + (o + [RBRACKET] + r))
  {
  }

  /** How the text of several values is made from the first and the others. */
  lemma ItemsText(vs: seq<Json>)
    requires vs != [] && JoinAll(CanonicalizeAll(vs)).Ok?
    ensures Canonicalize(vs[0]).Ok?
    ensures |vs| == 1 ==> JoinAll(CanonicalizeAll(vs)) == Canonicalize(vs[0])
    ensures |vs| > 1 ==> JoinAll(CanonicalizeAll(vs[1..])).Ok?
    ensures |vs| > 1 ==>
              JoinAll(CanonicalizeAll(vs)).value == Canonicalize(vs[0]).value + [COMMA] + JoinAll(CanonicalizeAll(vs[1..])).value
  {
    if |vs| > 1 { assert CanonicalizeAll(vs)[1..] == CanonicalizeAll(vs[1..]); }
  }

  /** The sorted entries of a dict, printed and in normal form, still correspond. */
  lemma SortedEntries(es: Entries)
    ensures SortByKey(CanonicalizeEntries(es)) == CanonicalizeEntries(SortByKey(es))
    ensures SortByKey(CanonEntries(es)) == CanonEntries(SortByKey(es))
  {
    var f := (v: Json) => Canonicalize(v);
    var g := (v: Json) => Canon(v);
    SortMap(f, es);
    SortMap(g, es);
    assert CanonicalizeEntries(es) == MapValues(f, es);
    assert CanonicalizeEntries(SortByKey(es)) == MapValues(f, SortByKey(es));
    assert CanonEntries(es) == MapValues(g, es);
    assert CanonEntries(SortByKey(es)) == MapValues(g, SortByKey(es));
  }

  lemma ReadDict(v: Json, rest: Text)
    requires v.Dict? && Canonicalize(v).Ok?
    ensures ReadValue(Canonicalize(v).value + rest) == Some((Canon(v), rest))
    decreases v, 0, |v.entries| + 1
  {
    var es := SortByKey(v.entries);
    SortedEntries(v.entries);
    assert Canonicalize(v) == Wrap(LBRACE, Members(es), RBRACE);
    if es == [] {
      assert Canonicalize(v).value + rest == [LBRACE, RBRACE] + rest;
      assert ([LBRACE, RBRACE] + rest)[2..] == rest;
    } else {
      forall i | 0 <= i < |es| ensures es[i].1 < v {
        SortedEntryBelow(v, es[i]);
      }
      ReadMembersInverts(v, es, rest);
      MembersText(es);
      ReadBraced(Members(es).value, CanonEntries(es), rest);
    }
  }

  lemma ReadBraced(body: Text, es: Entries, rest: Text)
    requires body != [] && body[0] == QUOTE
    requires ReadMembers(body + [RBRACE] + rest) == Some((es, rest))
    ensures ReadValue([LBRACE] + body + [RBRACE] + rest) == Some((Dict(es), rest))
  {
    hide ReadItems, ReadMembers, ReadNumber, ReadString, Chars;
    var t := [LBRACE] + body + [RBRACE] + rest;
    assert t[0] == LBRACE && t[1] == body[0];
    assert t[1..] == body + [RBRACE] + rest;
  }

  lemma SortedEntryBelow(v: Json, e: (Text, Json))
    requires v.Dict? && e in SortByKey(v.entries)
    ensures e.1 < v
  {
    SortMembers(v.entries, e);
    var j :| 0 <= j < |v.entries| && v.entries[j] == e;
    assert v.entries[j].1 < v;
  }

  lemma ReadMemberInverts(key: Text, w: Json, value: Text, after: Text)
    requires ReadValue(value) == Some((w, after))
    ensures ReadMember(Quoted(key) + ([COLON] + value)) == Some(((key, w), after))
  {
    ReadStringInverts(key, [COLON] + value);
    assert ([COLON] + value)[1..] == value;
  }

  lemma RegroupLast(q: Text, c: Text, f: Text, b: Text, r: Text)
    ensures (q + c + f) + b + r == q + (c + (f + (b + r)))
  {
  }

  lemma RegroupMore(q: Text, c: Text, f: Text, k: Text, j: Text, b: Text, r: Text)
    ensures ((q + c + f) + k + j) + b + r == q + (c + (f + (k + (j + b + r))))
  {
    assert ((q + c + f) + k + j) + b + r == (q + c + f) + k + (j + b + r);
    RegroupLast(q, c, f, k, j + b + r);
  }

  function Members(es: Entries): Result<Text> {
    JoinAll(Label(CanonicalizeEntries(es)))
  }

  /** How the text of several members is made from the first and the others. */
  lemma MembersText(es: Entries)
    requires es != [] && Members(es).Ok?
    ensures var first := Canonicalize(es[0].1);
            && first.Ok?
            && (|es| == 1 ==> Members(es).value == Quoted(es[0].0) + [COLON] + first.value)
            && (|es| > 1 ==>
                  (Members(es[1..]).Ok? && Members(es).value ==
                    Quoted(es[0].0) + [COLON] + first.value + [COMMA] + Members(es[1..]).value))
  {
    var labelled := Label(CanonicalizeEntries(es));
    assert labelled[0] == Pair(es[0].0, Canonicalize(es[0].1));
    if |es| > 1 { assert labelled[1..] == Label(CanonicalizeEntries(es[1..])); }
  }

  lemma {:induction false} ReadMembersInverts(v: Json, es: Entries, rest: Text)
    requires es != [] && Members(es).Ok?
    requires forall i | 0 <= i < |es| :: es[i].1 < v
    ensures ReadMembers(Members(es).value + [RBRACE] + rest) == Some((CanonEntries(es), rest))
    decreases v, 0, |es|
  {
    MembersText(es);
    var key, first := es[0].0, Canonicalize(es[0].1).value;
    assert CanonEntries(es) == [(key, Canon(es[0].1))] + CanonEntries(es[1..]);
    if |es| == 1 {
      var after := [RBRACE] + rest;
      RegroupLast(Quoted(key), [COLON], first, [RBRACE], rest);
      ReadInvertsPrint(es[0].1, after);
      ReadMemberInverts(key, Canon(es[0].1), first + after, after);
      assert after[1..] == rest;
      assert CanonEntries(es) == [(key, Canon(es[0].1))];
    } else {
      var more := Members(es[1..]).value + [RBRACE] + rest;
      var after := [COMMA] + more;
      RegroupMore(Quoted(key), [COLON], first, [COMMA], Members(es[1..]).value, [RBRACE], rest);
      ReadInvertsPrint(es[0].1, after);
      ReadMemberInverts(key, Canon(es[0].1), first + after, after);
      assert after[1..] == more;
      ReadMembersInverts(v, es[1..], rest);
    }
  }
}
