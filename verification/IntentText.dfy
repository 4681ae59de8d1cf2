/**
 The text whose hash binds a token to an order: `json.dumps` of three strings with sorted
 keys and ASCII escapes, and what that text determines.
 */
module IntentText {
  import opened Texts
  import opened Jcs
  import opened JsonReader

  type Unit = u: int | 0 <= u < 0x10000

  /** How `json.dumps` with `ensure_ascii` writes one UTF-16 code unit. */
  function UnitCode(u: Unit): (t: Text)
    ensures t != []
  {
    if u == QUOTE then [BACKSLASH, QUOTE]
    else if u == BACKSLASH then [BACKSLASH, BACKSLASH]
    else if 0x20 <= u <= 0x7E then [u]
    else if u == 0x0A then [BACKSLASH, 'n' as int]
    else if u == 0x0D then [BACKSLASH, 'r' as int]
    else if u == 0x09 then [BACKSLASH, 't' as int]
    else if u == 0x0C then [BACKSLASH, 'f' as int]
    else if u == 0x08 then [BACKSLASH, 'b' as int]
    else [BACKSLASH, 'u' as int, HexDigit(u / 0x1000), HexDigit(u / 0x100 % 16),
          HexDigit(u / 0x10 % 16), HexDigit(u % 16)]
  }

  function Codes(us: seq<Unit>): Text {
    if us == [] then [] else UnitCode(us[0]) + Codes(us[1..])
  }

  lemma {:induction false} UnitsInRange(t: Text)
    ensures forall i | 0 <= i < |Utf16(t)| :: 0 <= Utf16(t)[i] < 0x10000
  {
    if t != [] {
      UnitsInRange(t[1..]);
      assert Utf16(t) == Units(t[0]) + Utf16(t[1..]);
    }
  }

  /** A JSON string in ASCII. */
  function AsciiQuoted(t: Text): Text {
    UnitsInRange(t);
    [QUOTE] + Codes(Utf16(t)) + [QUOTE]
  }

  /** Literals and quoted strings in turn. */
  function Pieces(ps: seq<Text>, ts: seq<Text>, end: Text): Text
    requires |ps| == |ts|
  {
    if ps == [] then end else ps[0] + (AsciiQuoted(ts[0]) + Pieces(ps[1..], ts[1..], end))
  }

  /** What stands in front of the i-th string. */
  function Literal(i: nat): Text {
    if i == 0 then Chars("{\"amount\": ") else if i == 1 then Chars(", \"merchantId\": ") else Chars(", \"orderId\": ")
  }

  function Literals(n: nat): (ps: seq<Text>)
    ensures |ps| == n
    ensures forall i | 0 <= i < n :: ps[i] == Literal(i)
  {
    seq(n, i requires 0 <= i < n => Literal(i))
  }

  /** `json.dumps({"orderId": .., "merchantId": .., "amount": ..}, sort_keys=True)`. */
  function IntentJson(orderId: Text, merchantId: Text, amount: Text): Text {
    Pieces(Literals(3), [amount, merchantId, orderId], Chars("}"))
  }

  // -------------------------------------------------------------- injectivity

  /** Reads one code back. */
  function ReadCode(t: Text): Option<(CodePoint, nat)> {
    if t == [] then None
    else if t[0] != BACKSLASH then Some((t[0], 1))
    else if |t| < 2 then None
    else if t[1] == 'u' as int then
      match ReadUnit(t) case Some(u) => Some((u, 6)) case None => None
    else if t[1] == 'n' as int then Some((0x0A, 2))
    else if t[1] == 'r' as int then Some((0x0D, 2))
    else if t[1] == 't' as int then Some((0x09, 2))
    else if t[1] == 'f' as int then Some((0x0C, 2))
    else if t[1] == 'b' as int then Some((0x08, 2))
    else Some((t[1], 2))
  }

  lemma HexValInverts(n: int)
    requires 0 <= n < 16
    ensures IsHex(HexDigit(n)) && HexVal(HexDigit(n)) == n
  {
  }

  predicate NeedsHex(u: Unit) {
    u != QUOTE && u != BACKSLASH && !(0x20 <= u <= 0x7E) &&
    u != 0x0A && u != 0x0D && u != 0x09 && u != 0x0C && u != 0x08
  }

  lemma HexDigits(u: Unit)
    ensures 0x1000 * (u / 0x1000) + 0x100 * (u / 0x100 % 16) + 0x10 * (u / 0x10 % 16) + u % 16 == u
  {
    var q1 := u / 0x10;
    var q2 := q1 / 0x10;
    var q3 := q2 / 0x10;
    assert u / 0x100 == q2;
    assert u / 0x1000 == q3;
  }

  lemma ReadHexInverts(u: Unit, rest: Text)
    requires NeedsHex(u)
    ensures ReadUnit(UnitCode(u) + rest) == Some(u)
  {
    var d3, d2, d1, d0 := u / 0x1000, u / 0x100 % 16, u / 0x10 % 16, u % 16;
    HexValInverts(d3);
    HexValInverts(d2);
    HexValInverts(d1);
    HexValInverts(d0);
    HexDigits(u);
    var code := [BACKSLASH, 'u' as int, HexDigit(d3), HexDigit(d2), HexDigit(d1), HexDigit(d0)];
    assert UnitCode(u) == code;
    var t := code + rest;
    assert t[0] == BACKSLASH && t[1] == 'u' as int;
    assert t[2] == HexDigit(d3) && t[3] == HexDigit(d2) && t[4] == HexDigit(d1) && t[5] == HexDigit(d0);
  }

  lemma ReadShortInverts(u: Unit, rest: Text)
    requires !NeedsHex(u)
    ensures ReadCode(UnitCode(u) + rest) == Some((u, |UnitCode(u)|))
  {
    var code, t := UnitCode(u), UnitCode(u) + rest;
    assert t[0] == code[0];
    if |code| >= 2 { assert t[1] == code[1]; }
  }

  lemma ReadCodeInverts(u: Unit, rest: Text)
    ensures ReadCode(UnitCode(u) + rest) == Some((u, |UnitCode(u)|))
  {
    if NeedsHex(u) {
      ReadHexInverts(u, rest);
      var code, t := UnitCode(u), UnitCode(u) + rest;
      assert t[0] == code[0] && t[1] == code[1];
    } else {
      ReadShortInverts(u, rest);
    }
  }

  lemma CodesHead(a: seq<Unit>, x: Text)
    ensures (Codes(a) + ([QUOTE] + x))[0] == QUOTE <==> a == []
  {
    if a != [] {
      assert Codes(a)[0] == UnitCode(a[0])[0] != QUOTE;
    }
  }

  lemma CodesStep(a: seq<Unit>, s: Text)
    requires a != []
    ensures Codes(a) + s == UnitCode(a[0]) + (Codes(a[1..]) + s)
  {
  }

  lemma FirstCodeCut(u: Unit, p: Text, v: Unit, q: Text)
    requires UnitCode(u) + p == UnitCode(v) + q
    ensures u == v && p == q
  {
    ReadCodeInverts(u, p);
    ReadCodeInverts(v, q);
    PrefixCut(UnitCode(u), p, q);
  }

  lemma {:induction false} CodesCut(a: seq<Unit>, x: Text, b: seq<Unit>, y: Text)
    requires Codes(a) + ([QUOTE] + x) == Codes(b) + ([QUOTE] + y)
    ensures a == b && x == y
  {
    var s, t := [QUOTE] + x, [QUOTE] + y;
    CodesHead(a, x);
    CodesHead(b, y);
    if a == [] {
      assert Codes(a) + s == s && Codes(b) + t == t;
      PrefixCut([QUOTE], x, y);
    } else {
      CodesStep(a, s);
      CodesStep(b, t);
      FirstCodeCut(a[0], Codes(a[1..]) + s, b[0], Codes(b[1..]) + t);
      CodesCut(a[1..], x, b[1..], y);
      assert a == [a[0]] + a[1..] && b == [b[0]] + b[1..];
    }
  }

  lemma QuotedTail(t: Text, x: Text)
    ensures forall i | 0 <= i < |Utf16(t)| :: 0 <= Utf16(t)[i] < 0x10000
    ensures (AsciiQuoted(t) + x)[1..] == Codes(Utf16(t)) + ([QUOTE] + x)
  {
    UnitsInRange(t);
    var c := Codes(Utf16(t));
    assert AsciiQuoted(t) + x == [QUOTE] + (c + ([QUOTE] + x));
  }

  /** A quoted string ends where it ends: equal texts have equal strings in front. */
  lemma QuotedCut(s: Text, x: Text, t: Text, y: Text)
    requires AsciiQuoted(s) + x == AsciiQuoted(t) + y
    ensures Utf16(s) == Utf16(t) && x == y
  {
    QuotedTail(s, x);
    QuotedTail(t, y);
    CodesCut(Utf16(s), x, Utf16(t), y);
  }

  lemma Peel(p: Text, t: Text, x: Text, t': Text, x': Text)
    requires p + (AsciiQuoted(t) + x) == p + (AsciiQuoted(t') + x')
    ensures Utf16(t) == Utf16(t') && x == x'
  {
    PrefixCut(p, AsciiQuoted(t) + x, AsciiQuoted(t') + x');
    QuotedCut(t, x, t', x');
  }

  lemma SameQuoted(t: Text, t': Text)
    requires Utf16(t) == Utf16(t')
    ensures AsciiQuoted(t) == AsciiQuoted(t')
  {
    UnitsInRange(t);
  }

  lemma {:induction false} SamePiecesIff(ps: seq<Text>, ts: seq<Text>, ts': seq<Text>, end: Text)
    requires |ps| == |ts| == |ts'|
    ensures Pieces(ps, ts, end) == Pieces(ps, ts', end) <==>
            forall i | 0 <= i < |ts| :: Utf16(ts[i]) == Utf16(ts'[i])
  {
    if ps != [] {
      SamePiecesIff(ps[1..], ts[1..], ts'[1..], end);
      if Pieces(ps, ts, end) == Pieces(ps, ts', end) {
        Peel(ps[0], ts[0], Pieces(ps[1..], ts[1..], end), ts'[0], Pieces(ps[1..], ts'[1..], end));
        assert ts == [ts[0]] + ts[1..] && ts' == [ts'[0]] + ts'[1..];
      } else if Utf16(ts[0]) == Utf16(ts'[0]) {
        SameQuoted(ts[0], ts'[0]);
        var i :| 0 <= i < |ts| - 1 && Utf16(ts[1..][i]) != Utf16(ts'[1..][i]);
        assert Utf16(ts[i + 1]) != Utf16(ts'[i + 1]);
      }
    }
  }

  lemma SameThreeIff(ps: seq<Text>, a: Text, m: Text, o: Text, a': Text, m': Text, o': Text, end: Text)
    requires |ps| == 3
    ensures Pieces(ps, [a, m, o], end) == Pieces(ps, [a', m', o'], end) <==>
            Utf16(a) == Utf16(a') && Utf16(m) == Utf16(m') && Utf16(o) == Utf16(o')
  {
    hide Pieces, Utf16;
    SamePiecesIff(ps, [a, m, o], [a', m', o'], end);
    AllThree(a, m, o, a', m', o');
  }

  lemma AllThree(a: Text, m: Text, o: Text, a': Text, m': Text, o': Text)
    ensures (forall i | 0 <= i < |[a, m, o]| :: Utf16([a, m, o][i]) == Utf16([a', m', o'][i])) <==>
            Utf16(a) == Utf16(a') && Utf16(m) == Utf16(m') && Utf16(o) == Utf16(o')
  {
    hide Utf16;
    var ts, ts' := [a, m, o], [a', m', o'];
    assert ts[0] == a && ts[1] == m && ts[2] == o && ts'[0] == a' && ts'[1] == m' && ts'[2] == o';
    if forall i | 0 <= i < |ts| :: Utf16(ts[i]) == Utf16(ts'[i]) {
      assert Utf16(ts[0]) == Utf16(ts'[0]) && Utf16(ts[1]) == Utf16(ts'[1]) && Utf16(ts[2]) == Utf16(ts'[2]);
    }
  }

  /** Two intents have the same text exactly when amount, merchant and order id are equal
      as UTF-16. */
  lemma SameIntentIff(o: Text, m: Text, a: Text, o': Text, m': Text, a': Text)
    ensures IntentJson(o, m, a) == IntentJson(o', m', a') <==>
            Utf16(a) == Utf16(a') && Utf16(m) == Utf16(m') && Utf16(o) == Utf16(o')
  {
    SameThreeIff(Literals(3), a, m, o, a', m', o', Chars("}"));
  }

  // -------------------------------------------------------------------- ASCII

  predicate Ascii(t: Text) {
    forall i | 0 <= i < |t| :: t[i] < 0x80
  }

  lemma {:induction false} CodesAscii(us: seq<Unit>)
    ensures Ascii(Codes(us))
  {
    if us != [] { CodesAscii(us[1..]); }
  }

  lemma QuotedAscii(t: Text, p: Text, rest: Text)
    requires Ascii(p) && Ascii(rest)
    ensures Ascii(p + (AsciiQuoted(t) + rest))
  {
    UnitsInRange(t);
    CodesAscii(Utf16(t));
  }

  lemma {:induction false} PiecesAscii(ps: seq<Text>, ts: seq<Text>, end: Text)
    requires |ps| == |ts| && Ascii(end) && forall i | 0 <= i < |ps| :: Ascii(ps[i])
    ensures Ascii(Pieces(ps, ts, end))
  {
    if ps != [] {
      PiecesAscii(ps[1..], ts[1..], end);
      QuotedAscii(ts[0], ps[0], Pieces(ps[1..], ts[1..], end));
    }
  }

  /** The intent text is ASCII, so hashing it never fails. */
  lemma IntentAscii(o: Text, m: Text, a: Text)
    ensures Ascii(IntentJson(o, m, a)) && Encodable(IntentJson(o, m, a))
  {
    LiteralAscii("{\"amount\": ");
    LiteralAscii(", \"merchantId\": ");
    LiteralAscii(", \"orderId\": ");
    LiteralAscii("}");
    PiecesAscii(Literals(3), [a, m, o], Chars("}"));
  }

  lemma LiteralAscii(s: string)
    requires forall i | 0 <= i < |s| :: s[i] as int < 0x80
    ensures Ascii(Chars(s))
  {
  }

  // ------------------------------------------------------------ the text itself

  predicate PlainAscii(t: Text) {
    forall i | 0 <= i < |t| :: 0x20 <= t[i] <= 0x7E && t[i] != '"' as int && t[i] != '\\' as int
  }

  lemma {:induction false} PlainCodes(t: Text)
    requires PlainAscii(t)
    ensures Utf16(t) == t && Codes(Utf16(t)) == t
  {
    if t != [] {
      PlainCodes(t[1..]);
      assert Units(t[0]) == [t[0]];
      assert [t[0]] + t[1..] == t;
      assert Utf16(t)[1..] == Utf16(t[1..]);
    }
  }

  /** The intent of plain parts: members in the order of their names, separated as `json.dumps`
      separates them by default. */
  lemma PlainIntent(o: Text, m: Text, a: Text)
    requires PlainAscii(o) && PlainAscii(m) && PlainAscii(a)
    ensures IntentJson(o, m, a) ==
            Chars("{\"amount\": \"") + a + Chars("\", \"merchantId\": \"") + m + Chars("\", \"orderId\": \"") + o + Chars("\"}")
  {
    PlainCodes(o);
    PlainCodes(m);
    PlainCodes(a);
    assert AsciiQuoted(o) == [QUOTE] + o + [QUOTE] && AsciiQuoted(m) == [QUOTE] + m + [QUOTE] && AsciiQuoted(a) == [QUOTE] + a + [QUOTE];
    IntentPieces(o, m, a);
    Seams();
    hide Chars, AsciiQuoted, IntentJson;
    Joined(Chars("{\"amount\": "), a, Chars(", \"merchantId\": "), m, Chars(", \"orderId\": "), o, Chars("}"));
  }

  lemma Joined(p: Text, a: Text, q: Text, m: Text, r: Text, o: Text, e: Text)
    ensures p + ([QUOTE] + a + [QUOTE]) + (q + ([QUOTE] + m + [QUOTE])) + (r + ([QUOTE] + o + [QUOTE]) + e)
         == (p + [QUOTE]) + a + ([QUOTE] + q + [QUOTE]) + m + ([QUOTE] + r + [QUOTE]) + o + ([QUOTE] + e)
  {
  }

  lemma Seams()
    ensures Chars("{\"amount\": ") + [QUOTE] == Chars("{\"amount\": \"")
    ensures [QUOTE] + Chars(", \"merchantId\": ") + [QUOTE] == Chars("\", \"merchantId\": \"")
    ensures [QUOTE] + Chars(", \"orderId\": ") + [QUOTE] == Chars("\", \"orderId\": \"")
    ensures [QUOTE] + Chars("}") == Chars("\"}")
  {
    hide Chars;
    AmountSeam();
    MerchantSeam();
    OrderSeam();
    EndSeam();
  }

  lemma AmountSeam()
    ensures Chars("{\"amount\": ") + [QUOTE] == Chars("{\"amount\": \"")
  {
  }

  lemma MerchantSeam()
    ensures [QUOTE] + Chars(", \"merchantId\": ") + [QUOTE] == Chars("\", \"merchantId\": \"")
  {
  }

  lemma OrderSeam()
    ensures [QUOTE] + Chars(", \"orderId\": ") + [QUOTE] == Chars("\", \"orderId\": \"")
  {
  }

  lemma EndSeam()
    ensures [QUOTE] + Chars("}") == Chars("\"}")
  {
  }

  lemma IntentPieces(o: Text, m: Text, a: Text)
    ensures IntentJson(o, m, a) ==
            Chars("{\"amount\": ") + AsciiQuoted(a) + (Chars(", \"merchantId\": ") + AsciiQuoted(m)) +
            (Chars(", \"orderId\": ") + AsciiQuoted(o) + Chars("}"))
  {
    hide Chars, AsciiQuoted;
    var ps, end := Literals(3), Chars("}");
    PiecesStep(ps, [a, m, o], end);
    PiecesStep(ps[1..], [m, o], end);
    PiecesStep(ps[2..], [o], end);
    var none: seq<Text> := [];
    assert [a, m, o][1..] == [m, o] && [m, o][1..] == [o] && [o][1..] == none;
    assert ps[1..][1..] == ps[2..] && ps[2..][1..] == none;
    assert Pieces(none, none, end) == end;
  }

  lemma PiecesStep(ps: seq<Text>, ts: seq<Text>, end: Text)
    requires |ps| == |ts| && ps != []
    ensures Pieces(ps, ts, end) == ps[0] + (AsciiQuoted(ts[0]) + Pieces(ps[1..], ts[1..], end))
  {
  }

  /** The units that do not stand for themselves: a letter or sign of their own, */
  lemma ShortCodesAre()
    ensures UnitCode('"' as int) == Chars("\\\"") && UnitCode('\\' as int) == Chars("\\\\")
    ensures UnitCode(8) == Chars("\\b") && UnitCode(9) == Chars("\\t") && UnitCode(10) == Chars("\\n")
    ensures UnitCode(12) == Chars("\\f") && UnitCode(13) == Chars("\\r")
  {
  }

  /** or four lower-case hexadecimal digits. */
  lemma LongCodesAre(u: Unit)
    requires u !in {8, 9, 10, 12, 13} && !(' ' as int <= u <= '~' as int)
    ensures UnitCode(u) == Chars("\\u") + [LowerHex(u / 4096), LowerHex(u / 256 % 16), LowerHex(u / 16 % 16), LowerHex(u % 16)]
  {
    assert Chars("\\u") == ['\\' as int, 'u' as int];
    hide Chars;
  }

  function LowerHex(n: int): CodePoint
    requires 0 <= n < 16
  {
    if n <= 9 then '0' as int + n else 'a' as int + (n - 10)
  }
}
