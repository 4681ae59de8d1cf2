/**
 Unpadded base64url (RFC 4648 section 5, RFC 7515 appendix C) as the addon encodes and
 decodes it, and compact JWS built on it.
 */
module Base64Url {
  import opened Texts

  type Byte = b: int | 0 <= b < 256
  type Bytes = seq<Byte>
  type Sextet = n: int | 0 <= n < 64

  const PAD: CodePoint := 0x3D

  function Symbol(n: Sextet): CodePoint {
    if n < 26 then 0x41 + n
    else if n < 52 then 0x61 + n - 26
    else if n < 62 then 0x30 + n - 52
    else if n == 62 then 0x2D
    else 0x5F
  }

  predicate IsSymbol(c: CodePoint) {
    0x41 <= c <= 0x5A || 0x61 <= c <= 0x7A || 0x30 <= c <= 0x39 || c == 0x2D || c == 0x5F
  }

  function Value(c: CodePoint): Sextet
    requires IsSymbol(c)
  {
    if 0x41 <= c <= 0x5A then c - 0x41
    else if 0x61 <= c <= 0x7A then c - 0x61 + 26
    else if 0x30 <= c <= 0x39 then c - 0x30 + 52
    else if c == 0x2D then 62
    else 63
  }

  predicate AllSymbols(t: Text) {
    forall i | 0 <= i < |t| :: IsSymbol(t[i])
  }

  function Symbols(s: seq<Sextet>): (t: Text)
    ensures |t| == |s|
    ensures forall i | 0 <= i < |s| :: t[i] == Symbol(s[i])
  {
    seq(|s|, i requires 0 <= i < |s| => Symbol(s[i]))
  }

  function Values(t: Text): (s: seq<Sextet>)
    requires AllSymbols(t)
    ensures |s| == |t|
    ensures forall i | 0 <= i < |t| :: s[i] == Value(t[i])
  {
    seq(|t|, i requires 0 <= i < |t| => Value(t[i]))
  }

  /** The bits of the bytes in groups of six, the last group filled with zero bits. */
  function ToSextets(b: Bytes): seq<Sextet> {
    if |b| < 3 then ShortToSextets(b)
    else [b[0] / 4, b[0] % 4 * 16 + b[1] / 16, b[1] % 16 * 4 + b[2] / 64, b[2] % 64] + ToSextets(b[3..])
  }

  function ShortToSextets(b: Bytes): seq<Sextet>
    requires |b| < 3
  {
    if b == [] then []
    else if |b| == 1 then [b[0] / 4, b[0] % 4 * 16]
    else [b[0] / 4, b[0] % 4 * 16 + b[1] / 16, b[1] % 16 * 4]
  }

  function First(s0: Sextet, s1: Sextet): Byte {
    var x: int, y: int := s0, s1;
    x * 4 + y / 16
  }

  function Second(s1: Sextet, s2: Sextet): Byte {
    var x: int, y: int := s1, s2;
    x % 16 * 16 + y / 4
  }

  function Third(s2: Sextet, s3: Sextet): Byte {
    var x: int, y: int := s2, s3;
    x % 4 * 64 + y
  }

  /** Back to bytes; left-over bits are dropped, a lone sextet holds no byte. */
  function FromSextets(s: seq<Sextet>): Option<Bytes> {
    if |s| < 4 then ShortFromSextets(s)
    else match FromSextets(s[4..])
         case Some(b) => Some([First(s[0], s[1]), Second(s[1], s[2]), Third(s[2], s[3])] + b)
         case None => None
  }

  function ShortFromSextets(s: seq<Sextet>): Option<Bytes>
    requires |s| < 4
  {
    if s == [] then Some([])
    else if |s| == 1 then None
    else if |s| == 2 then Some([First(s[0], s[1])])
    else Some([First(s[0], s[1]), Second(s[1], s[2])])
  }

  function Pads(n: nat): (t: Text)
    ensures |t| == n
    ensures forall i | 0 <= i < n :: t[i] == PAD
  {
    seq(n, _ => PAD)
  }

  /** `base64.urlsafe_b64encode`. */
  function EncodePadded(b: Bytes): Text {
    Symbols(ToSextets(b)) + Pads((3 - |b| % 3) % 3)
  }

  /** `rstrip("=")`. */
  function StripPads(t: Text): (r: Text)
    ensures |r| <= |t|
  {
    if t != [] && t[|t| - 1] == PAD then StripPads(t[..|t| - 1]) else t
  }

  function Encode(b: Bytes): Text {
    StripPads(EncodePadded(b))
  }

  /** Strict decoding of padded groups of four. */
  function DecodePadded(t: Text): Option<Bytes> {
    var body := StripPads(t);
    if |t| % 4 != 0 || |t| - |body| > 2 || !AllSymbols(body) then None
    else FromSextets(Values(body))
  }

  /** How many pads `"=" * (-len(s) % 4)` appends. */
  function Missing(n: nat): nat {
    (4 - n % 4) % 4
  }

  /** `urlsafe_b64decode(s + "=" * (-len(s) % 4))`. */
  function Decode(t: Text): Option<Bytes> {
    DecodePadded(t + Pads(Missing(|t|)))
  }

  // -------------------------------------------------------------- round trips

  lemma SymbolValue(n: Sextet)
    ensures IsSymbol(Symbol(n)) && Value(Symbol(n)) == n && Symbol(n) != PAD && Symbol(n) != DOT
  {
  }

  lemma SymbolsValues(s: seq<Sextet>)
    ensures AllSymbols(Symbols(s)) && Values(Symbols(s)) == s
    ensures PAD !in Symbols(s) && DOT !in Symbols(s)
  {
    forall i | 0 <= i < |s|
      ensures IsSymbol(Symbols(s)[i]) && Value(Symbols(s)[i]) == s[i]
      ensures Symbols(s)[i] != PAD && Symbols(s)[i] != DOT
    {
      SymbolValue(s[i]);
    }
  }

  lemma ValuesSymbols(t: Text)
    requires AllSymbols(t)
    ensures Symbols(Values(t)) == t
  {
  }

  lemma ToGroup(b0: Byte, b1: Byte, b2: Byte, tail: Bytes)
    ensures ToSextets([b0, b1, b2] + tail)
         == [b0 / 4, b0 % 4 * 16 + b1 / 16, b1 % 16 * 4 + b2 / 64, b2 % 64] + ToSextets(tail)
  {
    assert ([b0, b1, b2] + tail)[3..] == tail;
  }

  lemma FromGroup(s0: Sextet, s1: Sextet, s2: Sextet, s3: Sextet, tail: seq<Sextet>)
    ensures FromSextets([s0, s1, s2, s3] + tail)
         == match FromSextets(tail)
            case Some(b) => Some([First(s0, s1), Second(s1, s2), Third(s2, s3)] + b)
            case None => None
  {
    assert ([s0, s1, s2, s3] + tail)[4..] == tail;
  }

  /** Twenty-four bits as three bytes or as four sextets. */
  lemma BytesOfGroup(b0: Byte, b1: Byte, b2: Byte)
    ensures var s0, s1, s2, s3 := b0 / 4, b0 % 4 * 16 + b1 / 16, b1 % 16 * 4 + b2 / 64, b2 % 64;
            First(s0, s1) == b0 && Second(s1, s2) == b1 && Third(s2, s3) == b2
  {
  }

  lemma SextetsOfGroup(s0: Sextet, s1: Sextet, s2: Sextet, s3: Sextet)
    ensures var b0, b1, b2 := First(s0, s1), Second(s1, s2), Third(s2, s3);
            && b0 / 4 == s0 && b0 % 4 * 16 + b1 / 16 == s1
            && b1 % 16 * 4 + b2 / 64 == s2 && b2 % 64 == s3
  {
  }

  lemma FromInvertsShort(b: Bytes)
    requires |b| < 3
    ensures |ShortToSextets(b)| < 4 && ShortFromSextets(ShortToSextets(b)) == Some(b)
    ensures Missing(|ShortToSextets(b)|) == (3 - |b| % 3) % 3
  {
    hide First, Second, Third;
    if |b| == 2 {
      BytesOfGroup(b[0], b[1], 0);
      assert b == [b[0], b[1]];
    } else if |b| == 1 {
      BytesOfGroup(b[0], 0, 0);
      assert b == [b[0]];
    }
  }

  lemma ShortTo(b: Bytes)
    requires |b| < 3
    ensures ToSextets(b) == ShortToSextets(b)
  {
  }

  lemma ShortFrom(s: seq<Sextet>)
    requires |s| < 4
    ensures FromSextets(s) == ShortFromSextets(s)
  {
  }

  lemma FromInvertsGroup(b0: Byte, b1: Byte, b2: Byte, tail: Bytes)
    requires FromSextets(ToSextets(tail)) == Some(tail)
    ensures FromSextets(ToSextets([b0, b1, b2] + tail)) == Some([b0, b1, b2] + tail)
    ensures |ToSextets([b0, b1, b2] + tail)| == 4 + |ToSextets(tail)|
  {
    hide First, Second, Third, ToSextets, FromSextets;
    ToGroup(b0, b1, b2, tail);
    BytesOfGroup(b0, b1, b2);
    FromGroup(b0 / 4, b0 % 4 * 16 + b1 / 16, b1 % 16 * 4 + b2 / 64, b2 % 64, ToSextets(tail));
  }

  lemma {:induction false} FromInvertsTo(b: Bytes)
    ensures FromSextets(ToSextets(b)) == Some(b)
    ensures Missing(|ToSextets(b)|) == (3 - |b| % 3) % 3
  {
    hide First, Second, Third, ShortToSextets, ShortFromSextets, ToSextets, FromSextets;
    if |b| < 3 {
      FromInvertsShort(b);
      ShortTo(b);
      ShortFrom(ShortToSextets(b));
    } else {
      FromInvertsTo(b[3..]);
      FromInvertsGroup(b[0], b[1], b[2], b[3..]);
      assert b == [b[0], b[1], b[2]] + b[3..];
    }
  }

  lemma {:induction false} StripExactlyPads(body: Text, n: nat)
    requires PAD !in body
    ensures StripPads(body + Pads(n)) == body
  {
    var t := body + Pads(n);
    if n > 0 {
      assert t[..|t| - 1] == body + Pads(n - 1);
      StripExactlyPads(body, n - 1);
    } else {
      assert t == body;
      assert body != [] ==> body[|body| - 1] in body;
    }
  }

  lemma EncodeIsSymbols(b: Bytes)
    ensures Encode(b) == Symbols(ToSextets(b))
  {
    SymbolsValues(ToSextets(b));
    StripExactlyPads(Symbols(ToSextets(b)), (3 - |b| % 3) % 3);
  }

  lemma DecodeSymbols(t: Text)
    requires AllSymbols(t)
    ensures Decode(t) == if |t| % 4 == 1 then None else FromSextets(Values(t))
  {
    StripExactlyPads(t, Missing(|t|));
    MissingCompletes(|t|);
    assert StripPads(t + Pads(Missing(|t|))) == t;
  }

  lemma MissingCompletes(n: nat)
    ensures (n + Missing(n)) % 4 == 0 && (Missing(n) > 2 <==> n % 4 == 1)
  {
  }

  /** Encoding a byte string and decoding with recomputed padding gives it back; the
      encoded text holds symbols only, so neither a pad nor a dot. */
  lemma DecodeInvertsEncode(b: Bytes)
    ensures Decode(Encode(b)) == Some(b)
    ensures AllSymbols(Encode(b)) && DOT !in Encode(b) && PAD !in Encode(b)
  {
    hide Encode, Decode, ToSextets, FromSextets, Symbol, Value;
    EncodeIsSymbols(b);
    SymbolsValues(ToSextets(b));
    FromInvertsTo(b);
    DecodeSymbols(Encode(b));
  }

  /** The bits of the last symbol that no byte uses are zero. */
  predicate CleanTail(s: seq<Sextet>) {
    (|s| % 4 == 2 ==> s[|s| - 1] % 16 == 0) && (|s| % 4 == 3 ==> s[|s| - 1] % 4 == 0)
  }

  lemma ToInvertsShort(s: seq<Sextet>)
    requires |s| < 4
    ensures ShortFromSextets(s).Some? <==> |s| != 1
    ensures ShortFromSextets(s).Some? ==>
              var b := ShortFromSextets(s).value;
              |b| < 3 && (ShortToSextets(b) == s <==> CleanTail(s))
  {
    hide First, Second, Third;
    if |s| == 2 {
      OneByteGroup(s[0], s[1]);
      assert ShortToSextets([First(s[0], s[1])]) == [s[0], s[1] / 16 * 16];
    } else if |s| == 3 {
      TwoByteGroup(s[0], s[1], s[2]);
      assert ShortToSextets([First(s[0], s[1]), Second(s[1], s[2])]) == [s[0], s[1], s[2] / 4 * 4];
    }
  }

  lemma OneByteGroup(s0: Sextet, s1: Sextet)
    ensures First(s0, s1) / 4 == s0 && First(s0, s1) % 4 * 16 == s1 / 16 * 16
  {
  }

  lemma TwoByteGroup(s0: Sextet, s1: Sextet, s2: Sextet)
    ensures var b0, b1 := First(s0, s1), Second(s1, s2);
            b0 / 4 == s0 && b0 % 4 * 16 + b1 / 16 == s1 && b1 % 16 * 4 == s2 / 4 * 4
  {
  }

  lemma {:induction false} ToInvertsFrom(s: seq<Sextet>)
    ensures FromSextets(s).Some? <==> |s| % 4 != 1
    ensures FromSextets(s).Some? ==> (ToSextets(FromSextets(s).value) == s <==> CleanTail(s))
  {
    hide First, Second, Third, CleanTail, ToSextets, FromSextets, ShortToSextets, ShortFromSextets;
    if |s| >= 4 {
      ToInvertsFrom(s[4..]);
      var group := [s[0], s[1], s[2], s[3]];
      assert s == group + s[4..];
      FromGroup(s[0], s[1], s[2], s[3], s[4..]);
      if |s| % 4 != 1 {
        FullGroup(s[0], s[1], s[2], s[3], s[4..]);
        PrefixCut(group, ToSextets(FromSextets(s[4..]).value), s[4..]);
        SameTail(s);
      }
    } else {
      ToInvertsShort(s);
      ShortFrom(s);
      if |s| != 1 { ShortTo(ShortFromSextets(s).value); }
    }
  }

  lemma FullGroup(s0: Sextet, s1: Sextet, s2: Sextet, s3: Sextet, tail: seq<Sextet>)
    requires FromSextets(tail).Some?
    ensures FromSextets([s0, s1, s2, s3] + tail).Some?
    ensures ToSextets(FromSextets([s0, s1, s2, s3] + tail).value)
         == [s0, s1, s2, s3] + ToSextets(FromSextets(tail).value)
  {
    FromGroup(s0, s1, s2, s3, tail);
    SextetsOfGroup(s0, s1, s2, s3);
    ToGroup(First(s0, s1), Second(s1, s2), Third(s2, s3), FromSextets(tail).value);
  }

  lemma SameTail(s: seq<Sextet>)
    requires |s| >= 4
    ensures CleanTail(s) <==> CleanTail(s[4..])
  {
    assert |s| % 4 == |s[4..]| % 4;
    if |s| > 4 { assert s[4..][|s| - 5] == s[|s| - 1]; }
  }

  /** A text of symbols decodes exactly when its length is possible, and encoding the
      bytes gives the text back exactly when its unused bits are zero. */
  lemma EncodeInvertsDecode(t: Text)
    requires AllSymbols(t)
    ensures Decode(t).Some? <==> |t| % 4 != 1
    ensures Decode(t).Some? ==> (Encode(Decode(t).value) == t <==> CleanTail(Values(t)))
  {
    DecodeSymbols(t);
    ToInvertsFrom(Values(t));
    ValuesSymbols(t);
    if |t| % 4 != 1 {
      EncodeIsSymbols(Decode(t).value);
      SymbolsValues(ToSextets(Decode(t).value));
    }
  }

  // -------------------------------------------------------------- compact JWS

  function SigningInput(header: Bytes, payload: Bytes): Text {
    Encode(header) + [DOT] + Encode(payload)
  }

  /** `_sign_bootstrap`: header, payload and the signature of their joined encodings. */
  function CompactJws(header: Bytes, payload: Bytes, sign: Text -> Bytes): Text {
    SigningInput(header, payload) + [DOT] + Encode(sign(SigningInput(header, payload)))
  }

  /** A receiver that splits a built token on dots finds exactly three parts, decodes
      each to what was encoded, and rebuilds exactly the text that was signed
      (section 7.1 of RFC 7515). */
  lemma CompactJwsSplits(header: Bytes, payload: Bytes, sign: Text -> Bytes)
    ensures var parts := Split(CompactJws(header, payload, sign), DOT);
            && |parts| == 3
            && Decode(parts[0]) == Some(header)
            && Decode(parts[1]) == Some(payload)
            && Decode(parts[2]) == Some(sign(parts[0] + [DOT] + parts[1]))
            && parts[0] + [DOT] + parts[1] == SigningInput(header, payload)
  {
    var sig := sign(SigningInput(header, payload));
    DecodeInvertsEncode(header);
    DecodeInvertsEncode(payload);
    DecodeInvertsEncode(sig);
    ThreeParts(Encode(header), Encode(payload), Encode(sig));
  }

  lemma ThreeParts(h: Text, p: Text, s: Text)
    requires DOT !in h && DOT !in p && DOT !in s
    ensures Split(h + [DOT] + p + [DOT] + s, DOT) == [h, p, s]
  {
    assert h + [DOT] + p + [DOT] + s == h + [DOT] + (p + [DOT] + s);
    SplitFirst(h, DOT, p + [DOT] + s);
    SplitFirst(p, DOT, s);
    SplitNone(s, DOT);
  }

  // --------------------------------------------------------------- known answers

  /** The alphabet of table 2 of RFC 4648. */
  lemma AlphabetIs(n: Sextet)
    ensures n < 26 ==> Symbol(n) == 'A' as int + n
    ensures 26 <= n < 52 ==> Symbol(n) == 'a' as int + (n - 26)
    ensures 52 <= n < 62 ==> Symbol(n) == '0' as int + (n - 52)
    ensures n == 62 ==> Symbol(n) == '-' as int
    ensures n == 63 ==> Symbol(n) == '_' as int
  {
  }

  /** Three bytes are four symbols: read in base 64 they are the 24 bits. */
  lemma ThreeBytesAreFourSymbols(a: Byte, b: Byte, c: Byte)
    ensures var s := ToSextets([a, b, c]);
            && |s| == 4
            && var s0: int, s1: int, s2: int, s3: int := s[0], s[1], s[2], s[3];
               262144 * s0 + 4096 * s1 + 64 * s2 + s3 == 65536 * (a as int) + 256 * (b as int) + (c as int)
  {
    assert [a, b, c][3..] == [];
    assert ToSextets([]) == [];
  }

  /** Test vectors of section 10 of RFC 4648, without padding, and one with both special symbols. */
  lemma KnownAnswers()
    ensures Encode([0x66]) == Chars("Zg") && Encode([0x66, 0x6F]) == Chars("Zm8")
    ensures Encode([0x66, 0x6F, 0x6F]) == Chars("Zm9v") && Encode([0xFB, 0xEF, 0xBF]) == Chars("---_")
  {
    KnownSextets();
    hide ToSextets, Encode;
    EncodesTo([0x66], [25, 32]);
    EncodesTo([0x66, 0x6F], [25, 38, 60]);
    EncodesTo([0x66, 0x6F, 0x6F], [25, 38, 61, 47]);
    EncodesTo([0xFB, 0xEF, 0xBF], [62, 62, 62, 63]);
  }

  lemma KnownSextets()
    ensures ToSextets([0x66]) == [25, 32] && ToSextets([0x66, 0x6F]) == [25, 38, 60]
    ensures ToSextets([0x66, 0x6F, 0x6F]) == [25, 38, 61, 47] && ToSextets([0xFB, 0xEF, 0xBF]) == [62, 62, 62, 63]
  {
    var none: Bytes := [];
    assert [0x66, 0x6F, 0x6F][3..] == none && [0xFB, 0xEF, 0xBF][3..] == none && ToSextets(none) == [];
  }

  lemma EncodesTo(b: Bytes, s: seq<Sextet>)
    requires ToSextets(b) == s
    ensures Encode(b) == Symbols(s)
  {
    EncodeIsSymbols(b);
  }
}
