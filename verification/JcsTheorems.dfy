/**
 What the canonical text of a value determines: the value up to insertion order.
 */
module JcsTheorems {
  import opened Texts
  import opened KeySort
  import opened Json
  import opened Jcs
  import opened JsonReader

  /** Nothing non-finite and no foreign type, at any depth. */
  predicate Printable(v: Json) {
    match v
    case NonFinite(_) => false
    case Unsupported => false
    case List(vs) => forall i | 0 <= i < |vs| :: Printable(vs[i])
    case Tuple(vs) => forall i | 0 <= i < |vs| :: Printable(vs[i])
    case Dict(es) => forall i | 0 <= i < |es| :: Printable(es[i].1)
    case _ => true
  }

  lemma {:induction false} JoinOkIff(rs: seq<Result<Text>>)
    ensures JoinAll(rs).Ok? <==> forall i | 0 <= i < |rs| :: rs[i].Ok?
  {
    if rs != [] {
      JoinOkIff(rs[1..]);
      assert rs == [rs[0]] + rs[1..];
    }
  }

  /** The printer raises on exactly the values it says it does not support. */
  lemma {:induction false} PrintsIffPrintable(v: Json)
    ensures Canonicalize(v).Ok? <==> Printable(v)
    decreases v
  {
    match v
    case List(vs) => AllPrintIffPrintable(v);
    case Tuple(vs) => AllPrintIffPrintable(v);
    case Dict(es) =>
      var ce := CanonicalizeEntries(es);
      forall i | 0 <= i < |es| ensures ce[i].1.Ok? <==> Printable(es[i].1) {
        PrintsIffPrintable(es[i].1);
      }
      JoinOkIff(Label(SortByKey(ce)));
      var s := SortByKey(ce);
      if forall i | 0 <= i < |ce| :: ce[i].1.Ok? {
        forall i | 0 <= i < |s| ensures Label(s)[i].Ok? {
          SortMembers(ce, s[i]);
        }
      } else {
        var i :| 0 <= i < |ce| && ce[i].1.Err?;
        SortMembers(ce, ce[i]);
        var j :| 0 <= j < |s| && s[j] == ce[i];
        assert Label(s)[j].Err?;
      }
    case _ =>
  }

  lemma AllPrintIffPrintable(v: Json)
    requires IsSequence(v)
    ensures Canonicalize(v).Ok? <==> Printable(v)
    decreases v, 0
  {
    forall i | 0 <= i < |v.items| ensures Canonicalize(v.items[i]).Ok? <==> Printable(v.items[i]) {
      PrintsIffPrintable(v.items[i]);
    }
    JoinOkIff(CanonicalizeAll(v.items));
  }

  /** Values with the same normal form are the same value. */
  lemma {:induction false} SameNormalFormSameValue(v: Json, w: Json)
    requires WellFormed(v) && WellFormed(w) && Canon(v) == Canon(w)
    ensures SameValue(v, w)
    decreases v
  {
    match v
    case List(vs) => SameItemForms(v, w);
    case Tuple(vs) => SameItemForms(v, w);
    case Dict(es) =>
      var fs := w.entries;
      SameKeysFromForms(es, fs);
      SameKeysFromForms(fs, es);
      forall i, j | 0 <= i < |es| && 0 <= j < |fs| && es[i].0 == fs[j].0
        ensures SameValue(es[i].1, fs[j].1)
      {
        var j' := MatchingEntry(es, fs, i);
        assert j' == j;
        SameNormalFormSameValue(es[i].1, fs[j].1);
      }
    case _ =>
  }

  lemma SameItemForms(v: Json, w: Json)
    requires IsSequence(v) && WellFormed(v) && WellFormed(w) && Canon(v) == Canon(w)
    ensures SameValue(v, w)
    decreases v, 0
  {
    assert CanonAll(v.items) == CanonAll(w.items);
    forall i | 0 <= i < |v.items| ensures SameValue(v.items[i], w.items[i]) {
      assert CanonAll(v.items)[i] == CanonAll(w.items)[i];
      SameNormalFormSameValue(v.items[i], w.items[i]);
    }
  }

  lemma MatchingEntry(es: Entries, fs: Entries, i: nat) returns (j: nat)
    requires SortByKey(CanonEntries(es)) == SortByKey(CanonEntries(fs)) && i < |es|
    ensures j < |fs| && fs[j].0 == es[i].0 && Canon(fs[j].1) == Canon(es[i].1)
  {
    var e := CanonEntries(es)[i];
    SortMembers(CanonEntries(es), e);
    SortMembers(CanonEntries(fs), e);
    j :| 0 <= j < |CanonEntries(fs)| && CanonEntries(fs)[j] == e;
  }

  lemma SameKeysFromForms(es: Entries, fs: Entries)
    requires SortByKey(CanonEntries(es)) == SortByKey(CanonEntries(fs))
    ensures forall k | HasKey(es, k) :: HasKey(fs, k)
  {
    forall k | HasKey(es, k) ensures HasKey(fs, k) {
      var i :| 0 <= i < |es| && es[i].0 == k;
      var j := MatchingEntry(es, fs, i);
    }
  }

  /** Two printable values have the same canonical text exactly when they are the same
      value up to insertion order, list or tuple, and 99 or 99.0. */
  lemma PrintAlikeIffSameValue(v: Json, w: Json)
    requires WellFormed(v) && WellFormed(w) && Printable(v) && Printable(w)
    ensures Canonicalize(v) == Canonicalize(w) <==> SameValue(v, w)
  {
    PrintsIffPrintable(v);
    PrintsIffPrintable(w);
    if SameValue(v, w) { SameValueSameText(v, w); }
    if Canonicalize(v) == Canonicalize(w) {
      ReadInvertsPrint(v, []);
      ReadInvertsPrint(w, []);
      SameNormalFormSameValue(v, w);
    }
  }

  /** No proper extension of a value's text is read as another value: texts of
      non-numbers are a prefix code. */
  lemma NoTextIsPrefixOfAnother(v: Json, w: Json, rest: Text)
    requires WellFormed(v) && WellFormed(w) && Printable(v) && Printable(w) && !IsNumber(v)
    requires Canonicalize(w).Ok? && Canonicalize(v).Ok?
    requires Canonicalize(w).value == Canonicalize(v).value + rest
    ensures rest == [] && SameValue(v, w)
  {
    ReadInvertsPrint(v, rest);
    ReadInvertsPrint(w, []);
    assert Canonicalize(w).value + [] == Canonicalize(w).value;
    SameNormalFormSameValue(v, w);
  }

  // -------------------------------------------------------------- fixed point

  lemma {:induction false} CanonIdempotent(v: Json)
    requires WellFormed(v)
    ensures WellFormed(Canon(v)) && Canon(Canon(v)) == Canon(v)
    decreases v
  {
    match v
    case List(vs) => CanonItemsIdempotent(v);
    case Tuple(vs) => CanonItemsIdempotent(v);
    case Dict(es) =>
      var ce := CanonEntries(es);
      forall i | 0 <= i < |es| ensures WellFormed(ce[i].1) && Canon(ce[i].1) == ce[i].1 {
        CanonIdempotent(es[i].1);
      }
      assert CanonEntries(ce) == ce;
      SortedEntries(ce);
      SortSorts(ce);
      SortedDistinct(SortByKey(ce));
      SortSameMembers(ce);
      SameMembersSameSort(SortByKey(ce), ce);
      forall i | 0 <= i < |ce| ensures WellFormed(SortByKey(ce)[i].1) {
        SortMembers(ce, SortByKey(ce)[i]);
      }
    case _ =>
  }

  lemma CanonItemsIdempotent(v: Json)
    requires IsSequence(v) && WellFormed(v)
    ensures WellFormed(Canon(v)) && Canon(Canon(v)) == Canon(v)
    decreases v, 0
  {
    var c := CanonAll(v.items);
    forall i | 0 <= i < |c| ensures WellFormed(c[i]) && Canon(c[i]) == c[i] {
      CanonIdempotent(v.items[i]);
    }
    assert CanonAll(c) == c;
  }

  /** Reading an output gives back the value it was printed from, and printing what was
      read reproduces the output. */
  lemma ReadThenPrintIsIdentity(v: Json)
    requires WellFormed(v) && Printable(v)
    ensures Canonicalize(v).Ok?
    ensures var r := ReadValue(Canonicalize(v).value);
            r.Some? && r.value.1 == [] && WellFormed(r.value.0) &&
            SameValue(r.value.0, v) && Canonicalize(r.value.0) == Canonicalize(v)
  {
    PrintsIffPrintable(v);
    ReadInvertsPrint(v, []);
    assert Canonicalize(v).value + [] == Canonicalize(v).value;
    CanonIdempotent(v);
    SameNormalFormSameValue(Canon(v), v);
    SameValueSameText(Canon(v), v);
  }

  // ---------------------------------------------------------------- key order

  /** The members of a printed dict stand in the order section 3.2.3 of RFC 8785 requires
      exactly when no two of its keys cross. */
  lemma PrintedKeyOrder(es: Entries)
    requires WellFormed(Dict(es)) && Printable(Dict(es)) && EncodableKeys(es)
    ensures Canonicalize(Dict(es)).Ok?
    ensures var r := ReadValue(Canonicalize(Dict(es)).value);
            r.Some? && r.value.0.Dict? && (SortedUtf16(r.value.0.entries) <==> NoCrossing(es))
  {
    var v := Dict(es);
    PrintsIffPrintable(v);
    ReadInvertsPrint(v, []);
    assert Canonicalize(v).value + [] == Canonicalize(v).value;
    var ce := CanonEntries(es);
    SortMeetsRfc8785(ce);
  }

  // ------------------------------------------------------------ the texts themselves

  /** A string without control characters, quotes and backslashes prints as itself. */
  lemma PlainPrintsAsItself(s: Text)
    requires forall i | 0 <= i < |s| :: s[i] >= 0x20 && s[i] != '"' as int && s[i] != '\\' as int
    ensures Canonicalize(Str(s)) == Ok(['"' as int] + s + ['"' as int])
  {
    PlainIsNotEscaped(s);
  }

  lemma {:induction false} PlainIsNotEscaped(s: Text)
    requires forall i | 0 <= i < |s| :: s[i] >= 0x20 && s[i] != '"' as int && s[i] != '\\' as int
    ensures Escaped(s) == s
  {
    if s != [] {
      PlainIsNotEscaped(s[1..]);
      assert [s[0]] + s[1..] == s;
    }
  }

  /** What prints between the quotes. */
  function Inner(s: Text): Text {
    match Canonicalize(Str(s)) case Ok(t) => if |t| >= 2 then t[1..|t| - 1] else [] case Err(_) => []
  }

  /** Strings print character by character. */
  lemma StringsConcatenate(a: Text, b: Text)
    ensures Canonicalize(Str(a + b)) == Ok(['"' as int] + (Inner(a) + Inner(b)) + ['"' as int])
  {
    EscapedConcatenates(a, b);
    InnerIsEscaped(a);
    InnerIsEscaped(b);
  }

  lemma InnerIsEscaped(s: Text)
    ensures Inner(s) == Escaped(s)
  {
    assert Canonicalize(Str(s)) == Ok(Quoted(s));
    assert Quoted(s)[1..|Quoted(s)| - 1] == Escaped(s);
  }

  lemma {:induction false} EscapedConcatenates(a: Text, b: Text)
    ensures Escaped(a + b) == Escaped(a) + Escaped(b)
  {
    if a == [] {
      assert a + b == b;
    } else {
      assert (a + b)[1..] == a[1..] + b;
      EscapedConcatenates(a[1..], b);
    }
  }

  /** The characters that do not print as themselves: seven with a letter or sign of their own,
      the other control characters with two lower-case hexadecimal digits. */
  lemma EscapesAre(c: CodePoint)
    requires c < 0x20 || c == '"' as int || c == '\\' as int
    ensures c == '"' as int ==> Inner([c]) == Chars("\\\"")
    ensures c == '\\' as int ==> Inner([c]) == Chars("\\\\")
    ensures c == 8 ==> Inner([c]) == Chars("\\b")
    ensures c == 9 ==> Inner([c]) == Chars("\\t")
    ensures c == 10 ==> Inner([c]) == Chars("\\n")
    ensures c == 12 ==> Inner([c]) == Chars("\\f")
    ensures c == 13 ==> Inner([c]) == Chars("\\r")
    ensures c < 0x20 && c !in {8, 9, 10, 12, 13} ==>
              Inner([c]) == Chars("\\u00") + [if c < 16 then '0' as int else '1' as int,
                                             if c % 16 < 10 then '0' as int + c % 16 else 'a' as int + c % 16 - 10]
  {
    InnerIsEscaped([c]);
    assert [c][1..] == [];
    assert Escaped([c]) == EscapeChar(c) + [];
  }

  /** The other kinds of value, without white space. */
  lemma LiteralsAre(b: bool)
    ensures Canonicalize(Null) == Ok(Chars("null"))
    ensures Canonicalize(Bool(b)) == Ok(if b then Chars("true") else Chars("false"))
  {
  }

  lemma ListsAre(v: Json, w: Json)
    requires Canonicalize(v).Ok? && Canonicalize(w).Ok?
    ensures var tv, tw := Canonicalize(v).value, Canonicalize(w).value;
            && Canonicalize(List([])) == Ok(['[' as int, ']' as int])
            && Canonicalize(List([v])) == Ok(['[' as int] + tv + [']' as int])
            && Canonicalize(Tuple([v, w])) == Ok(['[' as int] + (tv + [',' as int] + tw) + [']' as int])
  {
    hide Canonicalize;
    ListOpens(List([]));
    ListOpens(List([v]));
    ListOpens(Tuple([v, w]));
    assert CanonicalizeAll([]) == [];
    assert CanonicalizeAll([v]) == [Canonicalize(v)];
    assert CanonicalizeAll([v, w]) == [Canonicalize(v), Canonicalize(w)];
    assert [Canonicalize(v), Canonicalize(w)][1..] == [Canonicalize(w)];
    assert JoinAll([Canonicalize(w)]) == Canonicalize(w);
    assert JoinAll([Canonicalize(v), Canonicalize(w)]) == Ok(Canonicalize(v).value + [COMMA] + Canonicalize(w).value);
    assert [LBRACKET] + [] + [RBRACKET] == ['[' as int, ']' as int];
  }

  lemma ListOpens(v: Json)
    requires IsSequence(v)
    ensures Canonicalize(v) == Wrap('[' as int, JoinAll(CanonicalizeAll(v.items)), ']' as int)
  {
  }

  lemma DictsAre(k: Text, v: Json)
    requires Canonicalize(v).Ok?
    ensures Canonicalize(Dict([])) == Ok(['{' as int, '}' as int])
    ensures Canonicalize(Dict([(k, v)])) ==
            Ok(['{' as int] + (Canonicalize(Str(k)).value + [':' as int] + Canonicalize(v).value) + ['}' as int])
  {
    assert Canonicalize(Str(k)) == Ok(Quoted(k));
    DictOpens([]);
    DictOpens([(k, v)]);
    hide Canonicalize, Quoted;
    assert CanonicalizeEntries([]) == [];
    assert CanonicalizeEntries([(k, v)]) == [(k, Canonicalize(v))];
    var one := [(k, Canonicalize(v))];
    assert one[1..] == [] && SortByKey(one) == one;
    assert Label(one) == [Ok(Quoted(k) + [COLON] + Canonicalize(v).value)];
    assert [LBRACE] + [] + [RBRACE] == ['{' as int, '}' as int];
  }

  lemma DictOpens(es: Entries)
    ensures Canonicalize(Dict(es)) == Wrap('{' as int, JoinAll(Label(SortByKey(CanonicalizeEntries(es)))), '}' as int)
  {
  }
}
