/**
 Sorting association lists by key: what `sorted(value.keys())` followed by a look-up
 of each key does to a dict. Insertion order is visible in the argument and gone in
 the result.
 */
module KeySort {
  import opened Texts

  predicate HasKey<V>(es: seq<(Text, V)>, k: Text) {
    exists i | 0 <= i < |es| :: es[i].0 == k
  }

  predicate DistinctKeys<V>(es: seq<(Text, V)>) {
    forall i, j | 0 <= i < j < |es| :: es[i].0 != es[j].0
  }

  predicate Sorted<V>(es: seq<(Text, V)>) {
    forall i, j | 0 <= i < j < |es| :: LexLess(es[i].0, es[j].0)
  }

  function Insert<V>(e: (Text, V), es: seq<(Text, V)>): (r: seq<(Text, V)>)
    ensures |r| == |es| + 1
  {
    if es == [] || !LexLess(es[0].0, e.0) then [e] + es
    else [es[0]] + Insert(e, es[1..])
  }

  function SortByKey<V>(es: seq<(Text, V)>): (r: seq<(Text, V)>)
    ensures |r| == |es|
  {
    if es == [] then [] else Insert(es[0], SortByKey(es[1..]))
  }

  lemma {:induction false} InsertKeeps<V>(e: (Text, V), es: seq<(Text, V)>)
    ensures multiset(Insert(e, es)) == multiset{e} + multiset(es)
  {
    if es != [] && LexLess(es[0].0, e.0) {
      InsertKeeps(e, es[1..]);
      assert es == [es[0]] + es[1..];
    }
  }

  lemma {:induction false} SortKeeps<V>(es: seq<(Text, V)>)
    ensures multiset(SortByKey(es)) == multiset(es)
  {
    if es != [] {
      SortKeeps(es[1..]);
      InsertKeeps(es[0], SortByKey(es[1..]));
      assert es == [es[0]] + es[1..];
    }
  }

  lemma SortMembers<V>(es: seq<(Text, V)>, e: (Text, V))
    ensures e in SortByKey(es) <==> e in es
  {
    SortKeeps(es);
    assert e in SortByKey(es) <==> e in multiset(SortByKey(es));
    assert e in es <==> e in multiset(es);
  }

  lemma {:induction false} InsertSorted<V>(e: (Text, V), es: seq<(Text, V)>)
    requires Sorted(es) && !HasKey(es, e.0)
    ensures Sorted(Insert(e, es))
  {
    if es == [] {
    } else if !LexLess(es[0].0, e.0) {
      LexTotal(e.0, es[0].0);
      forall j | 0 < j < |es| ensures LexLess(e.0, es[j].0) {
        LexTransitive(e.0, es[0].0, es[j].0);
      }
    } else {
      InsertSorted(e, es[1..]);
      InsertKeeps(e, es[1..]);
      var r := Insert(e, es[1..]);
      forall j | 0 <= j < |r| ensures LexLess(es[0].0, r[j].0) {
        assert r[j] in multiset(r);
        assert r[j] == e || r[j] in es[1..];
      }
    }
  }

  lemma {:induction false} SortSorts<V>(es: seq<(Text, V)>)
    requires DistinctKeys(es)
    ensures Sorted(SortByKey(es))
  {
    if es != [] {
      SortSorts(es[1..]);
      var r := SortByKey(es[1..]);
      forall j | 0 <= j < |r| ensures r[j].0 != es[0].0 {
        SortMembers(es[1..], r[j]);
        var i :| 0 <= i < |es[1..]| && es[1..][i] == r[j];
        assert es[1..][i] == es[i + 1];
      }
      InsertSorted(es[0], r);
    }
  }

  ghost predicate SameMembers<V(!new)>(a: seq<(Text, V)>, b: seq<(Text, V)>) {
    forall e :: e in a <==> e in b
  }

  lemma EmptyTogether<V(!new)>(a: seq<(Text, V)>, b: seq<(Text, V)>)
    requires SameMembers(a, b)
    ensures a == [] <==> b == []
  {
    if a != [] { assert a[0] in a; }
    if b != [] { assert b[0] in b; }
  }

  lemma SortSameMembers<V(!new)>(es: seq<(Text, V)>)
    ensures SameMembers(SortByKey(es), es)
  {
    forall e ensures e in SortByKey(es) <==> e in es { SortMembers(es, e); }
  }

  /** A sorted list is determined by its members. */
  lemma {:induction false} SortedUnique<V(!new)>(a: seq<(Text, V)>, b: seq<(Text, V)>)
    requires Sorted(a) && Sorted(b)
    requires SameMembers(a, b)
    ensures a == b
  {
    EmptyTogether(a, b);
    if a != [] {
      SortedHead(a, b);
      forall e ensures e in a[1..] <==> e in b[1..] {
        assert e in a <==> e in b;
        SortedTail(a, e);
        SortedTail(b, e);
      }
      SortedUnique(a[1..], b[1..]);
      assert a == [a[0]] + a[1..] && b == [b[0]] + b[1..];
    }
  }

  lemma SortedHead<V(!new)>(a: seq<(Text, V)>, b: seq<(Text, V)>)
    requires Sorted(a) && Sorted(b) && a != [] && b != []
    requires SameMembers(a, b)
    ensures a[0] == b[0]
  {
    assert a[0] in b && b[0] in a;
    var i :| 0 <= i < |b| && b[i] == a[0];
    var j :| 0 <= j < |a| && a[j] == b[0];
    if i != 0 && j != 0 {
      LexAsymmetric(b[0].0, a[0].0);
    }
  }

  lemma SortedTail<V>(a: seq<(Text, V)>, e: (Text, V))
    requires Sorted(a) && a != []
    ensures e in a[1..] <==> e in a && e != a[0]
  {
    assert a == [a[0]] + a[1..];
    LexIrreflexive(a[0].0);
    forall i | 0 <= i < |a[1..]| ensures a[1..][i] != a[0] {
      assert a[1..][i] == a[i + 1];
    }
  }

  // Sorting looks at keys only.

  function MapValues<V, W>(f: V -> W, es: seq<(Text, V)>): (r: seq<(Text, W)>)
    ensures |r| == |es|
    ensures forall i | 0 <= i < |es| :: r[i] == (es[i].0, f(es[i].1))
  {
    if es == [] then [] else [(es[0].0, f(es[0].1))] + MapValues(f, es[1..])
  }

  lemma {:induction false} InsertMap<V, W>(f: V -> W, e: (Text, V), es: seq<(Text, V)>)
    ensures Insert((e.0, f(e.1)), MapValues(f, es)) == MapValues(f, Insert(e, es))
  {
    if es != [] && LexLess(es[0].0, e.0) {
      InsertMap(f, e, es[1..]);
      assert MapValues(f, es)[1..] == MapValues(f, es[1..]);
    }
  }

  lemma {:induction false} SortMap<V, W>(f: V -> W, es: seq<(Text, V)>)
    ensures SortByKey(MapValues(f, es)) == MapValues(f, SortByKey(es))
  {
    if es != [] {
      SortMap(f, es[1..]);
      InsertMap(f, es[0], SortByKey(es[1..]));
      assert MapValues(f, es)[1..] == MapValues(f, es[1..]);
    }
  }

  // ---------------------------------------------------------------- RFC 8785

  /** Section 3.2.3 of RFC 8785: property names in ascending UTF-16 order. */
  predicate SortedUtf16<V>(es: seq<(Text, V)>) {
    forall i, j | 0 <= i < j < |es| :: LexLess(Utf16(es[i].0), Utf16(es[j].0))
  }

  /** No two keys first differ by a code point in U+E000..U+FFFF against a supplementary one. */
  predicate NoCrossing<V>(es: seq<(Text, V)>) {
    forall i, j | 0 <= i < j < |es| :: !FirstDifferenceCrosses(es[i].0, es[j].0)
  }

  predicate EncodableKeys<V>(es: seq<(Text, V)>) {
    forall i | 0 <= i < |es| :: Encodable(es[i].0)
  }

  lemma {:induction false} CrossingSymmetric(a: Text, b: Text)
    ensures FirstDifferenceCrosses(a, b) <==> FirstDifferenceCrosses(b, a)
  {
    if a != [] && b != [] && a[0] == b[0] { CrossingSymmetric(a[1..], b[1..]); }
  }

  lemma NoCrossingAnyOrder<V(!new)>(a: seq<(Text, V)>, b: seq<(Text, V)>)
    requires NoCrossing(a) && DistinctKeys(b)
    requires SameMembers(a, b)
    ensures NoCrossing(b)
  {
    forall i, j | 0 <= i < j < |b| ensures !FirstDifferenceCrosses(b[i].0, b[j].0) {
      assert b[i] in a && b[j] in a;
      var p :| 0 <= p < |a| && a[p] == b[i];
      var q :| 0 <= q < |a| && a[q] == b[j];
      CrossingSymmetric(a[p].0, a[q].0);
      assert b[i].0 != b[j].0;
    }
  }

  lemma Utf16SortedIffNoCrossing<V>(r: seq<(Text, V)>)
    requires Sorted(r)
    requires EncodableKeys(r)
    ensures SortedUtf16(r) <==> NoCrossing(r)
  {
    forall i, j | 0 <= i < j < |r|
      ensures LexLess(Utf16(r[i].0), Utf16(r[j].0)) <==> !FirstDifferenceCrosses(r[i].0, r[j].0)
    {
      OrdersAgree(r[i].0, r[j].0);
    }
  }

  lemma SortedDistinct<V>(r: seq<(Text, V)>)
    requires Sorted(r)
    ensures DistinctKeys(r)
  {
    forall i, j | 0 <= i < j < |r| ensures r[i].0 != r[j].0 { LexIrreflexive(r[i].0); }
  }

  /** Sorting by code point yields the order RFC 8785 asks for exactly when no two keys cross. */
  lemma SortMeetsRfc8785<V(!new)>(es: seq<(Text, V)>)
    requires DistinctKeys(es)
    requires EncodableKeys(es)
    ensures SortedUtf16(SortByKey(es)) <==> NoCrossing(es)
  {
    var r := SortByKey(es);
    SortSorts(es);
    SortedDistinct(r);
    SortSameMembers(es);
    forall i | 0 <= i < |r| ensures Encodable(r[i].0) { assert r[i] in r; assert r[i] in es; }
    Utf16SortedIffNoCrossing(r);
    if NoCrossing(r) { NoCrossingAnyOrder(r, es); }
    if NoCrossing(es) { NoCrossingAnyOrder(es, r); }
  }

  /** In particular for every key set without code points in U+E000..U+FFFF. */
  lemma BelowPrivateUseNeverCrosses<V>(es: seq<(Text, V)>)
    requires forall i, p | 0 <= i < |es| && 0 <= p < |es[i].0| :: !(0xE000 <= es[i].0[p] <= 0xFFFF)
    ensures NoCrossing(es)
  {
    forall i, j | 0 <= i < j < |es| ensures !FirstDifferenceCrosses(es[i].0, es[j].0) {
      LowTextsNeverCross(es[i].0, es[j].0);
    }
  }

  lemma {:induction false} LowTextsNeverCross(a: Text, b: Text)
    requires forall p | 0 <= p < |a| :: !(0xE000 <= a[p] <= 0xFFFF)
    requires forall p | 0 <= p < |b| :: !(0xE000 <= b[p] <= 0xFFFF)
    ensures !FirstDifferenceCrosses(a, b)
  {
    if a != [] && b != [] && a[0] == b[0] { LowTextsNeverCross(a[1..], b[1..]); }
  }

  /** The claim of RFC 8785 order without that condition is false: U+FFFD sorts before
      U+1F600 by code point and after it by UTF-16 code unit. */
  lemma SortCanMissRfc8785() returns (es: seq<(Text, int)>)
    ensures DistinctKeys(es) && EncodableKeys(es)
    ensures !SortedUtf16(SortByKey(es))
  {
    es := [([0xFFFD], 0), ([0x1F600], 1)];
    assert FirstDifferenceCrosses(es[0].0, es[1].0);
    SortMeetsRfc8785(es);
  }
}
