/**
 The signed order events of models/stock_picking_fulfillment.py and
 models/account_move_refund_proxy.py: the names their identifiers are hashed from, and the
 bodies they sign.
 */
module OrderEvents {
  import opened Texts
  import opened Decimals
  import opened KeySort
  import opened Json
  import opened Jcs
  import opened JcsTheorems

  const BAR: CodePoint := 0x7C
  const DASH: CodePoint := 0x2D

  // ------------------------------------------------------------ event identity

  /** A UTC instant; Odoo stores naive UTC datetimes. */
  datatype Stamp = Stamp(year: nat, month: nat, day: nat, hour: nat, minute: nat, second: nat, micro: nat)

  predicate SameMinute(a: Stamp, b: Stamp) {
    a.year == b.year && a.month == b.month && a.day == b.day && a.hour == b.hour && a.minute == b.minute
  }

  function Field(n: nat, width: nat): Text {
    PadLeft(Digits(n), width)
  }

  /** The instant floored to the minute, as `%Y-%m-%dT%H:%M:%SZ`. */
  function MinuteText(t: Stamp): Text {
    Field(t.year, 4) + [DASH] + (Field(t.month, 2) + [DASH] + (Field(t.day, 2) + ['T' as int] +
    (Field(t.hour, 2) + [':' as int] + (Field(t.minute, 2) + [':' as int] + Chars("00Z")))))
  }

  /** The name `_deterministic_jti` hashes. */
  function EventName(platform: Text, merchant: Text, order: Text, event: Text, at: Stamp): Text {
    platform + [BAR] + merchant + [BAR] + order + [BAR] + event + [BAR] + MinuteText(at)
  }

  lemma FieldHasNo(n: nat, width: nat, c: CodePoint)
    requires !IsDigit(c)
    ensures c !in Field(n, width)
  {
  }

  lemma FieldInjective(m: nat, n: nat, width: nat)
    requires Field(m, width) == Field(n, width)
    ensures m == n
  {
    NatOfPadLeft(m, width);
    NatOfPadLeft(n, width);
  }

  lemma CutField(m: nat, n: nat, width: nat, sep: CodePoint, x: Text, y: Text)
    requires !IsDigit(sep) && Field(m, width) + [sep] + x == Field(n, width) + [sep] + y
    ensures m == n && x == y
  {
    FieldHasNo(m, width, sep);
    FieldHasNo(n, width, sep);
    CutAtFirst(Field(m, width), sep, x, Field(n, width), y);
    FieldInjective(m, n, width);
  }

  /** Two instants have the same text exactly when they lie in the same minute. */
  lemma MinuteTextIff(a: Stamp, b: Stamp)
    ensures MinuteText(a) == MinuteText(b) <==> SameMinute(a, b)
  {
    hide Field, Chars;
    if MinuteText(a) == MinuteText(b) {
      var a5, b5 := Chars("00Z"), Chars("00Z");
      var a4, b4 := Field(a.minute, 2) + [':' as int] + a5, Field(b.minute, 2) + [':' as int] + b5;
      var a3, b3 := Field(a.hour, 2) + [':' as int] + a4, Field(b.hour, 2) + [':' as int] + b4;
      var a2, b2 := Field(a.day, 2) + ['T' as int] + a3, Field(b.day, 2) + ['T' as int] + b3;
      var a1, b1 := Field(a.month, 2) + [DASH] + a2, Field(b.month, 2) + [DASH] + b2;
      CutField(a.year, b.year, 4, DASH, a1, b1);
      CutField(a.month, b.month, 2, DASH, a2, b2);
      CutField(a.day, b.day, 2, 'T' as int, a3, b3);
      CutField(a.hour, b.hour, 2, ':' as int, a4, b4);
      CutField(a.minute, b.minute, 2, ':' as int, a5, b5);
    }
  }

  lemma MinuteTextHasNoBar(t: Stamp)
    ensures BAR !in MinuteText(t)
  {
    hide Field;
    FieldHasNo(t.year, 4, BAR);
    FieldHasNo(t.month, 2, BAR);
    FieldHasNo(t.day, 2, BAR);
    FieldHasNo(t.hour, 2, BAR);
    FieldHasNo(t.minute, 2, BAR);
  }

  /** Event type and minute can be read off the end, whatever the other parts contain. */
  lemma NameEnd(head: Text, event: Text, at: Stamp, head': Text, event': Text, at': Stamp)
    requires BAR !in event && BAR !in event'
    requires head + [BAR] + event + [BAR] + MinuteText(at) == head' + [BAR] + event' + [BAR] + MinuteText(at')
    ensures head == head' && event == event' && SameMinute(at, at')
  {
    hide MinuteText;
    MinuteTextHasNoBar(at);
    MinuteTextHasNoBar(at');
    CutAtLast(head + [BAR] + event, BAR, MinuteText(at), head' + [BAR] + event', MinuteText(at'));
    CutAtLast(head, BAR, event, head', event');
    MinuteTextIff(at, at');
  }

  /** Unambiguous: the name determines all five parts as soon as platform, merchant and event
      type contain no bar; the order text may. */
  lemma EventNameIff(platform: Text, merchant: Text, order: Text, event: Text, at: Stamp,
                     platform': Text, merchant': Text, order': Text, event': Text, at': Stamp)
    requires BAR !in platform && BAR !in merchant && BAR !in event
    requires BAR !in platform' && BAR !in merchant' && BAR !in event'
    ensures EventName(platform, merchant, order, event, at) == EventName(platform', merchant', order', event', at') <==>
            platform == platform' && merchant == merchant' && order == order' && event == event' && SameMinute(at, at')
  {
    hide MinuteText;
    MinuteTextIff(at, at');
    if EventName(platform, merchant, order, event, at) == EventName(platform', merchant', order', event', at') {
      NameEnd(platform + [BAR] + merchant + [BAR] + order, event, at,
              platform' + [BAR] + merchant' + [BAR] + order', event', at');
      RightGrouped(platform, merchant, order);
      RightGrouped(platform', merchant', order');
      CutAtFirst(platform, BAR, merchant + [BAR] + order, platform', merchant' + [BAR] + order');
      CutAtFirst(merchant, BAR, order, merchant', order');
    }
  }

  lemma RightGrouped(p: Text, m: Text, o: Text)
    ensures p + [BAR] + m + [BAR] + o == p + [BAR] + (m + [BAR] + o)
  {
  }

  /** `f"{sale.id}|picking-{picking.id}"`. */
  function PickingOrder(sale: int, picking: int): Text {
    PrintInt(sale) + [BAR] + (Chars("picking-") + PrintInt(picking))
  }

  function FulfillmentName(merchant: Text, sale: int, picking: int, at: Stamp): Text {
    EventName(Chars("ODOO"), merchant, PickingOrder(sale, picking), Chars("FULFILLED"), at)
  }

  /** The date of a refund, at midnight. */
  function RefundName(merchant: Text, order: Text, day: Stamp): Text {
    EventName(Chars("ODOO"), merchant, order, Chars("REFUNDED"), day.(hour := 0, minute := 0, second := 0, micro := 0))
  }

  lemma LiteralHasNoBar(s: string)
    requires forall i | 0 <= i < |s| :: s[i] != '|'
    ensures BAR !in Chars(s)
  {
  }

  lemma NumberHasNoBar(n: int)
    ensures BAR !in PrintInt(n)
  {
    if BAR in PrintInt(n) { PrintIntChars(n, BAR); }
  }

  lemma PickingHasNoBar(picking: int)
    ensures BAR !in Chars("picking-") + PrintInt(picking)
  {
    LiteralHasNoBar("picking-");
    NumberHasNoBar(picking);
  }

  /** Two fulfilments share a name exactly when merchant, sale, picking and minute agree,
      even for merchants that contain a bar. */
  lemma FulfillmentNameIff(merchant: Text, sale: int, picking: int, at: Stamp,
                           merchant': Text, sale': int, picking': int, at': Stamp)
    ensures FulfillmentName(merchant, sale, picking, at) == FulfillmentName(merchant', sale', picking', at') <==>
            merchant == merchant' && sale == sale' && picking == picking' && SameMinute(at, at')
  {
    hide MinuteText, PrintInt, Chars;
    MinuteTextIff(at, at');
    if FulfillmentName(merchant, sale, picking, at) == FulfillmentName(merchant', sale', picking', at') {
      var head, head' := Chars("ODOO") + [BAR] + merchant, Chars("ODOO") + [BAR] + merchant';
      LiteralHasNoBar("FULFILLED");
      NameEnd(head + [BAR] + PickingOrder(sale, picking), Chars("FULFILLED"), at,
              head' + [BAR] + PickingOrder(sale', picking'), Chars("FULFILLED"), at');
      CutPicking(head, sale, picking, head', sale', picking');
      PrefixCut(Chars("ODOO") + [BAR], merchant, merchant');
    }
  }

  lemma CutPicking(head: Text, sale: int, picking: int, head': Text, sale': int, picking': int)
    requires head + [BAR] + PickingOrder(sale, picking) == head' + [BAR] + PickingOrder(sale', picking')
    ensures head == head' && sale == sale' && picking == picking'
  {
    hide PrintInt, Chars;
    var p, p' := Chars("picking-") + PrintInt(picking), Chars("picking-") + PrintInt(picking');
    PickingHasNoBar(picking);
    PickingHasNoBar(picking');
    assert head + [BAR] + PickingOrder(sale, picking) == (head + [BAR] + PrintInt(sale)) + [BAR] + p;
    assert head' + [BAR] + PickingOrder(sale', picking') == (head' + [BAR] + PrintInt(sale')) + [BAR] + p';
    CutAtLast(head + [BAR] + PrintInt(sale), BAR, p, head' + [BAR] + PrintInt(sale'), p');
    NumberHasNoBar(sale);
    NumberHasNoBar(sale');
    CutAtLast(head, BAR, PrintInt(sale), head', PrintInt(sale'));
    PrintIntInjective(sale, sale');
    PrefixCut(Chars("picking-"), PrintInt(picking), PrintInt(picking'));
    PrintIntInjective(picking, picking');
  }

  predicate SameDay(a: Stamp, b: Stamp) {
    a.year == b.year && a.month == b.month && a.day == b.day
  }

  /** Two refunds share a name exactly when their days agree and so do merchant and order text
      joined by a bar. */
  lemma RefundNameIffJoined(merchant: Text, order: Text, day: Stamp, merchant': Text, order': Text, day': Stamp)
    ensures RefundName(merchant, order, day) == RefundName(merchant', order', day') <==>
            merchant + [BAR] + order == merchant' + [BAR] + order' && SameDay(day, day')
  {
    hide MinuteText, Chars;
    var at, at' := day.(hour := 0, minute := 0, second := 0, micro := 0), day'.(hour := 0, minute := 0, second := 0, micro := 0);
    MinuteTextIff(at, at');
    RightGrouped(Chars("ODOO"), merchant, order);
    RightGrouped(Chars("ODOO"), merchant', order');
    if RefundName(merchant, order, day) == RefundName(merchant', order', day') {
      LiteralHasNoBar("REFUNDED");
      NameEnd(Chars("ODOO") + [BAR] + merchant + [BAR] + order, Chars("REFUNDED"), at,
              Chars("ODOO") + [BAR] + merchant' + [BAR] + order', Chars("REFUNDED"), at');
      PrefixCut(Chars("ODOO") + [BAR], merchant + [BAR] + order, merchant' + [BAR] + order');
    }
  }

  /** For merchants without a bar that is agreement of merchant, order text and day. */
  lemma RefundNameIff(merchant: Text, order: Text, day: Stamp, merchant': Text, order': Text, day': Stamp)
    requires BAR !in merchant && BAR !in merchant'
    ensures RefundName(merchant, order, day) == RefundName(merchant', order', day') <==>
            merchant == merchant' && order == order' && SameDay(day, day')
  {
    hide RefundName;
    RefundNameIffJoined(merchant, order, day, merchant', order', day');
    if merchant + [BAR] + order == merchant' + [BAR] + order' {
      CutAtFirst(merchant, BAR, order, merchant', order');
    }
  }

  /** A bar in the merchant makes refund names ambiguous. */
  lemma BarInMerchantIsAmbiguous(day: Stamp)
    ensures RefundName([0x61], [0x62] + [BAR] + [0x63], day) == RefundName([0x61] + [BAR] + [0x62], [0x63], day)
  {
    hide RefundName;
    RefundNameIffJoined([0x61], [0x62] + [BAR] + [0x63], day, [0x61] + [BAR] + [0x62], [0x63], day);
    assert [0x61] + [BAR] + ([0x62] + [BAR] + [0x63]) == ([0x61] + [BAR] + [0x62]) + [BAR] + [0x63];
  }

  /** A fulfilment and a refund never share a name. */
  lemma KindsNeverCollide(merchant: Text, sale: int, picking: int, at: Stamp, merchant': Text, order': Text, day': Stamp)
    ensures FulfillmentName(merchant, sale, picking, at) != RefundName(merchant', order', day')
  {
    hide MinuteText, PrintInt, PickingOrder;
    assert |Chars("FULFILLED")| != |Chars("REFUNDED")|;
    if FulfillmentName(merchant, sale, picking, at) == RefundName(merchant', order', day') {
      LiteralHasNoBar("FULFILLED");
      LiteralHasNoBar("REFUNDED");
      NameEnd(Chars("ODOO") + [BAR] + merchant + [BAR] + PickingOrder(sale, picking), Chars("FULFILLED"), at,
              Chars("ODOO") + [BAR] + merchant' + [BAR] + order', Chars("REFUNDED"),
              day'.(hour := 0, minute := 0, second := 0, micro := 0));
    }
  }

  // -------------------------------------------------------------- dict updates

  /** `d[key] = value`: in place when the key is there, else at the end. */
  function Put(es: Entries, key: Text, value: Json): Entries {
    if es == [] then [(key, value)]
    else if es[0].0 == key then [(key, value)] + es[1..]
    else [es[0]] + Put(es[1..], key, value)
  }

  /** A dict display. */
  function DictOf(pairs: Entries): Entries {
    if pairs == [] then []
    else Put(DictOf(pairs[..|pairs| - 1]), pairs[|pairs| - 1].0, pairs[|pairs| - 1].1)
  }

  /** `{k: v for k, v in d.items() if k != key}`. */
  function Without(es: Entries, key: Text): Entries {
    if es == [] then []
    else (if es[0].0 == key then [] else [es[0]]) + Without(es[1..], key)
  }

  predicate GoodEntries(es: Entries) {
    DistinctKeys(es) && forall i | 0 <= i < |es| :: WellFormed(es[i].1) && Printable(es[i].1)
  }

  lemma PutInPlace(es: Entries, key: Text, value: Json)
    requires GoodEntries(es) && WellFormed(value) && Printable(value) && es != [] && es[0].0 == key
    ensures GoodEntries([(key, value)] + es[1..])
    ensures forall k :: HasKey([(key, value)] + es[1..], k) <==> k == key || HasKey(es, k)
  {
    hide WellFormed, Printable;
    var r := [(key, value)] + es[1..];
    forall i | 0 <= i < |r| ensures r[i].0 == es[i].0 {}
    forall k ensures HasKey(r, k) <==> k == key || HasKey(es, k) {
      if i :| 0 <= i < |es| && es[i].0 == k { assert r[i].0 == k; }
    }
  }

  lemma {:induction false} PutFacts(es: Entries, key: Text, value: Json)
    requires GoodEntries(es) && WellFormed(value) && Printable(value)
    ensures GoodEntries(Put(es, key, value))
    ensures Get(Put(es, key, value), key) == Some(value)
    ensures forall k :: HasKey(Put(es, key, value), k) <==> k == key || HasKey(es, k)
  {
    hide WellFormed, Printable;
    var r := Put(es, key, value);
    if es == [] {
      assert r[0].0 == key;
    } else if es[0].0 == key {
      PutInPlace(es, key, value);
    } else {
      PutFacts(es[1..], key, value);
      var t := Put(es[1..], key, value);
      assert r == [es[0]] + t;
      PutTailKeys(es, key, t);
      forall i | 0 < i < |r| ensures r[i].0 != es[0].0 && WellFormed(r[i].1) && Printable(r[i].1) {
        assert t[i - 1] == r[i];
        assert HasKey(t, r[i].0);
      }
      forall i, j | 0 <= i < j < |r| ensures r[i].0 != r[j].0 {
        if i > 0 { assert t[i - 1] == r[i] && t[j - 1] == r[j]; }
      }
    }
  }

  lemma PutTailKeys(es: Entries, key: Text, t: Entries)
    requires es != [] && DistinctKeys(es) && es[0].0 != key
    requires forall k :: HasKey(t, k) <==> k == key || HasKey(es[1..], k)
    ensures !HasKey(t, es[0].0)
    ensures forall k :: HasKey([es[0]] + t, k) <==> k == key || HasKey(es, k)
  {
    forall i | 0 <= i < |es[1..]| ensures es[1..][i].0 != es[0].0 { assert es[1..][i] == es[i + 1]; }
    forall k ensures HasKey([es[0]] + t, k) <==> k == es[0].0 || HasKey(t, k) { HasKeyCons(es[0], t, k); }
    forall k ensures HasKey(es, k) <==> k == es[0].0 || HasKey(es[1..], k) {
      HasKeyCons(es[0], es[1..], k);
      assert es == [es[0]] + es[1..];
    }
  }

  lemma HasKeyCons(e: (Text, Json), es: Entries, k: Text)
    ensures HasKey([e] + es, k) <==> k == e.0 || HasKey(es, k)
  {
    var r := [e] + es;
    assert r[0].0 == e.0;
    if i :| 0 <= i < |es| && es[i].0 == k { assert r[i + 1].0 == k; }
  }

  lemma {:induction false} DictOfGood(pairs: Entries)
    requires forall i | 0 <= i < |pairs| :: WellFormed(pairs[i].1) && Printable(pairs[i].1)
    ensures GoodEntries(DictOf(pairs))
  {
    hide WellFormed, Printable;
    if pairs != [] {
      DictOfGood(pairs[..|pairs| - 1]);
      PutFacts(DictOf(pairs[..|pairs| - 1]), pairs[|pairs| - 1].0, pairs[|pairs| - 1].1);
    }
  }

  lemma {:induction false} WithoutMembers(es: Entries, key: Text, e: (Text, Json))
    ensures e in Without(es, key) <==> e in es && e.0 != key
  {
    if es != [] {
      WithoutMembers(es[1..], key, e);
      assert es == [es[0]] + es[1..];
    }
  }

  lemma {:induction false} WithoutDistinct(es: Entries, key: Text)
    requires DistinctKeys(es)
    ensures DistinctKeys(Without(es, key))
  {
    if es != [] {
      WithoutDistinct(es[1..], key);
      var t := Without(es[1..], key);
      forall j | 0 <= j < |t| ensures t[j].0 != es[0].0 {
        WithoutMembers(es[1..], key, t[j]);
        var i :| 0 <= i < |es[1..]| && es[1..][i] == t[j];
        assert es[1..][i] == es[i + 1];
      }
    }
  }

  /** Setting a key is undone by leaving it out. */
  lemma {:induction false} WithoutPut(es: Entries, key: Text, value: Json)
    ensures Without(Put(es, key, value), key) == Without(es, key)
  {
    if es == [] {
    } else if es[0].0 == key {
      assert Put(es, key, value)[1..] == es[1..];
    } else {
      WithoutPut(es[1..], key, value);
      assert Put(es, key, value)[1..] == Put(es[1..], key, value);
    }
  }

  lemma HasKeyWithout(es: Entries, key: Text, k: Text)
    ensures HasKey(Without(es, key), k) <==> HasKey(es, k) && k != key
  {
    var w := Without(es, key);
    if j :| 0 <= j < |w| && w[j].0 == k {
      WithoutMembers(es, key, w[j]);
    }
    if i :| 0 <= i < |es| && es[i].0 == k && k != key {
      WithoutMembers(es, key, es[i]);
      assert es[i] in w;
    }
  }

  // -------------------------------------------------------------- signed bodies

  function SIGNATURE(): Text {
    Chars("signature")
  }

  /** The text a body is signed over. */
  function SignedText(body: Entries): Result<Text> {
    Canonicalize(Dict(Without(body, SIGNATURE())))
  }

  /** `body["signature"] = hmac(secret, canonical body without signature)`. */
  method Seal(body: Entries, secret: Text, hmac: (Text, Text) -> Text) returns (signed: Entries)
    requires GoodEntries(body)
    ensures GoodEntries(signed)
    ensures SignedText(signed).Ok? && SignedText(signed) == SignedText(body)
    ensures Get(signed, SIGNATURE()) == Some(Str(hmac(secret, SignedText(signed).value)))
    ensures forall k | k != SIGNATURE() :: HasKey(signed, k) <==> HasKey(body, k)
  {
    hide SIGNATURE, Canonicalize;
    var unsigned := Without(body, SIGNATURE());
    WithoutGood(body, SIGNATURE());
    PrintsIffPrintable(Dict(unsigned));
    var canonical := Canonicalize(Dict(unsigned)).value;
    signed := Put(body, SIGNATURE(), Str(hmac(secret, canonical)));
    PutFacts(body, SIGNATURE(), Str(hmac(secret, canonical)));
    WithoutPut(body, SIGNATURE(), Str(hmac(secret, canonical)));
  }

  lemma WithoutGood(es: Entries, key: Text)
    requires GoodEntries(es)
    ensures GoodEntries(Without(es, key))
  {
    WithoutDistinct(es, key);
    var w := Without(es, key);
    forall i | 0 <= i < |w| ensures WellFormed(w[i].1) && Printable(w[i].1) {
      WithoutMembers(es, key, w[i]);
    }
  }

  /** Dropping a key from the same dict value leaves the same dict value. */
  lemma SameWithout(a: Entries, b: Entries, key: Text)
    requires DistinctKeys(a) && DistinctKeys(b) && SameValue(Dict(a), Dict(b))
    ensures SameValue(Dict(Without(a, key)), Dict(Without(b, key)))
  {
    var wa, wb := Without(a, key), Without(b, key);
    forall k ensures HasKey(wa, k) <==> HasKey(wb, k) {
      HasKeyWithout(a, key, k);
      HasKeyWithout(b, key, k);
    }
    forall i, j | 0 <= i < |wa| && 0 <= j < |wb| && wa[i].0 == wb[j].0 ensures SameValue(wa[i].1, wb[j].1) {
      WithoutMembers(a, key, wa[i]);
      WithoutMembers(b, key, wb[j]);
      var p :| 0 <= p < |a| && a[p] == wa[i];
      var q :| 0 <= q < |b| && b[q] == wb[j];
      assert SameValue(a[p].1, b[q].1);
    }
  }

  /** A receiver that parsed the body in whatever key order, drops the signature and
      canonicalizes, obtains exactly the text that was signed. */
  lemma ReceiverRecomputesSignedText(body: Entries, received: Json)
    requires GoodEntries(body) && WellFormed(received) && SameValue(received, Dict(body))
    ensures received.Dict? && SignedText(received.entries) == SignedText(body)
  {
    hide SIGNATURE, Canonicalize;
    SameWithout(received.entries, body, SIGNATURE());
    WithoutGood(body, SIGNATURE());
    WithoutDistinct(received.entries, SIGNATURE());
    var w := Without(received.entries, SIGNATURE());
    forall i | 0 <= i < |w| ensures WellFormed(w[i].1) {
      WithoutMembers(received.entries, SIGNATURE(), w[i]);
    }
    SameValueSameText(Dict(w), Dict(Without(body, SIGNATURE())));
  }

  /** Two bodies are signed over the same text exactly when they agree everywhere but in the
      signature. */
  lemma SignedTextIff(a: Entries, b: Entries)
    requires GoodEntries(a) && GoodEntries(b)
    ensures SignedText(a) == SignedText(b) <==>
            SameValue(Dict(Without(a, SIGNATURE())), Dict(Without(b, SIGNATURE())))
  {
    hide SIGNATURE, Canonicalize;
    WithoutGood(a, SIGNATURE());
    WithoutGood(b, SIGNATURE());
    PrintAlikeIffSameValue(Dict(Without(a, SIGNATURE())), Dict(Without(b, SIGNATURE())));
  }

  /** A differing value under any key but the signature changes the signed text. */
  lemma AlteredBodyAltersSignedText(a: Entries, b: Entries, i: nat, j: nat)
    requires GoodEntries(a) && GoodEntries(b) && i < |a| && j < |b|
    requires a[i].0 == b[j].0 != SIGNATURE() && !SameValue(a[i].1, b[j].1)
    ensures SignedText(a) != SignedText(b)
  {
    hide SignedText, SIGNATURE;
    SignedTextIff(a, b);
    WithoutMembers(a, SIGNATURE(), a[i]);
    WithoutMembers(b, SIGNATURE(), b[j]);
    var wa, wb := Without(a, SIGNATURE()), Without(b, SIGNATURE());
    var p :| 0 <= p < |wa| && wa[p] == a[i];
    var q :| 0 <= q < |wb| && wb[q] == b[j];
    DifferentAt(wa, wb, p, q);
  }

  lemma DifferentAt(a: Entries, b: Entries, i: nat, j: nat)
    requires i < |a| && j < |b| && a[i].0 == b[j].0 && !SameValue(a[i].1, b[j].1)
    ensures !SameValue(Dict(a), Dict(b))
  {
  }

  // ------------------------------------------------------------------ emission

  /** The configuration read before an event is built, and the library functions it uses. */
  datatype Config = Config(apiBase: Text, accessToken: Text, hmacSecret: Text, installationId: Text,
                           merchantId: Text, uuid5: Text -> Text, sha256: Text -> Text, hmac: (Text, Text) -> Text)

  predicate Configured(c: Config) {
    c.merchantId != [] && c.apiBase != [] && c.accessToken != [] && c.hmacSecret != [] && c.installationId != []
  }

  datatype SaleRef = SaleRef(id: int, name: Text, ordered: Option<Stamp>, total: Decimal, currency: Text, agentDid: Text)

  datatype Picking = Picking(id: int, name: Text, companyId: int, outgoing: bool, done: bool,
                             sale: Option<SaleRef>, doneAt: Option<Stamp>, hours: Option<Decimal>)

  function OrElse(t: Text, default: Text): Text {
    if t != [] then t else default
  }

  /** `isoformat()` of a timestamp, to the second (and microsecond when there is one). */
  function IsoText(t: Stamp): Text {
    Field(t.year, 4) + [DASH] + Field(t.month, 2) + [DASH] + Field(t.day, 2) + ['T' as int] +
    Field(t.hour, 2) + [':' as int] + Field(t.minute, 2) + [':' as int] + Field(t.second, 2) +
    (if t.micro == 0 then [] else ['.' as int] + Field(t.micro, 6))
  }

  function IsoOrNull(t: Option<Stamp>): Json {
    match t case Some(s) => Str(IsoText(s)) case None => Null
  }

  function AgentPair(did: Text): Entries {
    if did == [] then [] else [(Chars("agentDid"), Str(did))]
  }

  function FulfillmentPairs(p: Picking, s: SaleRef): Entries {
    [(Chars("externalOrderId"), Str(PrintInt(s.id))),
     (Chars("orderName"), Str(s.name)),
     (Chars("pickingId"), Int(p.id)),
     (Chars("pickingName"), Str(p.name)),
     (Chars("companyId"), Int(p.companyId)),
     (Chars("dateOrder"), IsoOrNull(s.ordered)),
     (Chars("dateDone"), IsoOrNull(p.doneAt)),
     (Chars("hoursToFulfill"), match p.hours case Some(h) => Float(h) case None => Null),
     (Chars("totalPaid"), Float(s.total)),
     (Chars("currency"), Str(OrElse(s.currency, Chars("EUR")))),
     (Chars("dataQuality"), Str(Chars("measured")))] + AgentPair(s.agentDid)
  }

  function FulfillmentPayload(p: Picking, s: SaleRef): Entries {
    DictOf(FulfillmentPairs(p, s))
  }

  /** The nine members of either event's body. */
  function BodyPairs(c: Config, jti: Text, event: Text, orderId: Text, occurredAt: Text, payload: Entries): Entries
    requires Canonicalize(Dict(payload)).Ok?
  {
    [(Chars("jti"), Str(jti)),
     (Chars("merchantId"), Str(c.merchantId)),
     (Chars("installationId"), Str(c.installationId)),
     (Chars("platform"), Str(Chars("ODOO"))),
     (Chars("eventType"), Str(event)),
     (Chars("orderId"), Str(orderId)),
     (Chars("occurredAt"), Str(occurredAt)),
     (Chars("payloadHash"), Str(Chars("sha256:") + c.sha256(Canonicalize(Dict(payload)).value))),
     (Chars("payload"), Dict(payload))]
  }

  function EventBody(c: Config, jti: Text, event: Text, orderId: Text, occurredAt: Text, payload: Entries): Entries
    requires Canonicalize(Dict(payload)).Ok?
  {
    DictOf(BodyPairs(c, jti, event, orderId, occurredAt, payload))
  }

  lemma BodyGood(c: Config, jti: Text, event: Text, orderId: Text, occurredAt: Text, payload: Entries)
    requires GoodEntries(payload)
    ensures Canonicalize(Dict(payload)).Ok?
    ensures GoodEntries(EventBody(c, jti, event, orderId, occurredAt, payload))
  {
    hide Canonicalize, Chars;
    PrintsIffPrintable(Dict(payload));
    DictOfGood(BodyPairs(c, jti, event, orderId, occurredAt, payload));
  }

  lemma FulfillmentPayloadGood(p: Picking, s: SaleRef)
    ensures GoodEntries(FulfillmentPayload(p, s))
  {
    hide Chars, PrintInt, IsoText;
    DictOfGood(FulfillmentPairs(p, s));
  }

  /** An event is emitted exactly for a finished outgoing picking of a sale, fully configured,
      that has some date. */
  predicate EmitsFulfillment(c: Config, p: Picking) {
    p.outgoing && p.done && p.sale.Some? && Configured(c) && (p.doneAt.Some? || p.sale.value.ordered.Some?)
  }

  /** What a receiver can rely on in an emitted body. */
  ghost predicate Sealed(c: Config, body: Entries, unsigned: Entries) {
    && GoodEntries(body) && SignedText(body).Ok?
    && SignedText(body) == SignedText(unsigned)
    && Get(body, SIGNATURE()) == Some(Str(c.hmac(c.hmacSecret, SignedText(body).value)))
  }

  /** `_maybe_emit_fulfillment`, up to the POST. */
  method MaybeEmitFulfillment(c: Config, p: Picking) returns (sent: Option<Entries>)
    ensures sent.Some? <==> EmitsFulfillment(c, p)
    ensures sent.Some? ==>
              var s := p.sale.value;
              var at := if p.doneAt.Some? then p.doneAt.value else s.ordered.value;
              var payload := FulfillmentPayload(p, s);
              && Canonicalize(Dict(payload)).Ok?
              && Sealed(c, sent.value,
                        EventBody(c, c.uuid5(FulfillmentName(c.merchantId, s.id, p.id, at)), Chars("FULFILLED"),
                                  PrintInt(s.id), IsoText(at) + Chars("Z"), payload))
  {
    hide Canonicalize, Chars, PrintInt, IsoText, FulfillmentName, FulfillmentPayload, EventBody, SignedText, SIGNATURE, GoodEntries;
    if !p.outgoing || !p.done || p.sale.None? { return None; }
    if !Configured(c) { return None; }
    var s := p.sale.value;
    var payload := FulfillmentPayload(p, s);
    FulfillmentPayloadGood(p, s);
    if p.doneAt.None? && s.ordered.None? { return None; }
    var at := if p.doneAt.Some? then p.doneAt.value else s.ordered.value;
    var jti := c.uuid5(FulfillmentName(c.merchantId, s.id, p.id, at));
    BodyGood(c, jti, Chars("FULFILLED"), PrintInt(s.id), IsoText(at) + Chars("Z"), payload);
    var body := EventBody(c, jti, Chars("FULFILLED"), PrintInt(s.id), IsoText(at) + Chars("Z"), payload);
    var signed := Seal(body, c.hmacSecret, c.hmac);
    return Some(signed);
  }

  // -------------------------------------------------------------------- refunds

  /** The invoice a credit note reverses: paid state, age in days when it is dated, and the
      sale it came from. */
  datatype Reversed = Reversed(id: int, paid: bool, ageDays: Option<int>, sale: Option<SaleRef>)

  datatype Move = Move(id: int, name: Text, origin: Text, companyId: int, reversed: Option<Reversed>,
                       amount: Decimal, currency: Text, date: Option<Stamp>, invoiceDate: Option<Stamp>)

  const WINDOW_DAYS := 90

  /** A reversal counts as the buyer's only when the invoice was paid, dated and recent;
      manual credit notes always count. */
  predicate EmitsRefund(c: Config, m: Move) {
    && Configured(c)
    && (m.reversed.Some? ==>
          m.reversed.value.paid && m.reversed.value.ageDays.Some? && m.reversed.value.ageDays.value <= WINDOW_DAYS)
    && (m.date.Some? || m.invoiceDate.Some?)
  }

  function RefundedSale(m: Move): Option<SaleRef> {
    match m.reversed case Some(r) => r.sale case None => None
  }

  function ExternalOrderId(m: Move): Text {
    match RefundedSale(m)
    case Some(s) => PrintInt(s.id)
    case None => OrElse(m.origin, OrElse(m.name, PrintInt(m.id)))
  }

  function RefundPairs(m: Move): Entries {
    [(Chars("externalOrderId"), Str(ExternalOrderId(m))),
     (Chars("moveId"), Int(m.id)),
     (Chars("moveName"), Str(m.name)),
     (Chars("reversedMoveId"), match m.reversed case Some(r) => Int(r.id) case None => Null),
     (Chars("amount"), Float(m.amount)),
     (Chars("currency"), Str(OrElse(m.currency, Chars("EUR")))),
     (Chars("companyId"), Int(m.companyId)),
     (Chars("cancellationReasonOwner"), Str(if m.reversed.Some? then Chars("buyer") else Chars("unknown"))),
     (Chars("dataQuality"), Str(if m.reversed.Some? then Chars("proxy") else Chars("self_declared"))),
     (Chars("subtype"), Str(Chars("credit_note")))] +
    (match RefundedSale(m) case Some(s) => AgentPair(s.agentDid) case None => [])
  }

  lemma RefundPairsGood(m: Move)
    ensures GoodEntries(DictOf(RefundPairs(m)))
  {
    hide Chars, PrintInt;
    DictOfGood(RefundPairs(m));
  }

  function DayText(day: Stamp): Text {
    Field(day.year, 4) + [DASH] + Field(day.month, 2) + [DASH] + Field(day.day, 2) + Chars("T00:00:00Z")
  }

  /** `_maybe_emit_refund_proxy`, up to the POST. */
  method MaybeEmitRefund(c: Config, m: Move) returns (sent: Option<Entries>)
    ensures sent.Some? <==> EmitsRefund(c, m)
    ensures sent.Some? ==>
              var day := if m.date.Some? then m.date.value else m.invoiceDate.value;
              var payload := DictOf(RefundPairs(m));
              && Canonicalize(Dict(payload)).Ok?
              && Sealed(c, sent.value,
                        EventBody(c, c.uuid5(RefundName(c.merchantId, ExternalOrderId(m), day)), Chars("REFUNDED"),
                                  ExternalOrderId(m), DayText(day), payload))
  {
    hide Canonicalize, Chars, PrintInt, DayText, RefundName, RefundPairs, EventBody, SignedText, SIGNATURE, GoodEntries, DictOf;
    if !Configured(c) { return None; }
    if m.reversed.Some? {
      var r := m.reversed.value;
      if !r.paid { return None; }
      if r.ageDays.None? { return None; }
      if r.ageDays.value > WINDOW_DAYS { return None; }
    }
    var payload := DictOf(RefundPairs(m));
    RefundPairsGood(m);
    if m.date.None? && m.invoiceDate.None? { return None; }
    var day := if m.date.Some? then m.date.value else m.invoiceDate.value;
    var jti := c.uuid5(RefundName(c.merchantId, ExternalOrderId(m), day));
    BodyGood(c, jti, Chars("REFUNDED"), ExternalOrderId(m), DayText(day), payload);
    var body := EventBody(c, jti, Chars("REFUNDED"), ExternalOrderId(m), DayText(day), payload);
    var signed := Seal(body, c.hmacSecret, c.hmac);
    return Some(signed);
  }

  /** Payloads that differ as values have different texts under the payload hash. */
  lemma PayloadTextIff(a: Entries, b: Entries)
    requires GoodEntries(a) && GoodEntries(b)
    ensures Canonicalize(Dict(a)) == Canonicalize(Dict(b)) <==> SameValue(Dict(a), Dict(b))
  {
    PrintAlikeIffSameValue(Dict(a), Dict(b));
  }
}
