/**
 The members of the order events, one by one, and how their names and dates look.
 */
module EventReference {
  import opened Texts
  import opened Decimals
  import opened KeySort
  import opened Json
  import opened Jcs
  import opened OrderEvents

  /** A dict literal with distinct keys is just its pairs. */
  lemma {:induction false} DictOfDistinct(pairs: Entries)
    requires DistinctKeys(pairs)
    ensures DictOf(pairs) == pairs
  {
    if pairs != [] {
      var n := |pairs| - 1;
      DictOfDistinct(pairs[..n]);
      PutNew(pairs[..n], pairs[n].0, pairs[n].1);
    }
  }

  lemma {:induction false} PutNew(es: Entries, key: Text, value: Json)
    requires forall i | 0 <= i < |es| :: es[i].0 != key
    ensures Put(es, key, value) == es + [(key, value)]
  {
    if es != [] { PutNew(es[1..], key, value); }
  }

  /** What each pair of a dict literal is found as. */
  lemma FoundAt(pairs: Entries, i: nat)
    requires DistinctKeys(pairs) && i < |pairs|
    ensures Get(DictOf(pairs), pairs[i].0) == Some(pairs[i].1)
  {
    DictOfDistinct(pairs);
    GetAt(pairs, i);
  }

  lemma AllFound(pairs: Entries)
    requires DistinctKeys(pairs)
    ensures forall i | 0 <= i < |pairs| :: Get(DictOf(pairs), pairs[i].0) == Some(pairs[i].1)
    ensures |DictOf(pairs)| == |pairs|
  {
    DictOfDistinct(pairs);
    forall i | 0 <= i < |pairs| ensures Get(DictOf(pairs), pairs[i].0) == Some(pairs[i].1) { FoundAt(pairs, i); }
  }

  lemma BodyKeysDistinct(c: Config, jti: Text, event: Text, orderId: Text, occurredAt: Text, payload: Entries)
    requires Canonicalize(Dict(payload)).Ok?
    ensures DistinctKeys(BodyPairs(c, jti, event, orderId, occurredAt, payload))
  {
    hide Canonicalize;
    var b := BodyPairs(c, jti, event, orderId, occurredAt, payload);
    assert |b[0].0| == 3 && |b[1].0| == 10 && |b[2].0| == 14 && |b[3].0| == 8 && |b[4].0| == 9 && |b[5].0| == 7;
    assert |b[6].0| == 10 && |b[7].0| == 11 && |b[8].0| == 7;
    assert b[1].0[0] == 'm' as int && b[6].0[0] == 'o' as int && b[5].0[0] == 'o' as int && b[8].0[0] == 'p' as int;
  }

  /** The nine members of an event body. */
  lemma BodyMembers(c: Config, jti: Text, event: Text, orderId: Text, occurredAt: Text, payload: Entries)
    requires Canonicalize(Dict(payload)).Ok?
    ensures var b := EventBody(c, jti, event, orderId, occurredAt, payload);
            && Get(b, Chars("jti")) == Some(Str(jti)) && Get(b, Chars("merchantId")) == Some(Str(c.merchantId))
            && Get(b, Chars("installationId")) == Some(Str(c.installationId)) && Get(b, Chars("platform")) == Some(Str(Chars("ODOO")))
            && Get(b, Chars("eventType")) == Some(Str(event)) && Get(b, Chars("orderId")) == Some(Str(orderId))
            && Get(b, Chars("occurredAt")) == Some(Str(occurredAt)) && Get(b, Chars("payload")) == Some(Dict(payload))
            && Get(b, Chars("payloadHash")) == Some(Str(Chars("sha256:") + c.sha256(Canonicalize(Dict(payload)).value)))
    ensures |EventBody(c, jti, event, orderId, occurredAt, payload)| == 9
  {
    hide Get, Chars, DictOf, DistinctKeys, Canonicalize;
    var pairs := BodyPairs(c, jti, event, orderId, occurredAt, payload);
    BodyKeysDistinct(c, jti, event, orderId, occurredAt, payload);
    AllFound(pairs);
    assert Get(DictOf(pairs), pairs[0].0) == Some(pairs[0].1) && Get(DictOf(pairs), pairs[1].0) == Some(pairs[1].1);
    assert Get(DictOf(pairs), pairs[2].0) == Some(pairs[2].1) && Get(DictOf(pairs), pairs[3].0) == Some(pairs[3].1);
    assert Get(DictOf(pairs), pairs[4].0) == Some(pairs[4].1) && Get(DictOf(pairs), pairs[5].0) == Some(pairs[5].1);
    assert Get(DictOf(pairs), pairs[6].0) == Some(pairs[6].1) && Get(DictOf(pairs), pairs[7].0) == Some(pairs[7].1);
    assert Get(DictOf(pairs), pairs[8].0) == Some(pairs[8].1);
  }

  lemma FulfillmentKeysDistinct(p: Picking, s: SaleRef)
    ensures DistinctKeys(FulfillmentPairs(p, s))
  {
    hide PrintInt, IsoText;
    var b := FulfillmentPairs(p, s);
    assert |b[0].0| == 15 && |b[1].0| == 9 && |b[2].0| == 9 && |b[3].0| == 11 && |b[4].0| == 9 && |b[5].0| == 9;
    assert |b[6].0| == 8 && |b[7].0| == 14 && |b[8].0| == 9 && |b[9].0| == 8 && |b[10].0| == 11;
    assert b[1].0[0] == 'o' as int && b[2].0[0] == 'p' as int && b[3].0[0] == 'p' as int && b[4].0[0] == 'c' as int;
    assert b[5].0[0] == 'd' as int && b[6].0[0] == 'd' as int && b[8].0[0] == 't' as int && b[9].0[0] == 'c' as int && b[10].0[0] == 'd' as int;
    if s.agentDid != [] { assert |b[11].0| == 8 && b[11].0[0] == 'a' as int; }
  }

  /** The payload of a fulfilment. */
  lemma FulfillmentMembers(p: Picking, s: SaleRef)
    ensures var b := FulfillmentPayload(p, s);
            && Get(b, Chars("externalOrderId")) == Some(Str(PrintInt(s.id))) && Get(b, Chars("orderName")) == Some(Str(s.name))
            && Get(b, Chars("pickingId")) == Some(Int(p.id)) && Get(b, Chars("pickingName")) == Some(Str(p.name))
            && Get(b, Chars("companyId")) == Some(Int(p.companyId))
            && Get(b, Chars("dateOrder")) == Some(match s.ordered case Some(t) => Str(IsoText(t)) case None => Null)
            && Get(b, Chars("dateDone")) == Some(match p.doneAt case Some(t) => Str(IsoText(t)) case None => Null)
            && Get(b, Chars("hoursToFulfill")) == Some(match p.hours case Some(h) => Float(h) case None => Null)
            && Get(b, Chars("totalPaid")) == Some(Float(s.total))
            && Get(b, Chars("currency")) == Some(Str(if s.currency == [] then Chars("EUR") else s.currency))
            && Get(b, Chars("dataQuality")) == Some(Str(Chars("measured")))
            && (s.agentDid != [] ==> Get(b, Chars("agentDid")) == Some(Str(s.agentDid)))
            && |b| == if s.agentDid == [] then 11 else 12
  {
    hide Get, Chars, DictOf, DistinctKeys, PrintInt, IsoText;
    var pairs := FulfillmentPairs(p, s);
    FulfillmentKeysDistinct(p, s);
    AllFound(pairs);
    assert Get(DictOf(pairs), pairs[0].0) == Some(pairs[0].1) && Get(DictOf(pairs), pairs[1].0) == Some(pairs[1].1);
    assert Get(DictOf(pairs), pairs[2].0) == Some(pairs[2].1) && Get(DictOf(pairs), pairs[3].0) == Some(pairs[3].1);
    assert Get(DictOf(pairs), pairs[4].0) == Some(pairs[4].1) && Get(DictOf(pairs), pairs[5].0) == Some(pairs[5].1);
    assert Get(DictOf(pairs), pairs[6].0) == Some(pairs[6].1) && Get(DictOf(pairs), pairs[7].0) == Some(pairs[7].1);
    assert Get(DictOf(pairs), pairs[8].0) == Some(pairs[8].1) && Get(DictOf(pairs), pairs[9].0) == Some(pairs[9].1);
    assert Get(DictOf(pairs), pairs[10].0) == Some(pairs[10].1);
    if s.agentDid != [] { assert Get(DictOf(pairs), pairs[11].0) == Some(pairs[11].1); }
  }

  lemma RefundKeysDistinct(m: Move)
    ensures DistinctKeys(RefundPairs(m))
  {
    hide PrintInt, ExternalOrderId;
    var b := RefundPairs(m);
    assert |b[0].0| == 15 && |b[1].0| == 6 && |b[2].0| == 8 && |b[3].0| == 14 && |b[4].0| == 6 && |b[5].0| == 8;
    assert |b[6].0| == 9 && |b[7].0| == 23 && |b[8].0| == 11 && |b[9].0| == 7;
    assert b[1].0[0] == 'm' as int && b[4].0[0] == 'a' as int && b[2].0[0] == 'm' as int && b[5].0[0] == 'c' as int;
    if |b| > 10 { assert |b[10].0| == 8 && b[10].0[0] == 'a' as int; }
  }

  /** The payload of a refund: a reversal is the buyer's, anything else unknown. */
  lemma RefundMembers(m: Move)
    ensures var b := DictOf(RefundPairs(m));
            && Get(b, Chars("externalOrderId")) == Some(Str(ExternalOrderId(m)))
            && Get(b, Chars("moveId")) == Some(Int(m.id)) && Get(b, Chars("moveName")) == Some(Str(m.name))
            && Get(b, Chars("reversedMoveId")) == Some(match m.reversed case Some(r) => Int(r.id) case None => Null)
            && Get(b, Chars("amount")) == Some(Float(m.amount))
            && Get(b, Chars("currency")) == Some(Str(if m.currency == [] then Chars("EUR") else m.currency))
            && Get(b, Chars("companyId")) == Some(Int(m.companyId))
            && Get(b, Chars("cancellationReasonOwner")) == Some(Str(if m.reversed.Some? then Chars("buyer") else Chars("unknown")))
            && Get(b, Chars("dataQuality")) == Some(Str(if m.reversed.Some? then Chars("proxy") else Chars("self_declared")))
            && Get(b, Chars("subtype")) == Some(Str(Chars("credit_note")))
            && (m.reversed.Some? && m.reversed.value.sale.Some? && m.reversed.value.sale.value.agentDid != [] ==>
                  Get(b, Chars("agentDid")) == Some(Str(m.reversed.value.sale.value.agentDid)))
            && |b| == if m.reversed.Some? && m.reversed.value.sale.Some? && m.reversed.value.sale.value.agentDid != [] then 11 else 10
  {
    hide Get, Chars, DictOf, DistinctKeys, PrintInt, ExternalOrderId;
    var pairs := RefundPairs(m);
    RefundKeysDistinct(m);
    AllFound(pairs);
    assert Get(DictOf(pairs), pairs[0].0) == Some(pairs[0].1) && Get(DictOf(pairs), pairs[1].0) == Some(pairs[1].1);
    assert Get(DictOf(pairs), pairs[2].0) == Some(pairs[2].1) && Get(DictOf(pairs), pairs[3].0) == Some(pairs[3].1);
    assert Get(DictOf(pairs), pairs[4].0) == Some(pairs[4].1) && Get(DictOf(pairs), pairs[5].0) == Some(pairs[5].1);
    assert Get(DictOf(pairs), pairs[6].0) == Some(pairs[6].1) && Get(DictOf(pairs), pairs[7].0) == Some(pairs[7].1);
    assert Get(DictOf(pairs), pairs[8].0) == Some(pairs[8].1) && Get(DictOf(pairs), pairs[9].0) == Some(pairs[9].1);
    if |pairs| > 10 { assert Get(DictOf(pairs), pairs[10].0) == Some(pairs[10].1); }
  }

  /** The order a refund is for: the sale of the reversed invoice, else the move's origin, else
      its name, else its id. */
  lemma RefundedOrderIs(m: Move)
    ensures ExternalOrderId(m) ==
            if m.reversed.Some? && m.reversed.value.sale.Some? then PrintInt(m.reversed.value.sale.value.id)
            else if m.origin != [] then m.origin else if m.name != [] then m.name else PrintInt(m.id)
  {
    hide PrintInt;
  }

  // --------------------------------------------------------------------- dates and names

  lemma TwoDigits(n: nat)
    requires n < 100
    ensures Field(n, 2) == ['0' as int + n / 10, '0' as int + n % 10]
  {
    if n >= 10 { assert Digits(n / 10) == ['0' as int + n / 10]; }
  }

  lemma FourDigits(n: nat)
    requires 1000 <= n < 10000
    ensures Field(n, 4) == ['0' as int + n / 1000, '0' as int + n / 100 % 10, '0' as int + n / 10 % 10, '0' as int + n % 10]
  {
    assert Digits(n / 1000) == ['0' as int + n / 1000];
    assert n / 10 / 10 == n / 100 && n / 100 / 10 == n / 1000;
    assert Digits(n / 100) == Digits(n / 1000) + ['0' as int + n / 100 % 10];
    assert Digits(n / 10) == Digits(n / 100) + ['0' as int + n / 10 % 10];
    assert Digits(n) == Digits(n / 10) + ['0' as int + n % 10];
  }

  const SAMPLE := Stamp(2026, 7, 28, 9, 5, 3, 0)

  lemma SampleFields()
    ensures Field(2026, 4) == Chars("2026") && Field(7, 2) == Chars("07") && Field(28, 2) == Chars("28")
    ensures Field(9, 2) == Chars("09") && Field(5, 2) == Chars("05") && Field(3, 2) == Chars("03") && Field(0, 2) == Chars("00")
  {
    hide Field;
    FourDigits(2026);
    TwoDigits(7);
    TwoDigits(28);
    TwoDigits(9);
    TwoDigits(5);
    TwoDigits(3);
    TwoDigits(0);
  }

  /** One instant in the ways it is written. */
  lemma DateSample()
    ensures Chars("2026-07-28") == Chars("2026") + ['-' as int] + Chars("07") + ['-' as int] + Chars("28")
    ensures IsoText(SAMPLE) == Chars("2026-07-28") + ['T' as int] + Chars("09") + [':' as int] + Chars("05") + [':' as int] + Chars("03")
    ensures DayText(SAMPLE) == Chars("2026-07-28") + Chars("T00:00:00Z")
  {
    assert Chars("2026-07-28") == Chars("2026") + ['-' as int] + Chars("07") + ['-' as int] + Chars("28");
    SampleFields();
    hide Field, Chars;
  }

  lemma MinuteSample(t: Stamp)
    requires t == SAMPLE || t == SAMPLE.(hour := 0, minute := 0, second := 0)
    ensures MinuteText(t) == Chars("2026-07-28") + ['T' as int] +
            (if t == SAMPLE then Chars("09") + [':' as int] + Chars("05") else Chars("00") + [':' as int] + Chars("00")) +
            ([':' as int] + Chars("00Z"))
  {
    DateSample();
    SampleFields();
    hide Field, Chars;
    var h, m := if t == SAMPLE then Chars("09") else Chars("00"), if t == SAMPLE then Chars("05") else Chars("00");
    Regrouped(Chars("2026"), Chars("07"), Chars("28"), h, m, Chars("00Z"));
  }

  lemma Regrouped(y: Text, mo: Text, d: Text, h: Text, mi: Text, z: Text)
    ensures y + ['-' as int] + (mo + ['-' as int] + (d + ['T' as int] + (h + [':' as int] + (mi + [':' as int] + z))))
         == (y + ['-' as int] + mo + ['-' as int] + d) + ['T' as int] + (h + [':' as int] + mi) + ([':' as int] + z)
  {
  }

  /** The names of one fulfilment and one refund. */
  lemma NameSamples(merchant: Text)
    ensures FulfillmentName(merchant, 41, 7, SAMPLE)
         == Chars("ODOO") + ['|' as int] + merchant + ['|' as int] + (Chars("41") + ['|' as int] + Chars("picking-7")) +
            ['|' as int] + Chars("FULFILLED") + ['|' as int] + MinuteText(SAMPLE)
    ensures RefundName(merchant, Chars("S0041"), SAMPLE)
         == Chars("ODOO") + ['|' as int] + merchant + ['|' as int] + Chars("S0041") + ['|' as int] + Chars("REFUNDED") +
            ['|' as int] + MinuteText(SAMPLE.(hour := 0, minute := 0, second := 0))
  {
    assert PrintInt(41) == Chars("41") by { assert Digits(4) == ['4' as int]; }
    assert PrintInt(7) == Chars("7");
    assert Chars("picking-7") == Chars("picking-") + Chars("7");
    hide MinuteText, PrintInt, Digits, Chars;
  }

  // ------------------------------------------------------------------------ conditions

  predicate Complete(c: Config) {
    [] !in [c.merchantId, c.apiBase, c.accessToken, c.hmacSecret, c.installationId]
  }

  /** When an event is emitted at all. */
  lemma EmissionIff(c: Config, p: Picking, m: Move)
    ensures EmitsFulfillment(c, p) <==>
              Complete(c) && p.outgoing && p.done && p.sale.Some? && !(p.doneAt == None && p.sale.value.ordered == None)
    ensures EmitsRefund(c, m) <==>
              && Complete(c) && !(m.date == None && m.invoiceDate == None)
              && match m.reversed
                 case None => true
                 case Some(r) => r.paid && r.ageDays.Some? && r.ageDays.value <= 90
  {
    var needed := [c.merchantId, c.apiBase, c.accessToken, c.hmacSecret, c.installationId];
    assert needed[0] == c.merchantId && needed[1] == c.apiBase && needed[2] == c.accessToken;
    assert needed[3] == c.hmacSecret && needed[4] == c.installationId;
  }
}
