/**
 When each of the nine offline rules blocks an order, said once more on the snapshot's own
 parameters. Parameters are taken here to have the types the rule catalogue gives them.
 */
module RuleReference {
  import opened Texts
  import opened Decimals
  import opened Json
  import opened OfflineEvaluator

  /** One enabled rule with these parameters, alone in the list. */
  function Alone(code: string, p: Entries): seq<Rule> {
    [Rule(Chars(code), true, Dict(p))]
  }

  /** A country parameter: absent and empty lists are the same. */
  predicate ListAt(p: Entries, key: string, items: seq<Json>) {
    Get(p, Chars(key)) == Some(List(items)) || (Get(p, Chars(key)) == None && items == [])
  }

  /** A number parameter: absent and null are the same. */
  predicate LimitAt(p: Entries, key: string, limit: Option<int>) {
    match limit
    case Some(n) => Get(p, Chars(key)) == Some(Int(n))
    case None => Get(p, Chars(key)) == None || Get(p, Chars(key)) == Some(Null)
  }

  predicate From(o: Order, country: Text) {
    (o.billingCountry != [] && country == o.billingCountry) || (o.billingCountry == [] && o.shippingCountry == Some(country))
  }

  predicate Nowhere(o: Order) {
    o.billingCountry == [] && o.shippingCountry == None
  }

  predicate Blocks(code: string, p: Entries, o: Order, c: Cart) {
    Evaluate(Alone(code, p), o, c) == Blocked(Chars(code))
  }

  predicate Passes(code: string, p: Entries, o: Order, c: Cart) {
    Evaluate(Alone(code, p), o, c) == Clear
  }

  /** The one rule decides. */
  lemma AloneDecides(code: string, e: Evaluator, p: Entries, o: Order, c: Cart)
    requires '.' !in code && Dispatch(Chars(code)) == Some(e)
    ensures Blocks(code, p, o, c) <==> RunRule(e, Dict(p), o, c) == Hit
    ensures Passes(code, p, o, c) <==> RunRule(e, Dict(p), o, c) == Silent
  {
    assert DOT !in Chars(code);
    assert ShortCode(Chars(code)) == Chars(code);
    var rules := Alone(code, p);
    assert rules[1..] == [];
    assert Evaluate([], o, c) == Clear;
    hide RunRule, Dispatch, Chars, Before;
  }

  lemma FieldsOf(p: Entries)
    ensures Fields(Dict(p)) == Some(p)
    ensures forall n: int | n != 0 :: Fields(Int(n)) == None
  {
  }

  lemma Codes()
    ensures Dispatch(Chars("R014")) == Some(E014) && Dispatch(Chars("R018")) == Some(E018)
    ensures Dispatch(Chars("R019")) == Some(E019) && Dispatch(Chars("R020")) == Some(E020)
    ensures Dispatch(Chars("R025")) == Some(E025) && Dispatch(Chars("R027")) == Some(E027)
    ensures Dispatch(Chars("R028")) == Some(E028) && Dispatch(Chars("R029")) == Some(E029)
    ensures Dispatch(Chars("R030")) == Some(E030)
  {
    CodesDiffer();
    hide Chars;
  }

  lemma CodesDiffer()
    ensures Chars("R018") != Chars("R014") && Chars("R019") !in {Chars("R014"), Chars("R018")}
    ensures Chars("R020") !in {Chars("R014"), Chars("R018"), Chars("R019")}
    ensures Chars("R025") !in {Chars("R014"), Chars("R018"), Chars("R019"), Chars("R020")}
    ensures Chars("R027") !in {Chars("R014"), Chars("R018"), Chars("R019"), Chars("R020"), Chars("R025")}
    ensures Chars("R028") !in {Chars("R014"), Chars("R018"), Chars("R019"), Chars("R020"), Chars("R025"), Chars("R027")}
    ensures Chars("R029") !in {Chars("R014"), Chars("R018"), Chars("R019"), Chars("R020"), Chars("R025"), Chars("R027"), Chars("R028")}
    ensures Chars("R030") !in {Chars("R014"), Chars("R018"), Chars("R019"), Chars("R020"), Chars("R025"), Chars("R027"), Chars("R028"), Chars("R029")}
  {
    var a, b, c, d, e := Chars("R014"), Chars("R018"), Chars("R019"), Chars("R020"), Chars("R025");
    var f, g, h, i := Chars("R027"), Chars("R028"), Chars("R029"), Chars("R030");
    assert a[2] == b[2] == c[2] == '1' as int && d[2] == e[2] == f[2] == g[2] == h[2] == '2' as int && i[2] == '3' as int;
    assert a[3] == '4' as int && b[3] == '8' as int && c[3] == '9' as int && d[3] == '0' as int && e[3] == '5' as int;
    assert f[3] == '7' as int && g[3] == '8' as int && h[3] == '9' as int;
    hide Chars;
  }

  // ----------------------------------------------------------------------- countries

  /** R014: the country is on the merchant's list, or on the default one when that is empty. */
  lemma HighRiskBlocksIff(p: Entries, items: seq<Json>, o: Order, c: Cart, country: Text)
    requires ListAt(p, "highRiskCountries", items) && From(o, country)
    ensures Blocks("R014", p, o, c) <==>
              if items != [] then Str(country) in items else country in [Chars("KP"), Chars("IR"), Chars("SY"), Chars("CU")]
    ensures Blocks("R014", p, o, c) || Passes("R014", p, o, c)
  {
    hide Get, Chars, Blocks, Passes, Dispatch, Fields;
    Codes();
    AloneDecides("R014", E014, p, o, c);
    FieldsOf(p);
  }

  /** R019: the country is blocked, or there is a list of allowed ones and it is not on it. */
  lemma JurisdictionBlocksIff(p: Entries, blocked: seq<Json>, allowed: seq<Json>, o: Order, c: Cart, country: Text)
    requires ListAt(p, "blockedCountries", blocked) && ListAt(p, "allowedCountries", allowed) && From(o, country)
    ensures Blocks("R019", p, o, c) <==> Str(country) in blocked || (allowed != [] && Str(country) !in allowed)
    ensures Blocks("R019", p, o, c) || Passes("R019", p, o, c)
  {
    hide Get, Chars, Blocks, Passes, Dispatch, Fields;
    Codes();
    AloneDecides("R019", E019, p, o, c);
    FieldsOf(p);
  }

  /** R030: the total exceeds the limit, or there is a list of allowed countries and the order's
      is not on it. */
  lemma ControlsBlockIff(p: Entries, limit: Option<int>, allowed: seq<Json>, o: Order, c: Cart, country: Text)
    requires LimitAt(p, "maxAmountCents", limit) && ListAt(p, "allowedCountries", allowed) && From(o, country)
    ensures Blocks("R030", p, o, c) <==>
              (limit.Some? && o.cartTotalCents > limit.value) || (allowed != [] && Str(country) !in allowed)
    ensures Blocks("R030", p, o, c) || Passes("R030", p, o, c)
  {
    hide Get, Chars, Blocks, Passes, Dispatch, Fields;
    Codes();
    AloneDecides("R030", E030, p, o, c);
    FieldsOf(p);
  }

  /** An order from nowhere is not stopped for its country. */
  lemma NowhereBlocksIff(p: Entries, limit: Option<int>, o: Order, c: Cart)
    requires LimitAt(p, "maxAmountCents", limit) && Nowhere(o)
    ensures Passes("R014", p, o, c) && Passes("R019", p, o, c)
    ensures Blocks("R030", p, o, c) <==> limit.Some? && o.cartTotalCents > limit.value
    ensures Blocks("R030", p, o, c) || Passes("R030", p, o, c)
  {
    hide Get, Chars, Blocks, Passes, Dispatch, Fields;
    Codes();
    AloneDecides("R014", E014, p, o, c);
    AloneDecides("R019", E019, p, o, c);
    AloneDecides("R030", E030, p, o, c);
    FieldsOf(p);
  }

  // ----------------------------------------------------------------------- quantities

  /** R018: more than so many times the merchant's average, more items than allowed, or a line
      with more pieces than allowed. The multiple is 5 where none is given. */
  lemma CompositionBlocksIff(p: Entries, average: Option<int>, multiple: Option<int>, items: Option<int>, pieces: Option<int>,
                             o: Order, c: Cart)
    requires LimitAt(p, "merchantAvgOrderCents", average) && LimitAt(p, "maxItemCount", items) && LimitAt(p, "maxSingleSkuQty", pieces)
    requires Get(p, Chars("spikeMultiplier")) == match multiple case Some(m) => Some(Int(m)) case None => None
    ensures Blocks("R018", p, o, c) <==>
              || (average.Some? && average.value > 0 && o.cartTotalCents > Or(multiple, 5) * average.value)
              || (items.Some? && o.itemCount > items.value)
              || (pieces.Some? && exists i | 0 <= i < |o.lineQtys| :: o.lineQtys[i] > pieces.value)
    ensures Blocks("R018", p, o, c) || Passes("R018", p, o, c)
  {
    hide Get, Chars, Blocks, Passes, LineTooBig, Quotient, Dispatch, Fields;
    Codes();
    AloneDecides("R018", E018, p, o, c);
    FieldsOf(p);
    if average.Some? && average.value > 0 { QuotientExceeds(o.cartTotalCents, average.value, Or(multiple, 5)); }
    LinesExceed(p, pieces, o);
  }

  lemma QuotientExceeds(n: int, a: int, m: int)
    requires a > 0
    ensures Quotient(n, Real(a as real)).Real? && (Quotient(n, Real(a as real)).x > m as real <==> n > m * a)
  {
    var q := n as real / a as real;
    assert q * a as real == n as real;
  }

  lemma LinesExceed(p: Entries, pieces: Option<int>, o: Order)
    requires LimitAt(p, "maxSingleSkuQty", pieces)
    ensures LineTooBig(p, o) ==
              if pieces.Some? && exists i | 0 <= i < |o.lineQtys| :: o.lineQtys[i] > pieces.value then Hit else Silent
  {
    hide Get, Chars;
    if pieces.Some? {
      if i :| 0 <= i < |o.lineQtys| && o.lineQtys[i] > pieces.value {
        assert Exceeds(Real(o.lineQtys[i] as real), Int(pieces.value)) == Yes;
      }
    }
  }

  /** R027: more stored value than allowed; none is allowed where no limit is given. */
  lemma StoredValueBlocksIff(p: Entries, limit: Option<int>, o: Order, c: Cart, stored: real)
    requires Get(p, Chars("maxStoredValueCents")) == match limit case Some(m) => Some(Int(m)) case None => None
    requires Chars("_stored_value_cents") in c.attrs && c.parse(c.attrs[Chars("_stored_value_cents")]) == Some(Real(stored))
    ensures Blocks("R027", p, o, c) <==> stored > Or(limit, 0) as real
    ensures Blocks("R027", p, o, c) || Passes("R027", p, o, c)
  {
    hide Get, Chars, Blocks, Passes, Dispatch, Fields;
    Codes();
    AloneDecides("R027", E027, p, o, c);
    FieldsOf(p);
  }

  lemma NoStoredValuePasses(p: Entries, o: Order, c: Cart)
    requires Chars("_stored_value_cents") !in c.attrs || c.parse(c.attrs[Chars("_stored_value_cents")]) == None
    ensures Passes("R027", p, o, c)
  {
    hide Get, Chars, Blocks, Passes, Dispatch, Fields;
    Codes();
    AloneDecides("R027", E027, p, o, c);
  }

  // ------------------------------------------------------------------------- the clock

  /** R020: with both bounds given and an hour known, the order arrives outside them. */
  lemma HoursBlockIff(p: Entries, start: int, end: int, o: Order, c: Cart, zone: Text, hour: int)
    requires LimitAt(p, "startHour", Some(start)) && LimitAt(p, "endHour", Some(end))
    requires Get(p, Chars("timezone")) == Some(Str(zone)) || (Get(p, Chars("timezone")) == None && zone == Chars("UTC"))
    requires Chars("_merchant_local_hour") !in c.attrs && c.clock(zone) == Some(hour)
    ensures Blocks("R020", p, o, c) <==> if start <= end then hour < start || end <= hour else end <= hour < start
    ensures Blocks("R020", p, o, c) || Passes("R020", p, o, c)
  {
    hide Get, Chars, Blocks, Passes, Dispatch, Fields;
    Codes();
    AloneDecides("R020", E020, p, o, c);
    FieldsOf(p);
  }

  /** Without a bound, or in a zone the clock does not know, it is silent; an hour among the cart
      attributes comes before the clock. */
  lemma HoursSilent(p: Entries, o: Order, c: Cart)
    requires || LimitAt(p, "startHour", None) || LimitAt(p, "endHour", None)
             || (Chars("_merchant_local_hour") !in c.attrs && Get(p, Chars("timezone")) == None && c.clock(Chars("UTC")) == None)
    ensures Passes("R020", p, o, c)
  {
    hide Get, Chars, Blocks, Passes, Dispatch, Fields;
    Codes();
    AloneDecides("R020", E020, p, o, c);
    FieldsOf(p);
  }

  lemma GivenHourBlocksIff(p: Entries, start: int, end: int, o: Order, c: Cart, hour: real)
    requires LimitAt(p, "startHour", Some(start)) && LimitAt(p, "endHour", Some(end))
    requires Chars("_merchant_local_hour") in c.attrs && c.parse(c.attrs[Chars("_merchant_local_hour")]) == Some(Real(hour))
    ensures Blocks("R020", p, o, c) <==>
              if start <= end then hour < start as real || end as real <= hour else end as real <= hour < start as real
  {
    hide Get, Chars, Blocks, Passes, Dispatch, Fields;
    Codes();
    AloneDecides("R020", E020, p, o, c);
    FieldsOf(p);
  }

  // ------------------------------------------------------------------------- attributes

  predicate Flagged(c: Cart, key: string) {
    Chars(key) in c.attrs && c.attrs[Chars(key)] in {Chars("true"), Chars("1")}
  }

  /** A switch that is on where it is absent. */
  predicate SwitchAt(p: Entries, key: string, on: bool) {
    Get(p, Chars(key)) == Some(Bool(on)) || (Get(p, Chars(key)) == None && on)
  }

  /** R025: a PO box or a freight forwarder, unless switched off. */
  lemma AddressBlocksIff(p: Entries, box: bool, forwarder: bool, o: Order, c: Cart)
    requires SwitchAt(p, "blockPoBox", box) && SwitchAt(p, "blockFreightForwarder", forwarder)
    ensures Blocks("R025", p, o, c) <==>
              (box && Flagged(c, "_shipping_po_box")) || (forwarder && Flagged(c, "_shipping_freight_forwarder"))
    ensures Blocks("R025", p, o, c) || Passes("R025", p, o, c)
  {
    hide Get, Chars, Blocks, Passes, Dispatch, Fields;
    Codes();
    AloneDecides("R025", E025, p, o, c);
    FieldsOf(p);
  }

  /** R028: a business order without purchase order evidence, unless switched off. */
  lemma PurchaseOrderBlocksIff(p: Entries, required: bool, o: Order, c: Cart)
    requires SwitchAt(p, "requirePurchaseOrder", required)
    ensures Blocks("R028", p, o, c) <==> required && Flagged(c, "_b2b_order") && Chars("_purchase_order_hash") !in c.attrs
    ensures Blocks("R028", p, o, c) || Passes("R028", p, o, c)
  {
    hide Get, Chars, Blocks, Passes, Dispatch, Fields;
    Codes();
    AloneDecides("R028", E028, p, o, c);
    FieldsOf(p);
  }

  /** R029: the strict preset always, the regulated one without evidence, no other. */
  lemma PresetBlocksIff(p: Entries, preset: Text, o: Order, c: Cart)
    requires Get(p, Chars("preset")) == Some(Str(preset))
    ensures Blocks("R029", p, o, c) <==>
              preset == Chars("estricto") || (preset == Chars("regulado") && !Flagged(c, "_regulated_evidence_present"))
    ensures Blocks("R029", p, o, c) || Passes("R029", p, o, c)
  {
    hide Get, Chars, Blocks, Passes, Dispatch, Fields;
    Codes();
    AloneDecides("R029", E029, p, o, c);
    FieldsOf(p);
  }

  lemma NoPresetPasses(p: Entries, o: Order, c: Cart)
    requires Get(p, Chars("preset")) == None
    ensures Passes("R029", p, o, c)
  {
    hide Get, Chars, Blocks, Passes, Dispatch, Fields;
    Codes();
    AloneDecides("R029", E029, p, o, c);
    FieldsOf(p);
    assert Chars("equilibrado")[1] != Chars("estricto")[1] && Chars("equilibrado")[0] != Chars("regulado")[0];
  }

  // -------------------------------------------------------------------------- wrong types

  /** Not any JSON will do: a limit that is text, or a list of countries that is a number, raises,
      and parameters that are no object do in every rule that gets to read them. */
  lemma WrongTypesRaise(p: Entries, t: Text, n: int, o: Order, c: Cart, country: Text)
    ensures Get(p, Chars("maxAmountCents")) == Some(Str(t)) ==> Evaluate(Alone("R030", p), o, c) == Broken
    ensures From(o, country) && n != 0 && Get(p, Chars("blockedCountries")) == Some(Int(n)) ==>
              Evaluate(Alone("R019", p), o, c) == Broken
    ensures n != 0 ==> Evaluate([Rule(Chars("R030"), true, Int(n))], o, c) == Broken
  {
    hide Get, Chars, Before, Dispatch, Fields;
    Codes();
    FieldsOf(p);
    AloneVerdict("R030", E030, Dict(p), o, c);
    AloneVerdict("R019", E019, Dict(p), o, c);
    AloneVerdict("R030", E030, Int(n), o, c);
  }

  lemma AloneVerdict(code: string, e: Evaluator, params: Json, o: Order, c: Cart)
    requires '.' !in code && Dispatch(Chars(code)) == Some(e)
    ensures RunRule(e, params, o, c) == Breaks ==> Evaluate([Rule(Chars(code), true, params)], o, c) == Broken
  {
    assert ShortCode(Chars(code)) == Chars(code);
    hide RunRule, Dispatch, Chars, Before;
  }

  /** Limits that are numbers to Python without being integers: a bool counts as 0 or 1, nothing
      exceeds nan or Infinity, everything exceeds -Infinity, and a float is compared exactly. */
  lemma OddLimitsBlockIff(p: Entries, o: Order, c: Cart, b: bool, d: Decimal)
    requires Nowhere(o)
    ensures Get(p, Chars("maxAmountCents")) == Some(Bool(b)) ==> (Blocks("R030", p, o, c) <==> o.cartTotalCents > (if b then 1 else 0))
    ensures Get(p, Chars("maxAmountCents")) == Some(NonFinite(NaN)) ==> Passes("R030", p, o, c)
    ensures Get(p, Chars("maxAmountCents")) == Some(NonFinite(Infinity)) ==> Passes("R030", p, o, c)
    ensures Get(p, Chars("maxAmountCents")) == Some(NonFinite(NegInfinity)) ==> Blocks("R030", p, o, c)
    ensures Get(p, Chars("maxAmountCents")) == Some(Float(d)) ==>
              (Blocks("R030", p, o, c) <==> o.cartTotalCents as real > d.m as real / Pow10(d.k) as real)
  {
    hide Get, Chars, Blocks, Passes, Dispatch, Fields;
    Codes();
    AloneDecides("R030", E030, p, o, c);
    FieldsOf(p);
  }

  /** Of two odd hours: nan lies in no window, and outside one it cannot be written down. */
  lemma OddHoursRaise(p: Entries, start: int, end: int, o: Order, c: Cart)
    requires LimitAt(p, "startHour", Some(start)) && LimitAt(p, "endHour", Some(end))
    requires Chars("_merchant_local_hour") in c.attrs && c.parse(c.attrs[Chars("_merchant_local_hour")]) == Some(Odd(NaN))
    ensures Evaluate(Alone("R020", p), o, c) == Broken
  {
    hide Get, Chars, Blocks, Passes, Dispatch, Fields;
    Codes();
    FieldsOf(p);
    AloneVerdict("R020", E020, Dict(p), o, c);
  }

  /** A country may be looked for in a text or a dict as well, as Python's `in` does. */
  lemma OddListsAre(country: Text, s: Text, es: Entries)
    ensures Member(country, Str(s)) == Yes <==> exists i, j | 0 <= i <= j <= |s| :: s[i..j] == country
    ensures Member(country, Str(s)) != Fails
    ensures Member(country, Dict(es)) == Yes <==> exists i | 0 <= i < |es| :: es[i].0 == country
    ensures Member(country, Int(|s|)) == Fails && Member(country, Bool(true)) == Fails
  {
    if i, j :| 0 <= i <= j <= |s| && s[i..j] == country {
      assert StandsAt(country, s, i);
    }
    if i :| 0 <= i <= |s| - |country| && StandsAt(country, s, i) {
      assert s[i..i + |country|] == country;
    }
  }

  /** The order of numbers that may be infinite; nan is in no order. */
  lemma AboveIs(a: Number, b: Number)
    ensures Above(a, b) <==>
              && a != Odd(NaN) && b != Odd(NaN) && a != b
              && (a == Odd(Infinity) || b == Odd(NegInfinity) || (a.Real? && b.Real? && a.x > b.x))
  {
  }
}
