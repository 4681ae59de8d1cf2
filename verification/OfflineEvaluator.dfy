/**
 models/offline_safety_valve_evaluator.py: first-match evaluation of the universal merchant
 rules on the snapshot in hand. Parameters are whatever JSON the snapshot holds, so a rule
 may also raise. Reason texts are left out; a rule that hits yields its short code.
 */
module OfflineEvaluator {
  import opened Texts
  import opened Decimals
  import opened Json

  /** An entry of the snapshot's rule list; `params` is null where it is absent. */
  datatype Rule = NotADict | Rule(code: Text, enabled: bool, params: Json)

  datatype Order = Order(cartTotalCents: int, itemCount: int,
                         billingCountry: Text, shippingCountry: Option<Text>, lineQtys: seq<int>)

  /** A number as comparisons see it. */
  datatype Number = Real(x: real) | Odd(f: Special)

  /** Cart attributes with the float parser they go through, and the clock: the hour in a
      named zone, None when the zone does not resolve. */
  datatype Cart = Cart(attrs: map<Text, Text>, parse: Text -> Option<Number>, clock: Text -> Option<int>)

  /** `_short_code`. */
  function ShortCode(code: Text): Text {
    Before(code, DOT)
  }

  /** `billingCountry or shippingCountry`. */
  function Country(o: Order): Option<Text> {
    if o.billingCountry != [] then Some(o.billingCountry) else o.shippingCountry
  }

  predicate AttrBool(cart: Cart, key: Text) {
    key in cart.attrs && (cart.attrs[key] == Chars("true") || cart.attrs[key] == Chars("1"))
  }

  function AttrNumber(cart: Cart, key: Text): Option<Number> {
    if key in cart.attrs then cart.parse(cart.attrs[key]) else None
  }

  // ------------------------------------------------- comparing whatever is there

  /** The outcome of an expression that may raise. */
  datatype Test = Yes | No | Fails

  function Decide(b: bool): Test {
    if b then Yes else No
  }

  /** The values an ordering with a number accepts; a bool is a number. */
  function NumberIn(v: Json): Option<Number> {
    match v
    case Bool(b) => Some(Real(if b then 1.0 else 0.0))
    case Int(n) => Some(Real(n as real))
    case Float(d) => Some(Real(RealOf(d)))
    case NonFinite(f) => Some(Odd(f))
    case _ => None
  }

  /** `a > b`. */
  predicate Above(a: Number, b: Number) {
    match (a, b)
    case (Real(x), Real(y)) => x > y
    case (Real(_), Odd(g)) => g == NegInfinity
    case (Odd(f), Real(_)) => f == Infinity
    case (Odd(f), Odd(g)) => f == Infinity && g == NegInfinity
  }

  /** `a <= b`. */
  predicate AtMost(a: Number, b: Number) {
    a != Odd(NaN) && b != Odd(NaN) && !Above(a, b)
  }

  /** `x > limit`. */
  function Exceeds(x: Number, limit: Json): Test {
    match NumberIn(limit)
    case Some(y) => Decide(Above(x, y))
    case None => Fails
  }

  predicate StandsAt(t: Text, s: Text, i: int) {
    0 <= i <= |s| - |t| && s[i..i + |t|] == t
  }

  predicate Within(t: Text, s: Text) {
    exists i | 0 <= i <= |s| - |t| :: StandsAt(t, s, i)
  }

  /** `t in v`: an item of a list, a part of a text, a key of a dict. */
  function Member(t: Text, v: Json): Test {
    match v
    case List(vs) => Decide(Str(t) in vs)
    case Tuple(vs) => Decide(Str(t) in vs)
    case Str(s) => Decide(Within(t, s))
    case Dict(es) => Decide(exists i | 0 <= i < |es| :: es[i].0 == t)
    case _ => Fails
  }

  /** `d.get(key) or default`. */
  function GetOrElse(p: Entries, key: Text, default: Json): Json {
    var v := GetOr(p, key, Null);
    if Truthy(v) then v else default
  }

  // ------------------------------------------------------------ the nine rules

  /** What a rule says of an order: nothing, a block, or an exception. */
  datatype Ruling = Silent | Hit | Breaks

  function HitIf(t: Test): Ruling {
    match t case Yes => Hit case No => Silent case Fails => Breaks
  }

  /** Python's `if t: return reason`, then the rest. */
  function Else(r: Ruling, rest: Ruling): Ruling {
    if r == Silent then rest else r
  }

  function HighRisk(p: Entries): Json {
    GetOrElse(p, Chars("highRiskCountries"),
              List([Str(Chars("KP")), Str(Chars("IR")), Str(Chars("SY")), Str(Chars("CU"))]))
  }

  function R014(p: Entries, o: Order, c: Cart): Ruling {
    match Country(o)
    case None => Silent
    case Some(country) => HitIf(Member(country, HighRisk(p)))
  }

  /** `avg is not None and avg > 0` and then `total / avg > mult`. */
  function Spike(p: Entries, o: Order): Ruling {
    var avg := GetOr(p, Chars("merchantAvgOrderCents"), Null);
    if avg.Null? then Silent
    else match NumberIn(avg)
         case None => Breaks
         case Some(a) =>
           if !Above(a, Real(0.0)) then Silent
           else HitIf(Exceeds(Quotient(o.cartTotalCents, a), GetOr(p, Chars("spikeMultiplier"), Int(5))))
  }

  /** `n / a` for a positive a. */
  function Quotient(n: int, a: Number): Number
    requires Above(a, Real(0.0))
  {
    match a case Real(x) => Real(n as real / x) case Odd(_) => Real(0.0)
  }

  function TooMany(p: Entries, o: Order): Ruling {
    var limit := GetOr(p, Chars("maxItemCount"), Null);
    if limit.Null? then Silent else HitIf(Exceeds(Real(o.itemCount as real), limit))
  }

  /** The lines are tried in turn against one limit. */
  function LineTooBig(p: Entries, o: Order): Ruling {
    var limit := GetOr(p, Chars("maxSingleSkuQty"), Null);
    if limit.Null? || o.lineQtys == [] then Silent
    else if NumberIn(limit).None? then Breaks
    else if exists i | 0 <= i < |o.lineQtys| :: Exceeds(Real(o.lineQtys[i] as real), limit) == Yes then Hit
    else Silent
  }

  function R018(p: Entries, o: Order, c: Cart): Ruling {
    Else(Spike(p, o), Else(TooMany(p, o), LineTooBig(p, o)))
  }

  /** `allowed and country not in allowed`. */
  function NotAllowed(p: Entries, country: Text): Ruling {
    var allowed := GetOrElse(p, Chars("allowedCountries"), List([]));
    if !Truthy(allowed) then Silent
    else match Member(country, allowed) case Yes => Silent case No => Hit case Fails => Breaks
  }

  function R019(p: Entries, country: Text): Ruling {
    Else(HitIf(Member(country, GetOrElse(p, Chars("blockedCountries"), List([])))), NotAllowed(p, country))
  }

  /** `start <= hour < end`, or around midnight when the window wraps. */
  predicate Inside(start: Number, end: Number, hour: Number) {
    if AtMost(start, end) then AtMost(start, hour) && Above(end, hour)
    else AtMost(start, hour) || Above(end, hour)
  }

  function LocalHour(p: Entries, c: Cart): Option<Number> {
    match AttrNumber(c, Chars("_merchant_local_hour"))
    case Some(h) => Some(h)
    case None =>
      match GetOr(p, Chars("timezone"), Str(Chars("UTC")))
      case Str(zone) => (match c.clock(zone) case Some(h) => Some(Real(h as real)) case None => None)
      case _ => None
  }

  /** Whatever the types, an order of hours with a bound that is no number raises; so does
      writing down an hour that is none. */
  function R020(p: Entries, o: Order, c: Cart): Ruling {
    var start, end := GetOr(p, Chars("startHour"), Null), GetOr(p, Chars("endHour"), Null);
    if start.Null? || end.Null? then Silent
    else match LocalHour(p, c)
         case None => Silent
         case Some(hour) =>
           match (NumberIn(start), NumberIn(end))
           case (Some(s), Some(e)) => if Inside(s, e, hour) then Silent else if hour.Odd? then Breaks else Hit
           case _ => Breaks
  }

  function R025(p: Entries, o: Order, c: Cart): Ruling {
    if || (Truthy(GetOr(p, Chars("blockPoBox"), Bool(true))) && AttrBool(c, Chars("_shipping_po_box")))
       || (Truthy(GetOr(p, Chars("blockFreightForwarder"), Bool(true))) && AttrBool(c, Chars("_shipping_freight_forwarder")))
    then Hit else Silent
  }

  function R027(p: Entries, stored: Number): Ruling {
    HitIf(Exceeds(stored, GetOr(p, Chars("maxStoredValueCents"), Int(0))))
  }

  function R028(p: Entries, o: Order, c: Cart): Ruling {
    if GetOr(p, Chars("requirePurchaseOrder"), Null) != Bool(false) &&
       AttrBool(c, Chars("_b2b_order")) && Chars("_purchase_order_hash") !in c.attrs
    then Hit else Silent
  }

  function R029(p: Entries, o: Order, c: Cart): Ruling {
    var preset := GetOr(p, Chars("preset"), Str(Chars("equilibrado")));
    if || (preset == Str(Chars("regulado")) && !AttrBool(c, Chars("_regulated_evidence_present")))
       || preset == Str(Chars("estricto"))
    then Hit else Silent
  }

  function OverLimit(p: Entries, o: Order): Ruling {
    var limit := GetOr(p, Chars("maxAmountCents"), Null);
    if limit.Null? then Silent else HitIf(Exceeds(Real(o.cartTotalCents as real), limit))
  }

  function R030(p: Entries, o: Order, c: Cart): Ruling {
    Else(OverLimit(p, o), match Country(o) case None => Silent case Some(country) => NotAllowed(p, country))
  }

  datatype Evaluator = E014 | E018 | E019 | E020 | E025 | E027 | E028 | E029 | E030

  /** `_DISPATCH.get(rule_code)`. */
  function Dispatch(code: Text): Option<Evaluator> {
    if code == Chars("R014") then Some(E014)
    else if code == Chars("R018") then Some(E018)
    else if code == Chars("R019") then Some(E019)
    else if code == Chars("R020") then Some(E020)
    else if code == Chars("R025") then Some(E025)
    else if code == Chars("R027") then Some(E027)
    else if code == Chars("R028") then Some(E028)
    else if code == Chars("R029") then Some(E029)
    else if code == Chars("R030") then Some(E030)
    else None
  }

  /** `rule.get("params") or {}`; None where it has no `get`. */
  function Fields(params: Json): Option<Entries> {
    if !Truthy(params) then Some([])
    else match params case Dict(es) => Some(es) case _ => None
  }

  /** Two rules look at the order before they touch their parameters. */
  predicate Idle(e: Evaluator, o: Order, c: Cart) {
    || (e.E019? && Country(o).None?)
    || (e.E027? && AttrNumber(c, Chars("_stored_value_cents")).None?)
  }

  function RunRule(e: Evaluator, params: Json, o: Order, c: Cart): Ruling {
    if Idle(e, o, c) then Silent
    else match Fields(params)
         case None => Breaks
         case Some(p) =>
           match e
           case E014 => R014(p, o, c)
           case E018 => R018(p, o, c)
           case E019 => R019(p, Country(o).value)
           case E020 => R020(p, o, c)
           case E025 => R025(p, o, c)
           case E027 => R027(p, AttrNumber(c, Chars("_stored_value_cents")).value)
           case E028 => R028(p, o, c)
           case E029 => R029(p, o, c)
           case E030 => R030(p, o, c)
  }

  // ---------------------------------------------------------------- evaluation

  /** What `evaluate` returns, or that it raised. */
  datatype Verdict = Clear | Blocked(code: Text) | Broken

  predicate Considered(r: Rule) {
    r.Rule? && r.enabled && Dispatch(ShortCode(r.code)).Some?
  }

  function RulingOf(r: Rule, o: Order, c: Cart): Ruling {
    if Considered(r) then RunRule(Dispatch(ShortCode(r.code)).value, r.params, o, c) else Silent
  }

  /** The rule ends the evaluation: it blocks the order, or it raises. */
  predicate Stops(r: Rule, o: Order, c: Cart) {
    RulingOf(r, o, c) != Silent
  }

  function VerdictOf(r: Rule, o: Order, c: Cart): Verdict {
    match RulingOf(r, o, c)
    case Silent => Clear
    case Hit => if r.Rule? then Blocked(ShortCode(r.code)) else Clear
    case Breaks => Broken
  }

  /** Which rule index stops first, if any: the declarative reading of `evaluate`. */
  predicate FirstStop(rules: seq<Rule>, o: Order, c: Cart, i: nat) {
    i < |rules| && Stops(rules[i], o, c) && forall j | 0 <= j < i :: !Stops(rules[j], o, c)
  }

  predicate AnyStops(rules: seq<Rule>, o: Order, c: Cart) {
    exists i | 0 <= i < |rules| :: Stops(rules[i], o, c)
  }

  /** The verdict of the first enabled, known rule that is not silent. */
  function Evaluate(rules: seq<Rule>, o: Order, c: Cart): Verdict {
    if rules == [] then Clear
    else if Stops(rules[0], o, c) then VerdictOf(rules[0], o, c)
    else Evaluate(rules[1..], o, c)
  }

  lemma {:induction false} EvaluateIsFirstMatch(rules: seq<Rule>, o: Order, c: Cart, i: nat)
    requires FirstStop(rules, o, c, i)
    ensures Evaluate(rules, o, c) == VerdictOf(rules[i], o, c) != Clear
  {
    hide RunRule, Dispatch;
    if i > 0 {
      forall j | 0 <= j < i - 1 ensures !Stops(rules[1..][j], o, c) {
        assert rules[1..][j] == rules[j + 1];
      }
      EvaluateIsFirstMatch(rules[1..], o, c, i - 1);
    }
  }

  lemma {:induction false} EvaluateClearIff(rules: seq<Rule>, o: Order, c: Cart)
    ensures Evaluate(rules, o, c).Clear? <==> !AnyStops(rules, o, c)
  {
    hide RunRule, Dispatch;
    if rules != [] {
      EvaluateClearIff(rules[1..], o, c);
      if Stops(rules[0], o, c) {
      } else if AnyStops(rules[1..], o, c) {
        var i :| 0 <= i < |rules[1..]| && Stops(rules[1..][i], o, c);
        assert Stops(rules[i + 1], o, c);
      }
    }
  }

  /** `evaluate`: one pass, returning at the first rule that blocks or raises. */
  method EvaluateRules(rules: seq<Rule>, o: Order, c: Cart) returns (r: Verdict)
    ensures r == Evaluate(rules, o, c)
    ensures r.Clear? ==> forall i | 0 <= i < |rules| :: !Stops(rules[i], o, c)
    ensures !r.Clear? ==> exists i | 0 <= i < |rules| :: FirstStop(rules, o, c, i) && r == VerdictOf(rules[i], o, c)
  {
    hide RunRule, Dispatch;
    for i := 0 to |rules|
      invariant forall j | 0 <= j < i :: !Stops(rules[j], o, c)
    {
      var rule := rules[i];
      if rule.NotADict? || !rule.enabled { continue; }
      var code := ShortCode(rule.code);
      var fn := Dispatch(code);
      if fn.None? { continue; }
      var ruling := RunRule(fn.value, rule.params, o, c);
      if ruling != Silent {
        assert FirstStop(rules, o, c, i);
        EvaluateIsFirstMatch(rules, o, c, i);
        return if ruling == Breaks then Broken else Blocked(code);
      }
    }
    EvaluateClearIff(rules, o, c);
    return Clear;
  }

  /** Evaluating two lists in a row is trying the first, then the second. */
  lemma {:induction false} EvaluateConcat(a: seq<Rule>, b: seq<Rule>, o: Order, c: Cart)
    ensures Evaluate(a + b, o, c)
         == if Evaluate(a, o, c).Clear? then Evaluate(b, o, c) else Evaluate(a, o, c)
  {
    hide RunRule, Dispatch;
    if a == [] {
      assert a + b == b;
    } else {
      assert (a + b)[1..] == a[1..] + b;
      EvaluateConcat(a[1..], b, o, c);
    }
  }

  function OnlyConsidered(rules: seq<Rule>): seq<Rule> {
    if rules == [] then []
    else (if Considered(rules[0]) then [rules[0]] else []) + OnlyConsidered(rules[1..])
  }

  /** Disabled rules, unknown codes and non-dict entries never matter. */
  lemma {:induction false} OnlyConsideredMatter(rules: seq<Rule>, o: Order, c: Cart)
    ensures Evaluate(OnlyConsidered(rules), o, c) == Evaluate(rules, o, c)
  {
    hide RunRule, Dispatch;
    if rules != [] {
      OnlyConsideredMatter(rules[1..], o, c);
      EvaluateConcat(if Considered(rules[0]) then [rules[0]] else [], OnlyConsidered(rules[1..]), o, c);
    }
  }

  // -------------------------------------------------------------- monotonicity

  /** Same countries, and no smaller total, item count or line quantity. */
  predicate NoSmaller(o: Order, o': Order) {
    && o.billingCountry == o'.billingCountry && o.shippingCountry == o'.shippingCountry
    && o.cartTotalCents <= o'.cartTotalCents && o.itemCount <= o'.itemCount
    && |o.lineQtys| <= |o'.lineQtys| && forall i | 0 <= i < |o.lineQtys| :: o.lineQtys[i] <= o'.lineQtys[i]
  }

  lemma ExceedsMonotone(x: real, y: real, limit: Json)
    requires x <= y && Exceeds(Real(x), limit) != No
    ensures Exceeds(Real(y), limit) == Exceeds(Real(x), limit)
  {
  }

  lemma QuotientMonotone(m: int, n: int, a: Number)
    requires m <= n && Above(a, Real(0.0))
    ensures Quotient(m, a).Real? && Quotient(n, a).Real? && Quotient(m, a).x <= Quotient(n, a).x
  {
    if a.Real? { DivideMonotone(m as real, n as real, a.x); }
  }

  lemma DivideMonotone(a: real, b: real, avg: real)
    requires a <= b && avg > 0.0
    ensures a / avg <= b / avg
  {
  }

  lemma SpikeMonotone(p: Entries, o: Order, o': Order)
    requires NoSmaller(o, o') && Spike(p, o) != Silent
    ensures Spike(p, o') != Silent
  {
    hide Get, GetOr, Chars, Quotient, Exceeds;
    var avg := NumberIn(GetOr(p, Chars("merchantAvgOrderCents"), Null));
    if avg.Some? && Above(avg.value, Real(0.0)) {
      var mult := GetOr(p, Chars("spikeMultiplier"), Int(5));
      QuotientMonotone(o.cartTotalCents, o'.cartTotalCents, avg.value);
      ExceedsMonotone(Quotient(o.cartTotalCents, avg.value).x, Quotient(o'.cartTotalCents, avg.value).x, mult);
    }
  }

  lemma LineMonotone(p: Entries, o: Order, o': Order)
    requires NoSmaller(o, o') && LineTooBig(p, o) != Silent
    ensures LineTooBig(p, o') != Silent
  {
    hide Get, GetOr, Chars;
    var limit := GetOr(p, Chars("maxSingleSkuQty"), Null);
    if i :| 0 <= i < |o.lineQtys| && Exceeds(Real(o.lineQtys[i] as real), limit) == Yes {
      ExceedsMonotone(o.lineQtys[i] as real, o'.lineQtys[i] as real, limit);
      assert Exceeds(Real(o'.lineQtys[i] as real), limit) == Yes;
    }
  }

  /** Enlarging an order silences no rule. */
  lemma RuleMonotone(e: Evaluator, params: Json, o: Order, o': Order, c: Cart)
    requires NoSmaller(o, o') && RunRule(e, params, o, c) != Silent
    ensures RunRule(e, params, o', c) != Silent
  {
    hide Get, GetOr, GetOrElse, Chars, NumberIn, Spike, LineTooBig, LocalHour, HighRisk, Within, Truthy, AttrBool, AttrNumber;
    if Fields(params).Some? {
      var p := Fields(params).value;
      if e.E018? {
        if Spike(p, o) != Silent { SpikeMonotone(p, o, o'); }
        if LineTooBig(p, o) != Silent { LineMonotone(p, o, o'); }
      }
    }
  }

  /** Enlarging an order never lets it through. */
  lemma BlockedStaysBlocked(rules: seq<Rule>, o: Order, o': Order, c: Cart)
    requires NoSmaller(o, o') && !Evaluate(rules, o, c).Clear?
    ensures !Evaluate(rules, o', c).Clear?
  {
    hide RunRule, Dispatch;
    EvaluateClearIff(rules, o, c);
    EvaluateClearIff(rules, o', c);
    var i :| 0 <= i < |rules| && Stops(rules[i], o, c);
    RuleMonotone(Dispatch(ShortCode(rules[i].code)).value, rules[i].params, o, o', c);
    assert Stops(rules[i], o', c);
  }

  // ------------------------------------------------------------ business hours

  /** On the clock face the two-case test is circular distance from the opening hour. */
  lemma WindowIsCircular(start: int, end: int, hour: int)
    requires 0 <= start < 24 && 0 <= end < 24 && 0 <= hour < 24
    ensures Inside(Real(start as real), Real(end as real), Real(hour as real)) <==> (hour - start) % 24 < (end - start) % 24
  {
  }

  /** A window and its swap partition the day, unless they are the same hour: then both
      are empty. */
  lemma SwapPartitions(start: real, end: real, hour: real)
    ensures var a, b, h := Real(start), Real(end), Real(hour);
            && ((Inside(a, b, h) <==> !Inside(b, a, h)) <==> start != end)
            && (start == end ==> !Inside(a, b, h))
  {
  }

  function Bound(r: Rule, key: Text): Json
    requires r.Rule?
  {
    match Fields(r.params) case Some(p) => GetOr(p, key, Null) case None => Null
  }

  /** Enabled, and with two finite bounds. */
  predicate BusinessHours(r: Rule) {
    && r.Rule? && r.enabled && ShortCode(r.code) == Chars("R020") && Fields(r.params).Some?
    && (NumberIn(Bound(r, Chars("startHour"))).Some? && NumberIn(Bound(r, Chars("startHour"))).value.Real?)
    && (NumberIn(Bound(r, Chars("endHour"))).Some? && NumberIn(Bound(r, Chars("endHour"))).value.Real?)
  }

  /** A business-hours rule and its swap in one list let no order through, at any hour. */
  lemma SwapBlocksEveryHour(rules: seq<Rule>, i: nat, j: nat, o: Order, c: Cart)
    requires i < |rules| && j < |rules| && BusinessHours(rules[i]) && BusinessHours(rules[j])
    requires Bound(rules[j], Chars("startHour")) == Bound(rules[i], Chars("endHour"))
    requires Bound(rules[j], Chars("endHour")) == Bound(rules[i], Chars("startHour"))
    requires LocalHour(Fields(rules[j].params).value, c) == LocalHour(Fields(rules[i].params).value, c)
    requires LocalHour(Fields(rules[i].params).value, c).Some?
    ensures !Evaluate(rules, o, c).Clear?
  {
    hide Get, GetOr, Fields, LocalHour, NumberIn, Evaluate, ShortCode, Chars, Truthy;
    DispatchBusinessHours();
    hide Dispatch;
    var start, end := NumberIn(Bound(rules[i], Chars("startHour"))).value, NumberIn(Bound(rules[i], Chars("endHour"))).value;
    var hour := LocalHour(Fields(rules[i].params).value, c).value;
    if hour.Real? { SwapPartitions(start.x, end.x, hour.x); }
    BoundsAreNumbers();
    assert Stops(rules[i], o, c) || Stops(rules[j], o, c);
    EvaluateClearIff(rules, o, c);
  }

  lemma BoundsAreNumbers()
    ensures NumberIn(Null).None?
  {
  }

  lemma DispatchBusinessHours()
    ensures Dispatch(Chars("R020")) == Some(E020)
  {
    assert Chars("R020")[2] != Chars("R014")[2];
    assert Chars("R020")[2] != Chars("R018")[2];
    assert Chars("R020")[2] != Chars("R019")[2];
  }
}
