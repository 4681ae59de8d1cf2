/**
 Inputs on which the exceptions stated in EnforcementGate strike: a token whose `exp` is an
 integer beyond the floats, and a rule code with a suffix.
 */
module GateWitness {
  import opened Texts
  import opened Decimals
  import opened Json
  import opened TokenVerifier
  import opened NonceStage
  import opened NonceTightness
  import opened IntentText
  import opened EnforcementGate

  function Resolver1(): Json {
    Dict([(DID, Dict([(Chars("x"), Str([0x78]))]))])
  }

  lemma ResolverReads(mode: Text, rules: seq<Offline.Rule>)
    ensures DidResolver(Merchant(mode, rules)) == KeyRing()
  {
    var es := Resolver1().entries;
    assert es[..0] == [];
    assert Get([(Chars("x"), Str([0x78]))], Chars("x")) == Some(Str([0x78]));
    hide Get, Chars;
    assert KeyEntry(DID, es[0].1) == Some(Str([0x78]));
  }

  function Merchant(mode: Text, rules: seq<Offline.Rule>): Snapshot {
    Snapshot(MERCHANT, [], [], Some(mode), false, Resolver1(), rules)
  }

  /** Nothing beyond the snapshot answers. */
  function Alone(mode: Text, rules: seq<Offline.Rule>, total: int, now: real): World {
    World(Some(Merchant(mode, rules)), now, NO_TOKEN, [], false, NoAnswer, (a, t, f) => None,
          Offline.Order(total, 1, [], None, []), Offline.Cart(map[], t => None, z => None))
  }

  function Unconvertible(intentHash: Text): Libs {
    Library(Claims(Int(FLOAT_LIMIT), Int(0), intentHash))
  }

  lemma UnconvertibleOverflows(intentHash: Text, call: Call)
    requires call.jws == TOKEN && call.merchantId == MERCHANT && call.resolver == KeyRing()
    ensures Overflows(Unconvertible(intentHash), call)
    ensures GetOr(Claims(Int(FLOAT_LIMIT), Int(0), intentHash), Chars("checkoutIntentHash"), Str([])) == Str(intentHash)
  {
    var claims := Claims(Int(FLOAT_LIMIT), Int(0), intentHash);
    TokenParses(claims);
    ClaimsRead(Int(FLOAT_LIMIT), Int(0), intentHash);
    Signed(claims);
    hide Get, Chars, Header, Claims, Parse, AgentDid, SignatureHolds, HeaderHolds, FLOAT_LIMIT, Library;
    assert ForMerchant(claims, call.merchantId);
    assert ClaimsOverflow(claims);
  }

  /** One token, minted for order 1 over 10.0, in balanced mode: it passes that order, order
      2 over 99.0, and a create over 99.0, with a hash under which no two texts collide. */
  lemma OneTokenPassesEveryOrder(now: real) returns (libs: Libs, token: AgentToken, w: World)
    ensures w.snapshot.Some? && w.snapshot.value.fallbackMode == Some(Chars("balanced")) && token != NO_TOKEN
    ensures forall t, t' :: libs.sha256(t) == libs.sha256(t') ==> t == t'
    ensures MintedFor(libs, token, PrintInt(1), w.snapshot.value.merchantId, Chars("10.0"))
    ensures RecordGate(libs, map[], 1, token, Chars("10.0"), w).0.Pass?
    ensures RecordGate(libs, map[], 2, token, Chars("99.0"), w).0.Pass?
    ensures ValsGate(libs, map[], token, Chars("99.0"), w).0.Pass?
  {
    var intent := IntentJson(PrintInt(1), MERCHANT, Chars("10.0"));
    libs, token, w := Unconvertible(intent), TOKEN, Alone(Chars("balanced"), [], 0, now);
    assert libs.sha256(intent) == intent;
    TokenParses(Claims(Int(FLOAT_LIMIT), Int(0), intent));
    hide IntentJson, Chars, Claims, FLOAT_LIMIT, PrintInt, Parse, RecordGate, ValsGate, Resolver1, Library;
    UnconvertiblePasses(intent, 1, Chars("10.0"), now);
    UnconvertiblePasses(intent, 2, Chars("99.0"), now);
    UnconvertibleOverflows(intent, Call(now, TOKEN, [], MERCHANT, KeyRing()));
  }

  lemma UnconvertiblePasses(intentHash: Text, id: int, amount: Text, now: real)
    ensures var w := Alone(Chars("balanced"), [], 0, now);
            && RecordGate(Unconvertible(intentHash), map[], id, TOKEN, amount, w).0.Pass?
            && ValsGate(Unconvertible(intentHash), map[], TOKEN, amount, w).0.Pass?
  {
    hide IntentJson, IntentHash, Chars, Overflows, Claims, Strict, Resolver1, FLOAT_LIMIT, PrintInt, DidResolver, Parse, RecordGate, ValsGate, Unconvertible;
    var libs, w := Unconvertible(intentHash), Alone(Chars("balanced"), [], 0, now);
    ResolverReads(Chars("balanced"), []);
    NotStrict();
    UnconvertibleOverflows(intentHash, RecordCall(libs, id, TOKEN, amount, w));
    UnconvertibleOverflows(intentHash, CreateCall(libs, TOKEN, amount, w));
    EarlyExceptionPasses(libs, map[], id, TOKEN, amount, w);
  }

  lemma NotStrict()
    ensures !Strict(Chars("balanced"))
  {
    assert Chars("balanced")[0] != Chars("strict")[0];
  }

  function LimitParams(): Json {
    Dict([(Chars("maxAmountCents"), Int(10000))])
  }

  /** The merchant's one rule limits orders to 100.00. */
  function AmountLimit(code: Text): seq<Offline.Rule> {
    [Offline.Rule(code, true, LimitParams())]
  }

  lemma LimitShortCodes()
    ensures Offline.ShortCode(Chars("R030.x")) == Offline.ShortCode(Chars("R030")) == Chars("R030")
  {
    var code, suffix := Chars("R030"), Chars("x");
    assert Chars("R030.x") == code + ([DOT] + suffix);
    hide Before, Chars;
    BeforeFirst(code, DOT, suffix);
  }

  lemma DispatchLimit()
    ensures Offline.Dispatch(Chars("R030")) == Some(Offline.E030)
  {
    assert Chars("R030")[2] != Chars("R014")[2] && Chars("R030")[2] != Chars("R018")[2];
    assert Chars("R030")[2] != Chars("R019")[2] && Chars("R030")[2] != Chars("R020")[2];
    assert Chars("R030")[2] != Chars("R025")[2] && Chars("R030")[2] != Chars("R027")[2];
    assert Chars("R030")[2] != Chars("R028")[2] && Chars("R030")[2] != Chars("R029")[2];
    hide Chars;
  }

  lemma LimitTier2()
    ensures Tier2(Chars("R030")) && !Tier2(Chars("R030.x"))
  {
  }

  /** The limit hits an order of 200.00. */
  lemma LimitHits(code: Text, now: real)
    requires Offline.ShortCode(code) == Chars("R030")
    ensures var w := Alone(Chars("balanced"), AmountLimit(code), 20000, now);
            Offline.Stops(w.snapshot.value.rules[0], w.order, w.cart)
  {
    var es := LimitParams().entries;
    assert Get(es, Chars("maxAmountCents")) == Some(Int(10000));
    DispatchLimit();
    hide Chars, Get, Offline.ShortCode, Offline.Dispatch, Resolver1;
  }

  /** During an outage of the rule service the limit stops an order of 200.00 when the rule is
      listed as `R030`, and lets it pass when it is listed as `R030.x`, although the offline
      evaluator holds that either blocks it. */
  lemma SuffixLetsBlockedOrderPass(now: real)
    ensures var plain, suffixed := Alone(Chars("balanced"), AmountLimit(Chars("R030")), 20000, now),
                                   Alone(Chars("balanced"), AmountLimit(Chars("R030.x")), 20000, now);
            && Offline.AnyStops(plain.snapshot.value.rules, plain.order, plain.cart)
            && Offline.AnyStops(suffixed.snapshot.value.rules, suffixed.order, suffixed.cart)
            && PolicyStage(plain.snapshot.value, Chars("balanced"), None, None, NoFlags, plain).Block?
            && PolicyStage(suffixed.snapshot.value, Chars("balanced"), None, None, NoFlags, suffixed) == Pass(None, NoFlags)
  {
    var plain, suffixed := Alone(Chars("balanced"), AmountLimit(Chars("R030")), 20000, now),
                           Alone(Chars("balanced"), AmountLimit(Chars("R030.x")), 20000, now);
    hide Chars, Before, Offline.ShortCode, Offline.Stops, Tier2, Strict, Resolver1, Offline.Evaluate, LimitParams;
    LimitShortCodes();
    LimitTier2();
    NotStrict();
    LimitHits(Chars("R030"), now);
    LimitHits(Chars("R030.x"), now);
    assert Tier2(plain.snapshot.value.rules[0].code);
    OutageBlocksIff(plain.snapshot.value, Chars("balanced"), None, None, NoFlags, plain);
  }

  /** A context token that is no text, say a number, passes any record in balanced mode, and so
      does one among the values of a create, whatever the libraries answer. The very limit that
      stops a record without a token is then not looked at. */
  lemma NoTextPassesEveryOrder(libs: Libs, cache: NonceCache, id: int, amount: Text, now: real, other: Text)
    ensures var w := Alone(Chars("balanced"), AmountLimit(Chars("R030")), 20000, now);
            && RecordGate(libs, cache, id, NO_TOKEN, amount, w).0.Block?
            && RecordGate(libs, cache, id, NO_TOKEN, amount, w.(contextToken := NoText(other))) == (Pass(None, NoFlags), cache)
            && ValsGate(libs, cache, NoText(other), amount, w) == (Pass(None, NoFlags), cache)
  {
    var w := Alone(Chars("balanced"), AmountLimit(Chars("R030")), 20000, now);
    NotStrict();
    SuffixLetsBlockedOrderPass(now);
    hide Chars, Strict, Resolver1, LimitParams, AmountLimit, PolicyStage, IntentHash, DidResolver, Verify;
    EarlyExceptionPasses(libs, cache, id, NO_TOKEN, amount, w.(contextToken := NoText(other)));
    EarlyExceptionPasses(libs, cache, id, NoText(other), amount, w);
  }
}
