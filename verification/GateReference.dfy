/**
 What the gates decide, said once more with the guards, the services and the snapshot's members
 written out.
 */
module GateReference {
  import opened Texts
  import opened Decimals
  import opened Json
  import opened Base64Url
  import opened TokenVerifier
  import opened TokenReference
  import opened NonceStage
  import opened IntentText
  import opened EnforcementGate

  // ------------------------------------------------------------- key resolution

  /** The i-th entry of the snapshot's resolver is the last usable one for this DID. */
  predicate Lists(es: Entries, i: nat, did: Text, x: Json) {
    && i < |es| && UsableEntry(es[i], did, x)
    && forall k | i < k < |es| :: es[k].0 == did ==> !HasUsableX(es[k].1)
  }

  predicate UsableEntry(e: (Text, Json), did: Text, x: Json) {
    e.0 == did && did != [] && e.1.Dict? && Get(e.1.entries, Chars("x")) == Some(x) && Truthy(x)
  }

  predicate HasUsableX(jwk: Json) {
    jwk.Dict? && Get(jwk.entries, Chars("x")).Some? && Truthy(Get(jwk.entries, Chars("x")).value)
  }

  /** The resolver holds a DID exactly with the `x` of its last usable entry. */
  lemma {:induction false} ResolverIff(es: Entries, did: Text, x: Json)
    ensures did in ResolverOf(es) && ResolverOf(es)[did] == x <==> exists i: nat :: Lists(es, i, did, x)
  {
    hide Get, Chars, Truthy;
    if es != [] {
      var n := |es| - 1;
      var before := es[..n];
      ResolverIff(before, did, x);
      if es[n].0 == did && did != [] && HasUsableX(es[n].1) {
        if Get(es[n].1.entries, Chars("x")) == Some(x) { assert Lists(es, n, did, x); }
      } else {
        if i: nat :| Lists(before, i, did, x) { assert Lists(es, i, did, x); }
        if i: nat :| Lists(es, i, did, x) { assert Lists(before, i, did, x); }
      }
    }
  }

  /** A gate that passes a text has found, among the keys its snapshot lists, the one for the
      DID in `kid`, and the signature verifies under it; whatever the mode. */
  lemma PassedTextIsSigned(libs: Libs, cache: NonceCache, id: int, field: AgentToken, amount: Text, w: World)
    returns (h: Entries, p: Entries, kid: Text, key: Bytes, sig: Bytes, i: nat)
    requires w.snapshot.Some? && TokenOf(field, w).Jws? && TokenOf(field, w).text != []
    requires RecordGate(libs, cache, id, field, amount, w).0.Pass? || ValsGate(libs, cache, field, amount, w).0.Pass?
    ensures Signed(libs, Call(w.now, TokenOf(field, w), [], w.snapshot.value.merchantId, DidResolver(w.snapshot.value)), h, p, kid, key, sig)
    ensures w.snapshot.value.didResolver.Dict?
    ensures exists x :: Lists(w.snapshot.value.didResolver.entries, i, Before(kid, '#' as int), Str(x)) && libs.decode(x) == Some(key)
  {
    var s, call := w.snapshot.value, RecordCall(libs, id, field, amount, w);
    var bare := Call(w.now, TokenOf(field, w), [], s.merchantId, DidResolver(s));
    assert SignedForMerchant(libs, bare) by {
      hide RecordGate, ValsGate, TokenChecks, RaisesEarly, CanRaise, Attested, AfterNonce, IntentHash, HeaderHolds, SignatureHolds, ForMerchant;
      if RecordGate(libs, cache, id, field, amount, w).0.Pass? {
        PassMeansChecked(libs, cache, id, field, amount, w);
        assert SignedForMerchant(libs, call);
      } else {
        ValsPassMeansChecked(libs, cache, field, amount, w);
        assert SignedForMerchant(libs, CreateCall(libs, field, amount, w));
      }
    }
    hide SignedForMerchant, RecordGate, ValsGate, Lists;
    h, p, kid, key, sig := Explicitly(libs, bare);
    var did := Before(kid, '#' as int);
    ResolverIff(s.didResolver.entries, did, DidResolver(s)[did]);
    i :| Lists(s.didResolver.entries, i, did, DidResolver(s)[did]);
    var x := DidResolver(s)[did].s;
    assert Lists(s.didResolver.entries, i, did, Str(x)) && libs.decode(x) == Some(key);
  }

  /** A text whose signature does not verify over its first two parts, under the key listed for
      its DID, is blocked by both gates in every mode. */
  lemma ForgedIsBlocked(libs: Libs, cache: NonceCache, id: int, field: AgentToken, amount: Text, w: World,
                        h: Entries, kid: Text, key: Bytes, sig: Bytes)
    requires w.snapshot.Some? && TokenOf(field, w).Jws? && |Split(TokenOf(field, w).text, '.' as int)| == 3
    requires var parts := Split(TokenOf(field, w).text, '.' as int);
             && HoldsObject(libs, parts[0], h) && Get(h, Chars("kid")) == Some(Str(kid))
             && libs.decode(parts[2]) == Some(sig)
             && !libs.validSignature(key, parts[0] + ['.' as int] + parts[1], sig)
    requires var keys, did := DidResolver(w.snapshot.value), Before(kid, '#' as int);
             did in keys && keys[did].Str? ==> libs.decode(keys[did].s) == Some(key)
    ensures RecordGate(libs, cache, id, field, amount, w).0.Block?
    ensures ValsGate(libs, cache, field, amount, w).0.Block?
  {
    var call, create := RecordCall(libs, id, field, amount, w), CreateCall(libs, field, amount, w);
    hide Split, Verify, IntentHash, DidResolver, Chars, Get;
    ForgedIsRejected(libs, cache, call, h, kid, key, sig);
    ForgedIsRejected(libs, cache, create, h, kid, key, sig);
  }

  // --------------------------------------------------------------- the rule service

  /** The i-th rule of the snapshot is enabled and has the code R003 to R030, not R007. */
  predicate EnablesTier2(s: Snapshot, i: nat, n: nat) {
    && i < |s.rules| && s.rules[i].Rule? && s.rules[i].enabled && 3 <= n <= 30 && n != 7
    && s.rules[i].code == Chars("R0") + [0x30 + n / 10, 0x30 + n % 10]
  }

  lemma HasTier2Iff(s: Snapshot)
    ensures HasTier2(s.rules) <==> exists i: nat, n: nat :: EnablesTier2(s, i, n)
  {
    if HasTier2(s.rules) {
      var i :| 0 <= i < |s.rules| && s.rules[i].Rule? && s.rules[i].enabled && Tier2(s.rules[i].code);
      var code := s.rules[i].code;
      assert code == Chars("R0") + [code[2], code[3]];
      assert EnablesTier2(s, i, 10 * (code[2] - 0x30) + (code[3] - 0x30));
    }
    if i: nat, n: nat :| EnablesTier2(s, i, n) {
      assert Tier2(s.rules[i].code);
    }
  }

  /** The service can be asked: nothing is missing in the snapshot and its host is trusted. */
  predicate Askable(w: World) {
    && w.snapshot.Some? && w.apiBaseTrusted && w.snapshot.value.merchantId != []
    && w.snapshot.value.installationId != [] && w.snapshot.value.hmacSecret != []
  }

  /** What the answer of the service makes of an order; without an answer the rules in hand
      decide, and when they are silent the mode. */
  predicate Obeys(decision: Decision, answer: Option<Layer2>, agent: Option<Text>, flags: NonceFlags, w: World)
    requires w.snapshot.Some?
  {
    match answer
    case Some(Layer2(true, code)) => decision == Block(Rule(code))
    case Some(Layer2(false, _)) => decision == Pass(agent, flags)
    case Some(Broken) => decision == Block(Uncaught)
    case None =>
      match Offline.Evaluate(w.snapshot.value.rules, w.order, w.cart)
      case Blocked(code) => decision == Block(Rule(code))
      case Broken => decision == Block(Uncaught)
      case Clear => decision == if w.snapshot.value.fallbackMode == Some(Chars("strict")) then Block(CelTimeout) else Pass(agent, flags)
  }

  /** What a service that may not be asked answers: nothing. */
  function Ask(w: World, agent: Option<Text>, trust: Option<Json>, flags: NonceFlags): Option<Layer2> {
    if Askable(w) then w.ruleService(agent, trust, flags) else None
  }

  lemma PolicyObeys(w: World, agent: Option<Text>, trust: Option<Json>, flags: NonceFlags, i: nat, n: nat)
    requires w.snapshot.Some? && EnablesTier2(w.snapshot.value, i, n)
    ensures Obeys(PolicyStage(w.snapshot.value, FallbackMode(w.snapshot), agent, trust, flags, w), Ask(w, agent, trust, flags), agent, flags, w)
  {
    HasTier2Iff(w.snapshot.value);
    BalancedIsNotStrict();
    hide HasTier2, EnablesTier2, Offline.Evaluate, Chars;
  }

  /** With a tier-2 rule enabled the record gate obeys the rule service, asked without an agent
      when there is no token and with the verified agent, its score and the flags of the nonce
      stage when there is one. A service that cannot be asked has given no answer. */
  lemma RuleServiceDecides(libs: Libs, cache: NonceCache, id: int, field: AgentToken, amount: Text, w: World, i: nat, n: nat)
    requires w.snapshot.Some? && !w.snapshot.value.killSwitch && EnablesTier2(w.snapshot.value, i, n)
    ensures var s, gate := w.snapshot.value, RecordGate(libs, cache, id, field, amount, w).0;
            if TokenOf(field, w) == NO_TOKEN then Obeys(gate, Ask(w, None, None, NoFlags), None, NoFlags, w)
            else match Verify(libs, cache, RecordCall(libs, id, field, amount, w)).0
                 case Accepted(ident) =>
                   (match ConsumeWithFailureMode(ident, Creds(s, w), FallbackMode(w.snapshot), w.backend)
                    case Through(flags) =>
                      Obeys(gate, Ask(w, Some(ident.agentId), ident.trustScore, flags), Some(ident.agentId), flags, w)
                    case Refused(why) => gate == Block(why))
                 case Rejected => gate == Block(R001)
                 case Raised => gate == (if s.fallbackMode == Some(Chars("strict")) then Block(R001) else Pass(None, NoFlags))
  {
    hide Verify, EnablesTier2, Obeys, Ask, PolicyStage, ConsumeWithFailureMode, IntentHash, DidResolver, Chars, PrintInt;
    BalancedIsNotStrict();
    if TokenOf(field, w) == NO_TOKEN {
      PolicyObeys(w, None, None, NoFlags, i, n);
    } else {
      var outcome := Verify(libs, cache, RecordCall(libs, id, field, amount, w)).0;
      if outcome.Accepted? {
        var ident := outcome.id;
        var stage := ConsumeWithFailureMode(ident, Creds(w.snapshot.value, w), FallbackMode(w.snapshot), w.backend);
        if stage.Through? { PolicyObeys(w, Some(ident.agentId), ident.trustScore, stage.flags, i, n); }
      }
    }
  }

  lemma BalancedIsNotStrict()
    ensures Chars("balanced") != Chars("strict")
  {
    assert Chars("balanced")[0] != Chars("strict")[0];
  }

  lemma PolicyAsksNobody(s: Snapshot, mode: Text, agent: Option<Text>, trust: Option<Json>, flags: NonceFlags, w: World,
                         other: (Option<Text>, Option<Json>, NonceFlags) -> Option<Layer2>)
    requires w.snapshot == Some(s) && (!Askable(w) || forall i: nat, n: nat :: !EnablesTier2(s, i, n))
    ensures PolicyStage(s, mode, agent, trust, flags, w) == PolicyStage(s, mode, agent, trust, flags, w.(ruleService := other))
  {
    HasTier2Iff(s);
    hide HasTier2, EnablesTier2, Offline.Evaluate, Strict;
  }

  /** Nobody is asked when a credential is missing, when the host is not trusted, or when no rule
      of tier 2 is enabled; and a create never asks. */
  lemma RuleServiceNotAsked(libs: Libs, cache: NonceCache, id: int, field: AgentToken, amount: Text, w: World,
                            other: (Option<Text>, Option<Json>, NonceFlags) -> Option<Layer2>)
    ensures !Askable(w) || (forall i: nat, n: nat :: !EnablesTier2(w.snapshot.value, i, n)) ==>
              RecordGate(libs, cache, id, field, amount, w) == RecordGate(libs, cache, id, field, amount, w.(ruleService := other))
    ensures ValsGate(libs, cache, field, amount, w) == ValsGate(libs, cache, field, amount, w.(ruleService := other))
  {
    hide Verify, Askable, EnablesTier2, PolicyStage, ConsumeWithFailureMode, IntentHash, DidResolver, Strict, PrintInt;
    if w.snapshot.Some? && (!Askable(w) || forall i: nat, n: nat :: !EnablesTier2(w.snapshot.value, i, n)) {
      var s, mode := w.snapshot.value, FallbackMode(w.snapshot);
      PolicyAsksNobody(s, mode, None, None, NoFlags, w, other);
      var outcome := if s.killSwitch then Rejected else Verify(libs, cache, RecordCall(libs, id, field, amount, w)).0;
      if outcome.Accepted? {
        var stage := ConsumeWithFailureMode(outcome.id, Creds(s, w), mode, w.backend);
        if stage.Through? { PolicyAsksNobody(s, mode, Some(outcome.id.agentId), outcome.id.trustScore, stage.flags, w, other); }
      }
    }
  }

  // ------------------------------------------------------------- where a token is from

  /** A token in the record's field, or in the values of a create, is the one that counts; the
      context is looked at only without it. */
  lemma FieldComesFirst(libs: Libs, cache: NonceCache, id: int, field: AgentToken, amount: Text, w: World, context: AgentToken)
    requires field != NO_TOKEN
    ensures RecordGate(libs, cache, id, field, amount, w) == RecordGate(libs, cache, id, field, amount, w.(contextToken := context))
    ensures ValsGate(libs, cache, field, amount, w) == ValsGate(libs, cache, field, amount, w.(contextToken := context))
    ensures RecordGate(libs, cache, id, NO_TOKEN, amount, w.(contextToken := field)).1 == RecordGate(libs, cache, id, field, amount, w).1
  {
    hide Verify, HasTier2, ConsumeWithFailureMode, IntentHash, DidResolver, Offline.Evaluate, Chars, PrintInt;
  }

  /** What the verifier is asked: the record's own id, or "pending" for a create; the merchant, keys
      and clock of this run; and the hash of the intent. */
  lemma CallsAre(libs: Libs, id: int, field: AgentToken, amount: Text, w: World)
    requires w.snapshot.Some?
    ensures var s := w.snapshot.value;
            && RecordCall(libs, id, field, amount, w) ==
                 Call(w.now, TokenOf(field, w), libs.sha256(IntentJson(PrintInt(id), s.merchantId, amount)), s.merchantId, DidResolver(s))
            && CreateCall(libs, field, amount, w) ==
                 Call(w.now, TokenOf(field, w), libs.sha256(IntentJson(Chars("pending"), s.merchantId, amount)), s.merchantId, DidResolver(s))
  {
    hide IntentJson, DidResolver, PrintInt;
  }

  // ------------------------------------------------------------------- the backend

  /** Without policy rules a verified token passes or not as the backend answers, in the snapshot's
      mode. */
  lemma BackendDecides(libs: Libs, cache: NonceCache, id: int, field: AgentToken, amount: Text, w: World, ident: Identity)
    requires w.snapshot.Some? && !w.snapshot.value.killSwitch && !HasTier2(w.snapshot.value.rules) && TokenOf(field, w) != NO_TOKEN
    requires Verify(libs, cache, RecordCall(libs, id, field, amount, w)).0 == Accepted(ident)
    requires ident.jti != [] && ident.agentId != [] && ident.exp < 253402300800
    requires w.apiBase != [] && w.apiBaseTrusted && w.snapshot.value.merchantId != [] && w.snapshot.value.hmacSecret != []
    requires Encodable(w.snapshot.value.merchantId) && Encodable(w.snapshot.value.hmacSecret) && w.snapshot.value.installationId != []
    requires forall i | 0 <= i < |w.snapshot.value.installationId| :: w.snapshot.value.installationId[i] < 256
    ensures var strict := w.snapshot.value.fallbackMode == Some(Chars("strict"));
            RecordGate(libs, cache, id, field, amount, w).0 ==
            if w.backend == Status(200) then Pass(Some(ident.agentId), NoFlags)
            else if w.backend == Status(409) then if strict then Block(R002) else Pass(Some(ident.agentId), ReplayFlags)
            else if strict then Block(NonceUnavailable) else Pass(Some(ident.agentId), UnavailableFlags)
  {
    BalancedIsNotStrict();
    hide Verify, ConsumeWithFailureMode, HasTier2, IntentHash, DidResolver, Chars, PrintInt, Encodable;
    StageOfAnswer(ident, Creds(w.snapshot.value, w), FallbackMode(w.snapshot), w.backend);
  }
}
