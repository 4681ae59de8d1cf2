/**
 The decision machine of models/sale_order_enforcement.py: one gate for existing records,
 one for headless creates. Whatever the network, the clock and the record's lines answer
 is an input (`World`).
 */
module EnforcementGate {
  import opened Texts
  import opened Decimals
  import opened Json
  import opened TokenVerifier
  import opened NonceStage
  import Offline = OfflineEvaluator
  import opened IntentText

  datatype Snapshot = Snapshot(
    merchantId: Text, installationId: Text, hmacSecret: Text,
    fallbackMode: Option<Text>, killSwitch: bool, didResolver: Json, rules: seq<Offline.Rule>)

  /** The rule service's verdict, or an exception on the way to it that nothing catches. */
  datatype Layer2 = Layer2(block: bool, ruleCode: Text) | Broken

  /** What one gate run meets: the snapshot pulled, the clock, the token in the ORM context,
      the backend's answer to the nonce request, the rule service as a function of what it
      is asked, and the cart as the offline evaluator sees it. */
  datatype World = World(
    snapshot: Option<Snapshot>, now: real, contextToken: AgentToken, apiBase: Text, apiBaseTrusted: bool,
    backend: Answer, ruleService: (Option<Text>, Option<Json>, NonceFlags) -> Option<Layer2>,
    order: Offline.Order, cart: Offline.Cart)

  datatype Decision = Pass(agent: Option<Text>, flags: NonceFlags) | Block(why: Refusal)

  // ------------------------------------------------------------ small helpers

  /** `_resolve_fallback_mode`. */
  function FallbackMode(snapshot: Option<Snapshot>): Text {
    match snapshot
    case None => Chars("balanced")
    case Some(s) => match s.fallbackMode case Some(m) => m case None => Chars("balanced")
  }

  /** `_apply_fallback`. */
  function ApplyFallback(mode: Text): Decision {
    if Strict(mode) then Block(R001) else Pass(None, NoFlags)
  }

  /** The `x` of a usable resolver entry. */
  function KeyEntry(did: Text, jwk: Json): Option<Json> {
    if did != [] && jwk.Dict? && Get(jwk.entries, Chars("x")).Some? && Truthy(Get(jwk.entries, Chars("x")).value)
    then Get(jwk.entries, Chars("x"))
    else None
  }

  function ResolverOf(es: Entries): Resolver {
    if es == [] then map[]
    else
      var r := ResolverOf(es[..|es| - 1]);
      var (did, jwk) := es[|es| - 1];
      match KeyEntry(did, jwk) case Some(x) => r[did := x] case None => r
  }

  function DidResolver(snapshot: Snapshot): Resolver {
    match snapshot.didResolver case Dict(es) => ResolverOf(es) case _ => map[]
  }

  /** `_build_did_resolver`: a loop over the snapshot's entries. */
  method BuildDidResolver(snapshot: Snapshot) returns (resolver: Resolver)
    ensures resolver == DidResolver(snapshot)
  {
    resolver := map[];
    if !snapshot.didResolver.Dict? { return; }
    var es := snapshot.didResolver.entries;
    for i := 0 to |es|
      invariant resolver == ResolverOf(es[..i])
    {
      var (did, jwk) := es[i];
      assert es[..i + 1][..i] == es[..i];
      if did != [] && jwk.Dict? {
        var x := Get(jwk.entries, Chars("x"));
        if x.Some? && Truthy(x.value) { resolver := resolver[did := x.value]; }
      }
    }
    assert es[..|es|] == es;
  }

  /** Every resolver entry comes from the snapshot and is usable. */
  lemma {:induction false} ResolverEntries(es: Entries, did: Text)
    requires did in ResolverOf(es)
    ensures did != [] && exists i | 0 <= i < |es| ::
              es[i].0 == did && KeyEntry(did, es[i].1) == Some(ResolverOf(es)[did])
  {
    var n := |es| - 1;
    if es[n].0 == did && KeyEntry(did, es[n].1).Some? {
    } else {
      ResolverEntries(es[..n], did);
      var i :| 0 <= i < n && es[..n][i].0 == did && KeyEntry(did, es[..n][i].1) == Some(ResolverOf(es[..n])[did]);
      assert es[i] == es[..n][i];
    }
  }

  /** R003 to R030 except R007, as whole codes. */
  predicate Tier2(code: Text) {
    |code| == 4 && code[0] == 'R' as int && code[1] == ZERO && IsDigit(code[2]) && IsDigit(code[3]) &&
    var n := 10 * (code[2] - ZERO) + (code[3] - ZERO);
    3 <= n <= 30 && n != 7
  }

  predicate HasTier2(rules: seq<Offline.Rule>) {
    exists i | 0 <= i < |rules| :: rules[i].Rule? && rules[i].enabled && Tier2(rules[i].code)
  }

  function Creds(s: Snapshot, w: World): Credentials {
    Credentials(w.apiBase, w.apiBaseTrusted, s.merchantId, s.installationId, s.hmacSecret)
  }

  /** The intent text is ASCII, so hashing it never raises. */
  function IntentHash(libs: Libs, orderId: Text, merchantId: Text, amount: Text): (h: Text)
    ensures h == libs.sha256(IntentJson(orderId, merchantId, amount))
  {
    IntentAscii(orderId, merchantId, amount);
    Sha256Hex(libs, IntentJson(orderId, merchantId, amount))
  }

  function VerifyCall(libs: Libs, s: Snapshot, w: World, token: AgentToken, orderId: Text, amount: Text): Call {
    Call(w.now, token, IntentHash(libs, orderId, s.merchantId, amount), s.merchantId, DidResolver(s))
  }

  // ----------------------------------------------------------- the record gate

  /** `_trusteed_cel_call_layer2`, as far as the decision depends on it. */
  function CallRules(s: Snapshot, agent: Option<Text>, trust: Option<Json>, flags: NonceFlags, w: World): Option<Layer2> {
    if s.merchantId == [] || s.installationId == [] || s.hmacSecret == [] || !w.apiBaseTrusted then None
    else w.ruleService(agent, trust, flags)
  }

  /** From line 217: rules, their outage, and the final pass. */
  function PolicyStage(s: Snapshot, mode: Text, agent: Option<Text>, trust: Option<Json>,
                       flags: NonceFlags, w: World): Decision {
    if !HasTier2(s.rules) then Pass(agent, flags)
    else match CallRules(s, agent, trust, flags, w)
         case Some(Broken) => Block(Uncaught)
         case Some(Layer2(block, ruleCode)) => if block then Block(Rule(ruleCode)) else Pass(agent, flags)
         case None =>
           match Offline.Evaluate(s.rules, w.order, w.cart)
           case Blocked(code) => Block(Rule(code))
           case Broken => Block(Uncaught)
           case Clear => if Strict(mode) then Block(CelTimeout) else Pass(agent, flags)
  }

  /** With the rule service out of reach, the first offline rule that blocks or raises decides
      in every mode, and when none does only strict blocks. */
  lemma OutageAppliesOfflineRules(s: Snapshot, mode: Text, agent: Option<Text>, trust: Option<Json>,
                                  flags: NonceFlags, w: World)
    requires HasTier2(s.rules) && CallRules(s, agent, trust, flags, w).None?
    ensures var decision := PolicyStage(s, mode, agent, trust, flags, w);
            && (decision.Pass? <==> !Strict(mode) && !Offline.AnyStops(s.rules, w.order, w.cart))
            && (forall i: nat | Offline.FirstStop(s.rules, w.order, w.cart, i) ::
                  decision == match Offline.VerdictOf(s.rules[i], w.order, w.cart)
                              case Blocked(code) => Block(Rule(code))
                              case _ => Block(Uncaught))
  {
    hide HasTier2, Offline.RunRule, Offline.Dispatch;
    Offline.EvaluateClearIff(s.rules, w.order, w.cart);
    forall i: nat | Offline.FirstStop(s.rules, w.order, w.cart, i)
      ensures Offline.Evaluate(s.rules, w.order, w.cart) == Offline.VerdictOf(s.rules[i], w.order, w.cart) != Offline.Clear
    {
      Offline.EvaluateIsFirstMatch(s.rules, w.order, w.cart, i);
    }
  }

  /** `self.x_trusteed_agent_token or context token`. */
  function TokenOf(field: AgentToken, w: World): AgentToken {
    if field != NO_TOKEN then field else w.contextToken
  }

  /** `_trusteed_cel_enforce` for the record `id` with the given token field and amount text. */
  function RecordGate(libs: Libs, cache: NonceCache, id: int, field: AgentToken, amount: Text, w: World)
    : (Decision, NonceCache)
  {
    var mode := FallbackMode(w.snapshot);
    if w.snapshot.None? then (ApplyFallback(mode), cache)
    else
      var s, token := w.snapshot.value, TokenOf(field, w);
      if s.killSwitch then (Block(KillSwitch), cache)
      else if token == NO_TOKEN then (PolicyStage(s, mode, None, None, NoFlags, w), cache)
      else
        var (outcome, cache') := Verify(libs, cache, VerifyCall(libs, s, w, token, PrintInt(id), amount));
        (AfterVerify(s, mode, outcome, w), cache')
  }

  function AfterVerify(s: Snapshot, mode: Text, outcome: Outcome, w: World): Decision {
    match outcome
    case Raised => ApplyFallback(mode)
    case Rejected => Block(R001)
    case Accepted(ident) =>
      match ConsumeWithFailureMode(ident, Creds(s, w), mode, w.backend)
      case Refused(why) => Block(why)
      case Through(flags) => PolicyStage(s, mode, Some(ident.agentId), ident.trustScore, flags, w)
  }

  /** `_trusteed_cel_enforce_vals`: the gate of a create that arrives confirmed. */
  function ValsGate(libs: Libs, cache: NonceCache, field: AgentToken, amount: Text, w: World): (Decision, NonceCache) {
    var mode := FallbackMode(w.snapshot);
    if w.snapshot.None? then (ApplyFallback(mode), cache)
    else
      var s, token := w.snapshot.value, TokenOf(field, w);
      if s.killSwitch then (Block(KillSwitch), cache)
      else if token == NO_TOKEN then (ApplyFallback(mode), cache)
      else
        var (outcome, cache') := Verify(libs, cache, VerifyCall(libs, s, w, token, Chars("pending"), amount));
        (match outcome
         case Raised => ApplyFallback(mode)
         case Rejected => Block(R001)
         case Accepted(ident) => Pass(Some(ident.agentId), NoFlags), cache')
  }

  // ---------------------------------------------------------------- kill switch

  /** The emergency stop blocks in every mode, on both gates; a missing snapshot never does. */
  lemma KillSwitchBlocksAlways(libs: Libs, cache: NonceCache, id: int, field: AgentToken, amount: Text, w: World)
    ensures w.snapshot.Some? && w.snapshot.value.killSwitch ==>
              RecordGate(libs, cache, id, field, amount, w) == (Block(KillSwitch), cache) &&
              ValsGate(libs, cache, field, amount, w) == (Block(KillSwitch), cache)
    ensures w.snapshot.None? ==>
              RecordGate(libs, cache, id, field, amount, w) == (Pass(None, NoFlags), cache) &&
              ValsGate(libs, cache, field, amount, w) == (Pass(None, NoFlags), cache)
  {
    assert Chars("balanced")[0] != Chars("strict")[0];
  }

  // ---------------------------------------------------------- two fallback modes

  /** The same world under another configured mode. */
  function InMode(w: World, mode: Text): World {
    match w.snapshot
    case None => w
    case Some(s) => w.(snapshot := Some(s.(fallbackMode := Some(mode))))
  }

  /** The run leaned on the fallback mode: the verifier raised, the nonce stage could not
      vouch for freshness, or rules were needed and the rule service did not answer. */
  predicate Degraded(libs: Libs, cache: NonceCache, id: int, field: AgentToken, amount: Text, w: World) {
    && w.snapshot.Some? && !w.snapshot.value.killSwitch
    && var s, token := w.snapshot.value, TokenOf(field, w);
       if token == NO_TOKEN then RulesDown(s, None, None, NoFlags, w)
       else
         var outcome := Verify(libs, cache, VerifyCall(libs, s, w, token, PrintInt(id), amount)).0;
         match outcome
         case Raised => true
         case Rejected => false
         case Accepted(ident) =>
           ConsumeWithFailureMode(ident, Creds(s, w), Chars("balanced"), w.backend) != Through(NoFlags)
           || RulesDown(s, Some(ident.agentId), ident.trustScore, NoFlags, w)
  }

  predicate RulesDown(s: Snapshot, agent: Option<Text>, trust: Option<Json>, flags: NonceFlags, w: World) {
    HasTier2(s.rules) && CallRules(s, agent, trust, flags, w).None?
  }

  lemma PolicyInModes(s: Snapshot, s': Snapshot, strict: Text, lax: Text, agent: Option<Text>,
                      trust: Option<Json>, flags: NonceFlags, w: World, w': World)
    requires Strict(strict) && !Strict(lax)
    requires s'.rules == s.rules && w' == w.(snapshot := w'.snapshot)
    requires s'.merchantId == s.merchantId && s'.installationId == s.installationId && s'.hmacSecret == s.hmacSecret
    ensures PolicyStage(s, strict, agent, trust, flags, w).Pass? <==>
              PolicyStage(s', lax, agent, trust, flags, w').Pass? && !RulesDown(s, agent, trust, flags, w)
  {
  }

  /** On one order and one set of answers, the strict gate passes exactly when a non-strict
      gate passes without having leaned on its mode. In particular relaxing strict never
      turns a pass into a block. */
  lemma StrictPassesIff(libs: Libs, cache: NonceCache, id: int, field: AgentToken, amount: Text, w: World,
                        strict: Text, lax: Text)
    requires w.snapshot.Some? && Strict(strict) && !Strict(lax)
    ensures RecordGate(libs, cache, id, field, amount, InMode(w, strict)).0.Pass? <==>
              RecordGate(libs, cache, id, field, amount, InMode(w, lax)).0.Pass? &&
              !Degraded(libs, cache, id, field, amount, w)
    ensures RecordGate(libs, cache, id, field, amount, InMode(w, strict)).1
         == RecordGate(libs, cache, id, field, amount, InMode(w, lax)).1
  {
    hide Verify, Tier2, Offline.Evaluate, IntentJson, Chars;
    var s := w.snapshot.value;
    var ws, wl := InMode(w, strict), InMode(w, lax);
    var token := TokenOf(field, w);
    if !s.killSwitch {
      if token == NO_TOKEN {
        PolicyInModes(s.(fallbackMode := Some(strict)), s.(fallbackMode := Some(lax)), strict, lax,
                      None, None, NoFlags, ws, wl);
      } else {
        var call := VerifyCall(libs, s, w, token, PrintInt(id), amount);
        var outcome := Verify(libs, cache, call).0;
        assert call == VerifyCall(libs, ws.snapshot.value, ws, token, PrintInt(id), amount);
        assert call == VerifyCall(libs, wl.snapshot.value, wl, token, PrintInt(id), amount);
        if outcome.Accepted? {
          PolicyInModes(s.(fallbackMode := Some(strict)), s.(fallbackMode := Some(lax)), strict, lax,
                        Some(outcome.id.agentId), outcome.id.trustScore, NoFlags, ws, wl);
          ConsumeInModes(outcome.id, Creds(s, w), strict, lax, w.backend);
        }
      }
    }
  }

  lemma ConsumeInModes(ident: Identity, c: Credentials, strict: Text, lax: Text, answer: Answer)
    requires Strict(strict) && !Strict(lax)
    ensures ConsumeWithFailureMode(ident, c, lax, answer) == ConsumeWithFailureMode(ident, c, Chars("balanced"), answer)
    ensures ConsumeWithFailureMode(ident, c, lax, answer) in {Through(NoFlags), Through(ReplayFlags), Through(UnavailableFlags), Refused(Uncaught)}
    ensures ConsumeWithFailureMode(ident, c, strict, answer) == Through(NoFlags) <==>
            ConsumeWithFailureMode(ident, c, lax, answer) == Through(NoFlags)
    ensures ConsumeWithFailureMode(ident, c, strict, answer).Through? ==>
            ConsumeWithFailureMode(ident, c, strict, answer) == Through(NoFlags)
  {
    assert Chars("balanced")[0] != Chars("strict")[0];
  }

  lemma ConsumeLaxModesAgree(ident: Identity, c: Credentials, m: Text, m': Text, answer: Answer)
    requires !Strict(m) && !Strict(m')
    ensures ConsumeWithFailureMode(ident, c, m, answer) == ConsumeWithFailureMode(ident, c, m', answer)
  {
    hide ConsumeNonce;
  }

  lemma PolicyLaxModesAgree(s: Snapshot, m: Text, m': Text, agent: Option<Text>, trust: Option<Json>, flags: NonceFlags, w: World)
    requires w.snapshot.Some? && !Strict(m) && !Strict(m')
    ensures PolicyStage(s.(fallbackMode := Some(m)), m, agent, trust, flags, InMode(w, m))
         == PolicyStage(s.(fallbackMode := Some(m')), m', agent, trust, flags, InMode(w, m'))
  {
    hide HasTier2, Offline.Evaluate;
  }

  lemma RecordLaxModesAgree(libs: Libs, cache: NonceCache, id: int, field: AgentToken, amount: Text, w: World, m: Text, m': Text)
    requires w.snapshot.Some? && !Strict(m) && !Strict(m')
    ensures RecordGate(libs, cache, id, field, amount, InMode(w, m)) == RecordGate(libs, cache, id, field, amount, InMode(w, m'))
  {
    hide Verify, IntentHash, DidResolver, Strict, PolicyStage, ConsumeWithFailureMode, PrintInt;
    var s, token := w.snapshot.value, TokenOf(field, w);
    SameResolver(s, m, m');
    if token == NO_TOKEN {
      PolicyLaxModesAgree(s, m, m', None, None, NoFlags, w);
    } else {
      var outcome := Verify(libs, cache, VerifyCall(libs, s.(fallbackMode := Some(m)), InMode(w, m), token, PrintInt(id), amount)).0;
      if outcome.Accepted? {
        var ident := outcome.id;
        ConsumeLaxModesAgree(ident, Creds(s, w), m, m', w.backend);
        var stage := ConsumeWithFailureMode(ident, Creds(s, w), m, w.backend);
        if stage.Through? {
          PolicyLaxModesAgree(s, m, m', Some(ident.agentId), ident.trustScore, stage.flags, w);
        }
      }
    }
  }

  lemma CreateLaxModesAgree(libs: Libs, cache: NonceCache, field: AgentToken, amount: Text, w: World, m: Text, m': Text)
    requires w.snapshot.Some? && !Strict(m) && !Strict(m')
    ensures ValsGate(libs, cache, field, amount, InMode(w, m)) == ValsGate(libs, cache, field, amount, InMode(w, m'))
  {
    hide Verify, IntentHash, DidResolver, Chars;
    SameResolver(w.snapshot.value, m, m');
  }

  lemma SameResolver(s: Snapshot, m: Text, m': Text)
    ensures DidResolver(s.(fallbackMode := Some(m))) == DidResolver(s.(fallbackMode := Some(m')))
  {
  }

  /** All non-strict modes are one mode. */
  lemma LaxModesAgree(libs: Libs, cache: NonceCache, id: int, field: AgentToken, amount: Text, w: World, m: Text, m': Text)
    requires !Strict(m) && !Strict(m')
    ensures RecordGate(libs, cache, id, field, amount, InMode(w, m)) == RecordGate(libs, cache, id, field, amount, InMode(w, m'))
    ensures ValsGate(libs, cache, field, amount, InMode(w, m)) == ValsGate(libs, cache, field, amount, InMode(w, m'))
  {
    hide RecordGate, ValsGate, Strict;
    if w.snapshot.Some? {
      RecordLaxModesAgree(libs, cache, id, field, amount, w, m, m');
      CreateLaxModesAgree(libs, cache, field, amount, w, m, m');
    }
  }

  /** The create gate: strict passes exactly when lax does and a token was there and checked. */
  lemma StrictCreatePassesIff(libs: Libs, cache: NonceCache, field: AgentToken, amount: Text, w: World,
                              strict: Text, lax: Text)
    requires w.snapshot.Some? && Strict(strict) && !Strict(lax)
    ensures ValsGate(libs, cache, field, amount, InMode(w, strict)).0.Pass? <==>
              ValsGate(libs, cache, field, amount, InMode(w, lax)).0.Pass? && TokenOf(field, w) != NO_TOKEN &&
              !Verify(libs, cache, VerifyCall(libs, w.snapshot.value, w, TokenOf(field, w), Chars("pending"), amount)).0.Raised?
  {
    hide Verify, IntentJson;
    var ws, wl := InMode(w, strict), InMode(w, lax);
    var token := TokenOf(field, w);
    var call := VerifyCall(libs, w.snapshot.value, w, token, Chars("pending"), amount);
    assert call == VerifyCall(libs, ws.snapshot.value, ws, token, Chars("pending"), amount);
    assert call == VerifyCall(libs, wl.snapshot.value, wl, token, Chars("pending"), amount);
  }

  // --------------------------------------------------------- what a pass means

  /** The call a gate makes for the record `id`, or for a create. */
  function RecordCall(libs: Libs, id: int, field: AgentToken, amount: Text, w: World): Call
    requires w.snapshot.Some?
  {
    VerifyCall(libs, w.snapshot.value, w, TokenOf(field, w), PrintInt(id), amount)
  }

  function CreateCall(libs: Libs, field: AgentToken, amount: Text, w: World): Call
    requires w.snapshot.Some?
  {
    VerifyCall(libs, w.snapshot.value, w, TokenOf(field, w), Chars("pending"), amount)
  }

  /** What a gate that passed with this call, in this mode, had checked. Of a token that is no
      text, nothing, and then the mode was not strict. Of a text always signature, audience and
      merchant; window and intent exactly when converting the claims did not overflow; and all
      of it, issuer and a non-empty identity included, unless the token is one on which the
      verifier can raise, and then again the mode was not strict. */
  ghost predicate Vouched(libs: Libs, call: Call, mode: Text) {
    && (call.jws.Jws? ==> SignedForMerchant(libs, call))
    && (TokenChecks(libs, call) <==> !RaisesEarly(libs, call))
    && if CanRaise(libs, call.jws) then !Strict(mode)
       else AfterNonce(libs, call.jws).Accepted? && Attested(libs, call, AfterNonce(libs, call.jws).id)
  }

  /** The decision names the attested agent, or nobody after an exception. */
  ghost predicate Checked(libs: Libs, call: Call, mode: Text, decision: Decision) {
    && Vouched(libs, call, mode) && decision.Pass?
    && if CanRaise(libs, call.jws) then decision == Pass(None, NoFlags)
       else decision.agent == Some(AfterNonce(libs, call.jws).id.agentId)
  }

  lemma OutcomeMeans(libs: Libs, cache: NonceCache, call: Call)
    ensures var outcome := Verify(libs, cache, call).0;
            && (outcome.Accepted? ==> Attested(libs, call, outcome.id) && outcome == AfterNonce(libs, call.jws))
            && (outcome.Accepted? ==> !CanRaise(libs, call.jws))
            && (!outcome.Rejected? && call.jws.Jws? ==> SignedForMerchant(libs, call))
            && (!outcome.Rejected? ==> (TokenChecks(libs, call) <==> !RaisesEarly(libs, call)))
            && (outcome.Raised? ==> CanRaise(libs, call.jws))
  {
    AcceptedIff(libs, cache, call);
    ChecksExclude(libs, call);
    hide NonceText, AfterNonce, ClaimsHold, ClaimsOverflow, CanRaise, Nonce, IssuerIsKeyDid, Jti, Encodable;
    if Verify(libs, cache, call).0.Raised? { RaisesOnlyIfCanRaise(libs, cache, call); }
    if Verify(libs, cache, call).0.Accepted? { AcceptedCannotRaise(libs, cache, call); }
  }

  /** Soundness of the record gate. */
  lemma PassMeansChecked(libs: Libs, cache: NonceCache, id: int, field: AgentToken, amount: Text, w: World)
    requires w.snapshot.Some? && TokenOf(field, w) != NO_TOKEN
    requires RecordGate(libs, cache, id, field, amount, w).0.Pass?
    ensures !w.snapshot.value.killSwitch
    ensures Checked(libs, RecordCall(libs, id, field, amount, w), FallbackMode(w.snapshot),
                    RecordGate(libs, cache, id, field, amount, w).0)
  {
    hide IntentHash, IntentJson, TokenChecks, SignedForMerchant, Overflows, CanRaise, Verify, Attested, NonceText, AfterNonce, Offline.Evaluate, Tier2;
    OutcomeMeans(libs, cache, RecordCall(libs, id, field, amount, w));
  }

  /** Soundness of the create gate: the same, under the order id "pending". */
  lemma ValsPassMeansChecked(libs: Libs, cache: NonceCache, field: AgentToken, amount: Text, w: World)
    requires w.snapshot.Some? && TokenOf(field, w) != NO_TOKEN
    requires ValsGate(libs, cache, field, amount, w).0.Pass?
    ensures !w.snapshot.value.killSwitch
    ensures Checked(libs, CreateCall(libs, field, amount, w), FallbackMode(w.snapshot),
                    ValsGate(libs, cache, field, amount, w).0)
  {
    hide IntentHash, IntentJson, TokenChecks, SignedForMerchant, Overflows, CanRaise, Verify, Attested, NonceText, AfterNonce;
    OutcomeMeans(libs, cache, CreateCall(libs, field, amount, w));
  }

  /** The create gate asks nobody but the worker's own cache whether a token is fresh: once a
      token has passed it on one cache, it passes on another exactly when its nonce is not
      alive there. A worker that has not seen it lets it through again, strict or not. */
  lemma CreatePassesAgainIff(libs: Libs, cache: NonceCache, cache': NonceCache, field: AgentToken, amount: Text, w: World)
    requires w.snapshot.Some? && TokenOf(field, w) != NO_TOKEN
    requires ValsGate(libs, cache, field, amount, w).0.Pass? && ValsGate(libs, cache, field, amount, w).0.agent.Some?
    ensures ValsGate(libs, cache', field, amount, w).0.Pass? <==>
            Fresh(libs, cache', CreateCall(libs, field, amount, w))
    ensures ValsGate(libs, map[], field, amount, w).0.Pass?
  {
    var call := CreateCall(libs, field, amount, w);
    hide IntentHash, IntentJson, CanRaise, Verify, ReachesNonce, Attested, NonceText, AfterNonce, Encodable, Overflows;
    AcceptedIff(libs, cache, call);
    AcceptedCannotRaise(libs, cache, call);
    AcceptedIff(libs, cache', call);
    AcceptedIff(libs, map[], call);
    if Verify(libs, cache', call).0.Raised? { RaisesOnlyIfCanRaise(libs, cache', call); }
  }

  /** In particular a token of another merchant passes neither gate, in any mode. */
  lemma OtherMerchantNeverPasses(libs: Libs, cache: NonceCache, id: int, field: AgentToken, amount: Text, w: World)
    requires w.snapshot.Some? && Parse(libs, TokenOf(field, w)).Some? && TokenOf(field, w) != NO_TOKEN
    requires Get(Parse(libs, TokenOf(field, w)).value.payload, Chars("merchantId")) != Some(Str(w.snapshot.value.merchantId))
    ensures RecordGate(libs, cache, id, field, amount, w).0.Block?
    ensures ValsGate(libs, cache, field, amount, w).0.Block?
  {
    hide RecordGate, ValsGate, TokenChecks, Overflows, CanRaise, Attested, AfterNonce, HeaderHolds, SignatureHolds;
    if RecordGate(libs, cache, id, field, amount, w).0.Pass? { PassMeansChecked(libs, cache, id, field, amount, w); }
    if ValsGate(libs, cache, field, amount, w).0.Pass? { ValsPassMeansChecked(libs, cache, field, amount, w); }
  }

  /** In strict mode a pass with a token is backed by a 200 of the backend. */
  lemma StrictPassIsFresh(libs: Libs, cache: NonceCache, id: int, field: AgentToken, amount: Text, w: World)
    requires w.snapshot.Some? && TokenOf(field, w) != NO_TOKEN && Strict(FallbackMode(w.snapshot))
    requires RecordGate(libs, cache, id, field, amount, w).0.Pass?
    ensures w.backend == Status(200) && Contacts(Creds(w.snapshot.value, w))
    ensures RecordGate(libs, cache, id, field, amount, w).0.flags == NoFlags
  {
    hide IntentHash, TokenChecks, RaisesEarly, SignedForMerchant, CanRaise, AfterNonce, Verify, DidResolver, PrintInt, Offline.Evaluate, HasTier2, CallRules, Contacts, Writable;
    OutcomeMeans(libs, cache, RecordCall(libs, id, field, amount, w));
  }

  // ------------------------------------------------------------------- binding

  /** The intent a token was minted for. */
  ghost predicate MintedFor(libs: Libs, token: AgentToken, orderId: Text, merchantId: Text, amount: Text) {
    && Parse(libs, token).Some?
    && GetOr(Parse(libs, token).value.payload, Chars("checkoutIntentHash"), Str([]))
       == Str(libs.sha256(IntentJson(orderId, merchantId, amount)))
  }

  /** These two intents have one hash only if they have one text. */
  ghost predicate NoClash(libs: Libs, o: Text, m: Text, a: Text, o': Text, m': Text, a': Text) {
    libs.sha256(IntentJson(o, m, a)) == libs.sha256(IntentJson(o', m', a')) ==>
      IntentJson(o, m, a) == IntentJson(o', m', a')
  }

  ghost predicate Apart(libs: Libs, o: Text, m: Text, a: Text, o': Text, m': Text, a': Text) {
    && (Utf16(o) != Utf16(o') || Utf16(m) != Utf16(m') || Utf16(a) != Utf16(a'))
    && NoClash(libs, o, m, a, o', m', a')
  }

  /** Presented for another intent than its own, a token is refused, unless its claims
      overflow, which raises before the intent is looked at. */
  lemma OtherIntentIsRefused(libs: Libs, cache: NonceCache, token: AgentToken, o: Text, m: Text, a: Text, call: Call,
                             o': Text, m': Text, a': Text)
    requires MintedFor(libs, token, o, m, a) && Apart(libs, o, m, a, o', m', a')
    requires call.jws == token && call.intentHash == libs.sha256(IntentJson(o', m', a'))
    ensures !TokenChecks(libs, call)
    ensures Verify(libs, cache, call) == (if Overflows(libs, call) then Raised else Rejected, cache)
    ensures call.jws.Jws?
  {
    hide IntentHash, IntentJson, Utf16, SignedForMerchant, ForMerchant, WindowHolds, Overflows;
    SameIntentIff(o, m, a, o', m', a');
    assert libs.sha256(IntentJson(o, m, a)) != call.intentHash;
    assert SignedForMerchant(libs, call) ==> !ClaimsHold(Parse(libs, token).value.payload, call);
  }

  /** Outside strict mode and without kill switch, a gate that catches an exception passes. */
  predicate Lenient(w: World) {
    w.snapshot.Some? && !w.snapshot.value.killSwitch && !Strict(FallbackMode(w.snapshot))
  }

  /** The one way past the intent of a text: an overflow the gate catches. */
  predicate SlipsThrough(libs: Libs, call: Call, w: World) {
    Lenient(w) && Overflows(libs, call)
  }

  /** A token whose claims overflow passes both gates outside strict mode, whatever the order,
      and so does a token that is no text, with nothing about it checked and no rule asked.
      Either leaves the cache alone. */
  lemma EarlyExceptionPasses(libs: Libs, cache: NonceCache, id: int, field: AgentToken, amount: Text, w: World)
    requires w.snapshot.Some? && TokenOf(field, w) != NO_TOKEN
    ensures RaisesEarly(libs, RecordCall(libs, id, field, amount, w)) ==>
              (if Lenient(w) then RecordGate(libs, cache, id, field, amount, w) == (Pass(None, NoFlags), cache)
               else RecordGate(libs, cache, id, field, amount, w).0.Block?)
    ensures RaisesEarly(libs, CreateCall(libs, field, amount, w)) ==>
              (if Lenient(w) then ValsGate(libs, cache, field, amount, w) == (Pass(None, NoFlags), cache)
               else ValsGate(libs, cache, field, amount, w).0.Block?)
  {
    hide IntentHash, RaisesEarly, ReachesNonce, AfterNonce, Offline.Evaluate, Tier2;
  }

  /** The record gate and a token minted for another intent. */
  lemma OtherIntentPassesRecordIff(libs: Libs, cache: NonceCache, field: AgentToken, o: Text, m: Text, a: Text,
                                   id': int, amount': Text, w: World)
    requires w.snapshot.Some? && TokenOf(field, w) != NO_TOKEN && MintedFor(libs, TokenOf(field, w), o, m, a)
    requires Apart(libs, o, m, a, PrintInt(id'), w.snapshot.value.merchantId, amount')
    ensures RecordGate(libs, cache, id', field, amount', w).0.Pass? <==>
            SlipsThrough(libs, RecordCall(libs, id', field, amount', w), w)
  {
    hide IntentHash, IntentJson, Verify, MintedFor, Overflows, TokenChecks, Apart, Offline.Evaluate;
    OtherIntentIsRefused(libs, cache, TokenOf(field, w), o, m, a, RecordCall(libs, id', field, amount', w),
                         PrintInt(id'), w.snapshot.value.merchantId, amount');
  }

  /** The create gate and a token minted for another intent. */
  lemma OtherIntentPassesCreateIff(libs: Libs, cache: NonceCache, field: AgentToken, o: Text, m: Text, a: Text,
                                   amount': Text, w: World)
    requires w.snapshot.Some? && TokenOf(field, w) != NO_TOKEN && MintedFor(libs, TokenOf(field, w), o, m, a)
    requires Apart(libs, o, m, a, Chars("pending"), w.snapshot.value.merchantId, amount')
    ensures ValsGate(libs, cache, field, amount', w).0.Pass? <==>
            SlipsThrough(libs, CreateCall(libs, field, amount', w), w)
  {
    hide IntentHash, IntentJson, Verify, MintedFor, Overflows, TokenChecks, Apart;
    OtherIntentIsRefused(libs, cache, TokenOf(field, w), o, m, a, CreateCall(libs, field, amount', w),
                         Chars("pending"), w.snapshot.value.merchantId, amount');
  }

  /** Order ids written in decimal are equal as UTF-16 only when they are equal. */
  lemma OrderIdText(i: int, t: Text)
    requires Encodable(t) && Utf16(PrintInt(i)) == Utf16(t)
    ensures PrintInt(i) == t
  {
    forall p | 0 <= p < |PrintInt(i)| ensures !IsSurrogate(PrintInt(i)[p]) {
      PrintIntChars(i, PrintInt(i)[p]);
    }
    Utf16Injective(PrintInt(i), t);
  }

  lemma PrintIntEncodable(i: int)
    ensures Encodable(PrintInt(i))
  {
    forall p | 0 <= p < |PrintInt(i)| ensures !IsSurrogate(PrintInt(i)[p]) {
      PrintIntChars(i, PrintInt(i)[p]);
    }
  }

  lemma IdsApart(id: int, id': int)
    ensures id != id' ==> Utf16(PrintInt(id)) != Utf16(PrintInt(id'))
    ensures Utf16(PrintInt(id)) != Utf16(Chars("pending"))
  {
    hide Utf16, Encodable, PrintInt;
    PrintIntEncodable(id');
    if Utf16(PrintInt(id)) == Utf16(PrintInt(id')) {
      OrderIdText(id, PrintInt(id'));
      PrintIntInjective(id, id');
    }
    if Utf16(PrintInt(id)) == Utf16(Chars("pending")) {
      PendingEncodable();
      OrderIdText(id, Chars("pending"));
      PrintIntChars(id, Chars("pending")[0]);
    }
  }

  lemma PendingEncodable()
    ensures Encodable(Chars("pending"))
  {
  }

  /** A token minted for one record passes the gate of another exactly when its claims
      overflow, outside strict mode. */
  lemma TokenBoundToRecord(libs: Libs, cache: NonceCache, field: AgentToken, id: int, m: Text, a: Text,
                           id': int, amount': Text, w: World)
    requires w.snapshot.Some? && TokenOf(field, w) != NO_TOKEN && id != id' && MintedFor(libs, TokenOf(field, w), PrintInt(id), m, a)
    requires NoClash(libs, PrintInt(id), m, a, PrintInt(id'), w.snapshot.value.merchantId, amount')
    ensures RecordGate(libs, cache, id', field, amount', w).0.Pass? <==>
            SlipsThrough(libs, RecordCall(libs, id', field, amount', w), w)
  {
    hide RecordGate, MintedFor, IntentJson, Utf16, NoClash, SlipsThrough, RecordCall, PrintInt, Chars;
    IdsApart(id, id');
    OtherIntentPassesRecordIff(libs, cache, field, PrintInt(id), m, a, id', amount', w);
  }

  /** A token minted for a record and the create gate: the same exception and no other. */
  lemma RecordTokenBoundAgainstCreate(libs: Libs, cache: NonceCache, field: AgentToken, id: int, m: Text, a: Text,
                                      amount': Text, w: World)
    requires w.snapshot.Some? && TokenOf(field, w) != NO_TOKEN && MintedFor(libs, TokenOf(field, w), PrintInt(id), m, a)
    requires NoClash(libs, PrintInt(id), m, a, Chars("pending"), w.snapshot.value.merchantId, amount')
    ensures ValsGate(libs, cache, field, amount', w).0.Pass? <==>
            SlipsThrough(libs, CreateCall(libs, field, amount', w), w)
  {
    hide ValsGate, MintedFor, IntentJson, Utf16, NoClash, SlipsThrough, CreateCall, PrintInt, Chars;
    IdsApart(id, id);
    OtherIntentPassesCreateIff(libs, cache, field, PrintInt(id), m, a, amount', w);
  }

  /** A token minted for a create and the gate of a record: likewise. */
  lemma CreateTokenBoundAgainstRecord(libs: Libs, cache: NonceCache, field: AgentToken, m: Text, a: Text,
                                      id: int, amount: Text, w: World)
    requires w.snapshot.Some? && TokenOf(field, w) != NO_TOKEN && MintedFor(libs, TokenOf(field, w), Chars("pending"), m, a)
    requires NoClash(libs, Chars("pending"), m, a, PrintInt(id), w.snapshot.value.merchantId, amount)
    ensures RecordGate(libs, cache, id, field, amount, w).0.Pass? <==>
            SlipsThrough(libs, RecordCall(libs, id, field, amount, w), w)
  {
    hide RecordGate, MintedFor, IntentJson, Utf16, NoClash, SlipsThrough, RecordCall, PrintInt, Chars;
    IdsApart(id, id);
    OtherIntentPassesRecordIff(libs, cache, field, Chars("pending"), m, a, id, amount, w);
  }

  // --------------------------------------------------------------- rule codes

  /** With the rule service out of reach outside strict mode, the rules block an order exactly
      when some rule stops it, by a hit or an exception, and, besides, some enabled rule has a
      whole code of tier 2. */
  lemma OutageBlocksIff(s: Snapshot, mode: Text, agent: Option<Text>, trust: Option<Json>, flags: NonceFlags, w: World)
    requires !Strict(mode) && CallRules(s, agent, trust, flags, w).None?
    ensures PolicyStage(s, mode, agent, trust, flags, w).Block? <==>
            HasTier2(s.rules) && Offline.AnyStops(s.rules, w.order, w.cart)
  {
    hide Tier2, Offline.Stops;
    if HasTier2(s.rules) { OutageAppliesOfflineRules(s, mode, agent, trust, flags, w); }
  }

  /** What the policy rules have to say for an order to pass: no enabled rule is of tier 2, or
      the service answered without a block, or it is out of reach, the mode is not strict, and
      no offline rule stops the order. */
  predicate PolicyHolds(s: Snapshot, mode: Text, agent: Option<Text>, trust: Option<Json>, flags: NonceFlags, w: World) {
    HasTier2(s.rules) ==>
      match CallRules(s, agent, trust, flags, w)
      case Some(verdict) => verdict.Layer2? && !verdict.block
      case None => !Strict(mode) && !Offline.AnyStops(s.rules, w.order, w.cart)
  }

  /** The record gate and the policy rules: exactly when an order passes. Without a token the
      rules decide alone; with a verified one they decide, knowing its agent, after the nonce
      stage; after an exception of the verifier they are not consulted, and only the mode
      decides. */
  lemma RecordGatePassesIff(libs: Libs, cache: NonceCache, id: int, field: AgentToken, amount: Text, w: World)
    requires w.snapshot.Some?
    ensures var s, mode := w.snapshot.value, FallbackMode(w.snapshot);
            RecordGate(libs, cache, id, field, amount, w).0.Pass? <==>
              && !s.killSwitch
              && if TokenOf(field, w) == NO_TOKEN then PolicyHolds(s, mode, None, None, NoFlags, w)
                 else match Verify(libs, cache, RecordCall(libs, id, field, amount, w)).0 {
                   case Rejected => false
                   case Raised => !Strict(mode)
                   case Accepted(ident) =>
                     var stage := ConsumeWithFailureMode(ident, Creds(s, w), mode, w.backend);
                     stage.Through? && PolicyHolds(s, mode, Some(ident.agentId), ident.trustScore, stage.flags, w)
                 }
  {
    hide Verify, IntentHash, DidResolver, Strict, HasTier2, CallRules, ConsumeWithFailureMode, Offline.Evaluate, Offline.Stops, Offline.AnyStops;
    Offline.EvaluateClearIff(w.snapshot.value.rules, w.order, w.cart);
  }

  predicate Suffixed(code: Text) {
    DOT in code
  }

  /** The tier-2 test compares whole codes while the offline evaluator strips the suffix: a
      snapshot whose enabled rules all carry a suffix consults neither. */
  lemma SuffixedCodesSkipRules(s: Snapshot, mode: Text, agent: Option<Text>, trust: Option<Json>,
                               flags: NonceFlags, w: World)
    requires forall i | 0 <= i < |s.rules| && s.rules[i].Rule? && s.rules[i].enabled :: Suffixed(s.rules[i].code)
    ensures PolicyStage(s, mode, agent, trust, flags, w) == Pass(agent, flags)
  {
    forall i | 0 <= i < |s.rules| && s.rules[i].Rule? && s.rules[i].enabled ensures !Tier2(s.rules[i].code) {
      var code := s.rules[i].code;
      if Tier2(code) {
        var p :| 0 <= p < |code| && code[p] == DOT;
        assert false;
      }
    }
  }
}
