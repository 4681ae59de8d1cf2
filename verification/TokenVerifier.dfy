/**
 models/enforcement_token_verifier.py: the checks on an agent token and the in-process
 nonce cache. The library calls it makes are the functions of `Libs`.
 */
module TokenVerifier {
  import opened Texts
  import opened Decimals
  import opened Json
  import opened Base64Url

  /** base64 and JSON decoding (None where they raise), Ed25519 and SHA-256. */
  datatype Libs = Libs(
    decode: Text -> Option<Bytes>,
    loads: Bytes -> Option<Json>,
    validSignature: (Bytes, Text, Bytes) -> bool,
    sha256: Text -> Text)

  const MAX_WINDOW := 330.0
  const CLOCK_SKEW := 30.0
  const NONCE_TTL := 300.0
  const HASH: CodePoint := 0x23

  /** nonce key -> expiry */
  type NonceCache = map<Text, real>
  /** agent DID -> the `x` member of its key */
  type Resolver = map<Text, Json>

  /** What stands in the place of a token: a text, empty where there is none, or any other
      truthy value, which an ORM context or an RPC client may hold, with the text a character
      field would store it as. */
  datatype AgentToken = Jws(text: Text) | NoText(text: Text)

  const NO_TOKEN := Jws([])

  datatype Call = Call(now: real, jws: AgentToken, intentHash: Text, merchantId: Text, resolver: Resolver)

  datatype Identity = Identity(agentId: Text, trustScore: Option<Json>, platform: Option<Json>,
                               jti: Text, exp: int)
  datatype Outcome =
    | Accepted(id: Identity)
    | Rejected
    | Raised       // an exception left the function

  // ----------------------------------------------------------- specification

  datatype Token = Token(header: Entries, payload: Entries, signingInput: Text, signature: Text)

  function Parse(libs: Libs, jws: AgentToken): Option<Token> {
    var parts := Split(jws.text, DOT);
    if jws.NoText? || |parts| != 3 then None
    else match (Load(libs, parts[0]), Load(libs, parts[1]))
         case (Some(Dict(h)), Some(Dict(p))) => Some(Token(h, p, parts[0] + [DOT] + parts[1], parts[2]))
         case _ => None
  }

  function Load(libs: Libs, part: Text): Option<Json> {
    match libs.decode(part)
    case Some(bytes) => libs.loads(bytes)
    case None => None
  }

  /** The DID in front of the fragment of `kid`. */
  function AgentDid(header: Entries): Option<Text> {
    match GetOr(header, Chars("kid"), Str([]))
    case Str(kid) => if Before(kid, HASH) == [] then None else Some(Before(kid, HASH))
    case _ => None
  }

  function KeyFor(libs: Libs, resolver: Resolver, did: Text): Option<Bytes> {
    if did in resolver && resolver[did].Str? && resolver[did].s != [] then
      match libs.decode(resolver[did].s)
      case Some(k) => if |k| == 32 then Some(k) else None
      case None => None
    else None
  }

  predicate HeaderHolds(header: Entries) {
    && Get(header, Chars("alg")) == Some(Str(Chars("EdDSA")))
    && Get(header, Chars("typ")) == Some(Str(Chars("trusteed-agent-token+jwt")))
    && AgentDid(header).Some?
  }

  predicate SignatureHolds(libs: Libs, resolver: Resolver, tok: Token) {
    && AgentDid(tok.header).Some?
    && var key := KeyFor(libs, resolver, AgentDid(tok.header).value);
       var sig := libs.decode(tok.signature);
       key.Some? && sig.Some? && libs.validSignature(key.value, tok.signingInput, sig.value)
  }

  /** What `float(raw)` makes of a claim: an integer no float is near raises. */
  datatype Claim = NotNumeric | TooLarge | Finite(x: real) | NoNumber(f: Special)

  const TWO_194 := 0x4_000000000000000000000000000000000000000000000000

  /** 2^1024 - 2^970: from here on an integer rounds to no finite float. */
  const FLOAT_LIMIT := 0x3F_FFFF_FFFF_FFFF * TWO_194 * TWO_194 * TWO_194 * TWO_194 * TWO_194

  /** A numeric claim: int or float, not bool; absent counts as 0. */
  function NumericClaim(payload: Entries, name: Text): Claim {
    match GetOr(payload, name, Int(0))
    case Int(n) => if -FLOAT_LIMIT < n < FLOAT_LIMIT then Finite(n as real) else TooLarge
    case Float(d) => Finite(RealOf(d))
    case NonFinite(f) => NoNumber(f)
    case _ => NotNumeric
  }

  /** `exp + 30 < now`; nan compares false. */
  predicate Expired(exp: Claim, now: real) {
    match exp
    case Finite(x) => x + CLOCK_SKEW < now
    case NoNumber(f) => f == NegInfinity
    case _ => false
  }

  /** `exp - iat > 330`; a difference that is nan compares false. */
  predicate TooWide(exp: Claim, iat: Claim) {
    match (exp, iat)
    case (Finite(x), Finite(y)) => x - y > MAX_WINDOW
    case (Finite(_), NoNumber(g)) => g == NegInfinity
    case (NoNumber(f), Finite(_)) => f == Infinity
    case (NoNumber(f), NoNumber(g)) => f == Infinity && g == NegInfinity
    case _ => false
  }

  predicate Numeric(claim: Claim) {
    claim.Finite? || claim.NoNumber?
  }

  predicate WindowHolds(payload: Entries, now: real) {
    var exp, iat := NumericClaim(payload, Chars("exp")), NumericClaim(payload, Chars("iat"));
    Numeric(exp) && Numeric(iat) && !Expired(exp, now) && !TooWide(exp, iat)
  }

  predicate ForMerchant(payload: Entries, merchantId: Text) {
    && Get(payload, Chars("aud")) == Some(Str(Chars("trusteed")))
    && Get(payload, Chars("merchantId")) == Some(Str(merchantId))
  }

  predicate ClaimsHold(payload: Entries, call: Call) {
    && ForMerchant(payload, call.merchantId)
    && WindowHolds(payload, call.now)
    && GetOr(payload, Chars("checkoutIntentHash"), Str([])) == Str(call.intentHash)
  }

  /** Both claims are numbers and converting one of them raises. */
  predicate ClaimsOverflow(payload: Entries) {
    var exp, iat := NumericClaim(payload, Chars("exp")), NumericClaim(payload, Chars("iat"));
    !exp.NotNumeric? && !iat.NotNumeric? && (exp.TooLarge? || iat.TooLarge?)
  }

  /** Well-formed, signed under a resolved key, for this audience and merchant. */
  predicate SignedForMerchant(libs: Libs, call: Call) {
    var tok := Parse(libs, call.jws);
    && tok.Some?
    && HeaderHolds(tok.value.header)
    && SignatureHolds(libs, call.resolver, tok.value)
    && ForMerchant(tok.value.payload, call.merchantId)
  }

  /** Steps 1 to 5 on one call. */
  predicate TokenChecks(libs: Libs, call: Call) {
    SignedForMerchant(libs, call) && ClaimsHold(Parse(libs, call.jws).value.payload, call)
  }

  /** The call raises in step 5, after audience and merchant. */
  predicate Overflows(libs: Libs, call: Call) {
    SignedForMerchant(libs, call) && ClaimsOverflow(Parse(libs, call.jws).value.payload)
  }

  /** The call raises before window and intent hash are looked at: there, or at the very start,
      where only a text can be split. */
  predicate RaisesEarly(libs: Libs, call: Call) {
    call.jws.NoText? || Overflows(libs, call)
  }

  function Nonce(payload: Entries): Option<Text> {
    match GetOr(payload, Chars("nonce"), Str([]))
    case Str(n) => if 16 <= |n| <= 64 then Some(n) else None
    case _ => None
  }

  /** Every check before the nonce cache is consulted. */
  predicate ReachesNonce(libs: Libs, call: Call) {
    TokenChecks(libs, call) && Nonce(Parse(libs, call.jws).value.payload).Some?
  }

  /** The text whose hash is the cache key: DID and nonce, concatenated. */
  function NonceText(libs: Libs, jws: AgentToken): Text {
    match Parse(libs, jws)
    case Some(tok) =>
      (match AgentDid(tok.header) case Some(d) => d case None => []) +
      (match Nonce(tok.payload) case Some(n) => n case None => [])
    case None => []
  }

  /** `str(payload.get("jti", ""))` where it can match the jti pattern at all: texts and
      integers. The text of any other value has a character outside the pattern or is
      shorter than 16 characters. */
  function Jti(payload: Entries): Option<Text> {
    var t := match GetOr(payload, Chars("jti"), Str([]))
             case Str(s) => s
             case Int(n) => PrintInt(n)
             case _ => [];
    if AllSymbols(t) && 16 <= |t| <= 128 then Some(t) else None
  }

  /** `int(x)`: towards zero. */
  function Truncate(x: real): int {
    if x >= 0.0 then x.Floor else -((-x).Floor)
  }

  predicate IssuerIsKeyDid(tok: Token) {
    AgentDid(tok.header).Some? &&
    GetOr(tok.payload, Chars("iss"), Str([])) == Str(AgentDid(tok.header).value)
  }

  /** What follows the nonce check: issuer binding, jti format, and `int(exp)`, which raises
      unless `exp` is finite. */
  function AfterNonce(libs: Libs, jws: AgentToken): Outcome {
    match Parse(libs, jws)
    case None => Rejected
    case Some(tok) =>
      if IssuerIsKeyDid(tok) && Jti(tok.payload).Some? then
        match NumericClaim(tok.payload, Chars("exp"))
        case Finite(x) =>
          Accepted(Identity(AgentDid(tok.header).value,
                            Get(tok.payload, Chars("agentTrustScore")),
                            Get(tok.payload, Chars("platform")),
                            Jti(tok.payload).value, Truncate(x)))
        case _ => Raised
      else Rejected
  }

  function Evicted(cache: NonceCache, now: real): NonceCache {
    cache - (set k | k in cache && cache[k] <= now)
  }

  /** Outcome and new cache of one call. Hashing encodes the text as UTF-8, which raises
      on a lone surrogate. */
  function Verify(libs: Libs, cache: NonceCache, call: Call): (Outcome, NonceCache) {
    if RaisesEarly(libs, call) then (Raised, cache)
    else if !ReachesNonce(libs, call) then (Rejected, cache)
    else
      var live := Evicted(cache, call.now);
      var text := NonceText(libs, call.jws);
      if !Encodable(text) then (Raised, live)
      else if libs.sha256(text) in live then (Rejected, live)
      else (AfterNonce(libs, call.jws), live[libs.sha256(text) := call.now + NONCE_TTL])
  }

  // ---------------------------------------------------------- implementation

  class Verifier {
    var nonceCache: NonceCache

    constructor ()
      ensures nonceCache == map[]
    {
      nonceCache := map[];
    }

    /** `_evict_expired_nonces`. */
    method EvictExpired(now: real)
      modifies this
      ensures nonceCache == Evicted(old(nonceCache), now)
    {
      var expired := set k | k in nonceCache && nonceCache[k] <= now;
      while expired != {}
        invariant expired <= nonceCache.Keys
        invariant forall k :: k in nonceCache ==> k in old(nonceCache) && nonceCache[k] == old(nonceCache)[k]
        invariant forall k :: k in old(nonceCache) && old(nonceCache)[k] > now ==> k in nonceCache
        invariant forall k :: k in nonceCache && nonceCache[k] <= now ==> k in expired
        invariant forall k :: k in expired ==> nonceCache[k] <= now
        decreases |expired|
      {
        var k :| k in expired;
        nonceCache := nonceCache - {k};
        expired := expired - {k};
      }
    }

    /** `verify_agent_token`: steps 1 to 5 leave the cache alone, step 6 and the checks
        behind it do not. */
    method VerifyAgentToken(libs: Libs, call: Call) returns (outcome: Outcome)
      modifies this
      ensures (outcome, nonceCache) == Verify(libs, old(nonceCache), call)
    {
      hide Chars, Get, GetOr, TokenChecks, RaisesEarly, Truncate, Before, NumericClaim;
      ChecksExclude(libs, call);
      var checked := CheckToken(libs, call);
      if checked.Raises? { return Raised; }
      if checked.Fails? { return Rejected; }
      var (agentDid, payload, exp) := checked.value;

      // Step 6: nonce.
      var nonce := GetOr(payload, Chars("nonce"), Str([]));
      if !nonce.Str? || !(16 <= |nonce.s| <= 64) { return Rejected; }
      EvictExpired(call.now);
      if !Encodable(agentDid + nonce.s) { return Raised; }
      var nonceKey := Sha256Hex(libs, agentDid + nonce.s);
      if nonceKey in nonceCache && nonceCache[nonceKey] > call.now { return Rejected; }
      nonceCache := nonceCache[nonceKey := call.now + NONCE_TTL];

      // Issuer binding and jti format.
      var iss := GetOr(payload, Chars("iss"), Str([]));
      if !Truthy(iss) || iss != Str(agentDid) { return Rejected; }
      var jti := Jti(payload);
      if jti.None? { return Rejected; }
      if !exp.Finite? { return Raised; }
      return Accepted(Identity(iss.s, Get(payload, Chars("agentTrustScore")),
                               Get(payload, Chars("platform")), jti.value, Truncate(exp.x)));
    }
  }

  /** `hashlib.sha256(t.encode("utf-8")).hexdigest()`: encoding demands well-formed text. */
  function Sha256Hex(libs: Libs, t: Text): Text
    requires Encodable(t)
  {
    libs.sha256(t)
  }

  /** A statement sequence that may return early or raise. */
  datatype Checked<T> = Holds(value: T) | Fails | Raises

  method CheckToken(libs: Libs, call: Call) returns (r: Checked<(Text, Entries, Claim)>)
    ensures r.Holds? <==> TokenChecks(libs, call)
    ensures r.Raises? <==> RaisesEarly(libs, call)
    ensures r.Holds? ==>
              var tok := Parse(libs, call.jws).value;
              && Parse(libs, call.jws).Some?
              && Some(r.value.0) == AgentDid(tok.header) && r.value.1 == tok.payload
              && r.value.2 == NumericClaim(tok.payload, Chars("exp"))
  {
    hide Chars, Get, GetOr, NumericClaim, ClaimsHold, ClaimsOverflow, ForMerchant, Split;
    // Step 1: three parts, both JSON objects.
    if call.jws.NoText? { return Raises; }
    var parts := Split(call.jws.text, DOT);
    if |parts| != 3 { return Fails; }
    var headerJson, payloadJson := Load(libs, parts[0]), Load(libs, parts[1]);
    if headerJson.None? || payloadJson.None? { return Fails; }
    if !headerJson.value.Dict? || !payloadJson.value.Dict? { return Fails; }
    var header, payload := headerJson.value.entries, payloadJson.value.entries;

    // Step 2: header claims.
    if Get(header, Chars("alg")) != Some(Str(Chars("EdDSA"))) { return Fails; }
    if Get(header, Chars("typ")) != Some(Str(Chars("trusteed-agent-token+jwt"))) { return Fails; }
    var kid := GetOr(header, Chars("kid"), Str([]));
    if !kid.Str? { return Fails; }
    var agentDid := if HASH in kid.s then Before(kid.s, HASH) else kid.s;
    if agentDid == [] { return Fails; }

    // Step 3: key resolution.
    if agentDid !in call.resolver || !Truthy(call.resolver[agentDid]) { return Fails; }
    var x := call.resolver[agentDid];
    if !x.Str? { return Fails; }
    var key := libs.decode(x.s);
    if key.None? || |key.value| != 32 { return Fails; }

    // Step 4: signature.
    var sig := libs.decode(parts[2]);
    if sig.None? || !libs.validSignature(key.value, parts[0] + [DOT] + parts[1], sig.value) {
      return Fails;
    }

    // Step 5: claims.
    var claims := CheckClaims(payload, call);
    if claims.Raises? { return Raises; }
    if claims.Fails? { return Fails; }
    return Holds((agentDid, payload, claims.value));
  }

  method CheckClaims(payload: Entries, call: Call) returns (r: Checked<Claim>)
    ensures r.Holds? <==> ClaimsHold(payload, call)
    ensures r.Raises? <==> ForMerchant(payload, call.merchantId) && ClaimsOverflow(payload)
    ensures ClaimsHold(payload, call) ==> ForMerchant(payload, call.merchantId)
    ensures r.Holds? ==> r.value == NumericClaim(payload, Chars("exp"))
  {
    hide Chars, Get, GetOr, NumericClaim;
    if Get(payload, Chars("aud")) != Some(Str(Chars("trusteed"))) { return Fails; }
    if Get(payload, Chars("merchantId")) != Some(Str(call.merchantId)) { return Fails; }
    var exp := NumericClaim(payload, Chars("exp"));
    if exp.NotNumeric? { return Fails; }
    var iat := NumericClaim(payload, Chars("iat"));
    if iat.NotNumeric? { return Fails; }
    if exp.TooLarge? || iat.TooLarge? { return Raises; }
    if Expired(exp, call.now) { return Fails; }
    if TooWide(exp, iat) { return Fails; }
    if GetOr(payload, Chars("checkoutIntentHash"), Str([])) != Str(call.intentHash) { return Fails; }
    return Holds(exp);
  }

  lemma ChecksExclude(libs: Libs, call: Call)
    ensures !(TokenChecks(libs, call) && RaisesEarly(libs, call))
    ensures !(ReachesNonce(libs, call) && RaisesEarly(libs, call))
  {
  }

  // ---------------------------------------------------------------- soundness

  /** Everything an accepted token has shown. */
  ghost predicate Attested(libs: Libs, call: Call, id: Identity) {
    var tok := Parse(libs, call.jws);
    && TokenChecks(libs, call)
    && Nonce(tok.value.payload).Some?
    && Some(id.agentId) == AgentDid(tok.value.header)
    && GetOr(tok.value.payload, Chars("iss"), Str([])) == Str(id.agentId)
    && id.agentId != [] && id.jti != [] && |id.jti| >= 16
  }

  predicate Fresh(libs: Libs, cache: NonceCache, call: Call) {
    var k := libs.sha256(NonceText(libs, call.jws));
    k in cache ==> cache[k] <= call.now
  }

  /** A call is accepted exactly when every check holds, its nonce is fresh, and issuer, jti
      and `exp` yield an identity. */
  lemma AcceptedIff(libs: Libs, cache: NonceCache, call: Call)
    ensures var (o, _) := Verify(libs, cache, call);
            && (o.Accepted? ==> Attested(libs, call, o.id))
            && (o.Accepted? <==>
                  && ReachesNonce(libs, call)
                  && AfterNonce(libs, call.jws).Accepted?
                  && Encodable(NonceText(libs, call.jws))
                  && Fresh(libs, cache, call))
  {
    ChecksExclude(libs, call);
  }

  /** When an exception leaves the function. */
  lemma RaisedIff(libs: Libs, cache: NonceCache, call: Call)
    ensures Verify(libs, cache, call).0.Raised? <==>
            || RaisesEarly(libs, call)
            || (ReachesNonce(libs, call) && !Encodable(NonceText(libs, call.jws)))
            || (ReachesNonce(libs, call) && Fresh(libs, cache, call) && AfterNonce(libs, call.jws).Raised?)
  {
    ChecksExclude(libs, call);
  }

  /** The token alone decides whether a call with it can raise. */
  predicate CanRaise(libs: Libs, jws: AgentToken) {
    match Parse(libs, jws)
    case None => jws.NoText?
    case Some(tok) =>
      || ClaimsOverflow(tok.payload)
      || !Encodable(NonceText(libs, jws))
      || AfterNonce(libs, jws).Raised?
  }

  lemma RaisesOnlyIfCanRaise(libs: Libs, cache: NonceCache, call: Call)
    requires Verify(libs, cache, call).0.Raised?
    ensures CanRaise(libs, call.jws)
    ensures call.jws.Jws? ==> SignedForMerchant(libs, call)
    ensures !RaisesEarly(libs, call) ==> TokenChecks(libs, call)
  {
    hide NonceText, AfterNonce, Chars, Get, GetOr, ClaimsHold, ClaimsOverflow, Encodable, ForMerchant;
  }

  /** No token is one that some call accepts and that can raise. */
  lemma AcceptedCannotRaise(libs: Libs, cache: NonceCache, call: Call)
    requires Verify(libs, cache, call).0.Accepted?
    ensures !CanRaise(libs, call.jws)
  {
    ChecksExclude(libs, call);
    hide NonceText, Chars, Get, GetOr, Encodable, IssuerIsKeyDid, Jti, ForMerchant, Expired, TooWide;
  }
}
