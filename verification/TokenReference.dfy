/**
 What an accepted token is, said once more without the verifier's own vocabulary: in terms of
 the three parts, the members of header and payload, and the library calls on them.
 */
module TokenReference {
  import opened Texts
  import opened Decimals
  import opened Json
  import opened Base64Url
  import opened TokenVerifier

  /** The part decodes to a JSON object with these members. */
  predicate HoldsObject(libs: Libs, part: Text, es: Entries) {
    libs.decode(part).Some? && libs.loads(libs.decode(part).value) == Some(Dict(es))
  }

  /** Three parts: an object for a header, an object for a payload, and a signature of the first
      two under the 32-byte key that the resolver lists for what stands before `#` in `kid`;
      meant for this audience and this merchant. */
  predicate Signed(libs: Libs, call: Call, h: Entries, p: Entries, kid: Text, key: Bytes, sig: Bytes) {
    && call.jws.Jws?
    && var parts, did := Split(call.jws.text, '.' as int), Before(kid, '#' as int);
       && |parts| == 3 && HoldsObject(libs, parts[0], h) && HoldsObject(libs, parts[1], p)
       && Get(h, Chars("alg")) == Some(Str(Chars("EdDSA")))
       && Get(h, Chars("typ")) == Some(Str(Chars("trusteed-agent-token+jwt")))
       && Get(h, Chars("kid")) == Some(Str(kid)) && did != []
       && did in call.resolver && call.resolver[did].Str? && call.resolver[did].s != []
       && libs.decode(call.resolver[did].s) == Some(key) && |key| == 32
       && libs.decode(parts[2]) == Some(sig)
       && libs.validSignature(key, parts[0] + ['.' as int] + parts[1], sig)
       && Get(p, Chars("aud")) == Some(Str(Chars("trusteed")))
       && Get(p, Chars("merchantId")) == Some(Str(call.merchantId))
  }

  /** The value of a time claim; an absent one is 0. None for what is no finite float. */
  function TimeOf(p: Entries, name: Text): Option<real> {
    match Get(p, name)
    case None => Some(0.0)
    case Some(Int(n)) => if Abs(n) < FLOAT_LIMIT then Some(n as real) else None
    case Some(Float(d)) => Some(d.m as real / Pow10(d.k) as real)
    case _ => None
  }

  /** `exp` is finite and at most 30 s past, and at most 330 s after `iat`, unless `iat` is nan
      or Infinity. */
  predicate InTime(p: Entries, now: real) {
    var exp, iat := TimeOf(p, Chars("exp")), TimeOf(p, Chars("iat"));
    && exp.Some? && now <= exp.value + 30.0
    && if iat.Some? then exp.value - iat.value <= 330.0
       else Get(p, Chars("iat")) in {Some(NonFinite(NaN)), Some(NonFinite(Infinity))}
  }

  /** The text of the `jti`, written as a text or an integer: letters, digits, dash and
      underscore, 16 to 128 of them. */
  predicate HasJti(p: Entries, jti: Text) {
    && match Get(p, Chars("jti")) {
         case Some(Str(t)) => t == jti
         case Some(Int(n)) => PrintInt(n) == jti
         case _ => false
       }
    && 16 <= |jti| <= 128
    && forall i | 0 <= i < |jti| :: IsDigit(jti[i]) || 'a' as int <= jti[i] <= 'z' as int ||
                                    'A' as int <= jti[i] <= 'Z' as int || jti[i] == '-' as int || jti[i] == '_' as int
  }

  /** Besides the signature: in time, for this intent, with a nonce of 16 to 64 characters that
      can be hashed, issued by the DID of the key, and with a `jti`. */
  predicate Genuine(libs: Libs, call: Call, h: Entries, p: Entries, kid: Text, key: Bytes, sig: Bytes, nonce: Text, jti: Text) {
    && Signed(libs, call, h, p, kid, key, sig)
    && InTime(p, call.now)
    && (Get(p, Chars("checkoutIntentHash")) == Some(Str(call.intentHash)) ||
        (Get(p, Chars("checkoutIntentHash")) == None && call.intentHash == []))
    && Get(p, Chars("nonce")) == Some(Str(nonce)) && 16 <= |nonce| <= 64 && Encodable(Before(kid, '#' as int) + nonce)
    && Get(p, Chars("iss")) == Some(Str(Before(kid, '#' as int)))
    && HasJti(p, jti)
  }

  // ------------------------------------------------------------- both directions

  lemma PartsOfSigned(libs: Libs, call: Call, h: Entries, p: Entries, kid: Text, key: Bytes, sig: Bytes)
    requires Signed(libs, call, h, p, kid, key, sig)
    ensures SignedForMerchant(libs, call)
    ensures var parts := Split(call.jws.text, DOT);
            Parse(libs, call.jws) == Some(Token(h, p, parts[0] + [DOT] + parts[1], parts[2]))
    ensures AgentDid(h) == Some(Before(kid, HASH))
  {
    hide Split, Get, Chars, Before;
  }

  lemma Explicitly(libs: Libs, call: Call) returns (h: Entries, p: Entries, kid: Text, key: Bytes, sig: Bytes)
    requires SignedForMerchant(libs, call)
    ensures Signed(libs, call, h, p, kid, key, sig)
  {
    hide Split, Chars, Before;
    var tok := Parse(libs, call.jws).value;
    h, p := tok.header, tok.payload;
    kid := Get(h, Chars("kid")).value.s;
    key := KeyFor(libs, call.resolver, Before(kid, HASH)).value;
    sig := libs.decode(tok.signature).value;
  }

  /** A text that the verifier does not reject is signed: what is not is refused, never passed
      on and never an exception. */
  lemma NotRejectedIsSigned(libs: Libs, cache: NonceCache, call: Call)
    returns (h: Entries, p: Entries, kid: Text, key: Bytes, sig: Bytes)
    requires call.jws.Jws? && !Verify(libs, cache, call).0.Rejected?
    ensures Signed(libs, call, h, p, kid, key, sig)
  {
    AcceptedIff(libs, cache, call);
    RaisedIff(libs, cache, call);
    hide Verify, SignedForMerchant, ClaimsHold, ClaimsOverflow, NonceText, AfterNonce, Nonce, Encodable;
    h, p, kid, key, sig := Explicitly(libs, call);
  }

  lemma TimesAgree(p: Entries, now: real)
    ensures NumericClaim(p, Chars("exp")).Finite? && WindowHolds(p, now) <==> InTime(p, now)
    ensures InTime(p, now) ==> NumericClaim(p, Chars("exp")) == Finite(TimeOf(p, Chars("exp")).value)
  {
    TimeAgrees(p, Chars("exp"));
    TimeAgrees(p, Chars("iat"));
    hide NumericClaim, TimeOf, Chars, Get;
  }

  lemma TimeAgrees(p: Entries, name: Text)
    ensures NumericClaim(p, name).Finite? <==> TimeOf(p, name).Some?
    ensures TimeOf(p, name).Some? ==> NumericClaim(p, name) == Finite(TimeOf(p, name).value)
    ensures forall f :: NumericClaim(p, name) == NoNumber(f) <==> Get(p, name) == Some(NonFinite(f))
  {
  }

  lemma JtiAgrees(p: Entries, jti: Text)
    ensures Jti(p) == Some(jti) <==> HasJti(p, jti)
  {
    hide Get, Chars, PrintInt;
  }

  lemma NonceAgrees(p: Entries, nonce: Text)
    ensures Nonce(p) == Some(nonce) <==> Get(p, Chars("nonce")) == Some(Str(nonce)) && 16 <= |nonce| <= 64
  {
    hide Get, Chars;
  }

  /** The verifier's own reading of the parts of a signed token. */
  lemma ReadingsOfSigned(libs: Libs, call: Call, h: Entries, p: Entries, kid: Text, key: Bytes, sig: Bytes)
    requires Signed(libs, call, h, p, kid, key, sig)
    ensures TokenChecks(libs, call) <==>
              WindowHolds(p, call.now) && GetOr(p, Chars("checkoutIntentHash"), Str([])) == Str(call.intentHash)
    ensures ReachesNonce(libs, call) <==> TokenChecks(libs, call) && Nonce(p).Some?
    ensures Nonce(p).Some? ==> NonceText(libs, call.jws) == Before(kid, HASH) + Nonce(p).value
    ensures AfterNonce(libs, call.jws).Accepted? <==>
              GetOr(p, Chars("iss"), Str([])) == Str(Before(kid, HASH)) && Jti(p).Some? && NumericClaim(p, Chars("exp")).Finite?
    ensures ForMerchant(p, call.merchantId) && Before(kid, HASH) != []
  {
    PartsOfSigned(libs, call, h, p, kid, key, sig);
    hide Parse, WindowHolds, NumericClaim, Jti, Nonce, Chars, Get, GetOr, Before, AgentDid, Truncate, HeaderHolds, SignatureHolds;
  }

  /** The remaining checks on a token whose parts are known. */
  lemma ChecksAgree(libs: Libs, call: Call, h: Entries, p: Entries, kid: Text, key: Bytes, sig: Bytes, nonce: Text, jti: Text)
    requires Signed(libs, call, h, p, kid, key, sig)
    ensures Genuine(libs, call, h, p, kid, key, sig, nonce, jti) <==>
              && ReachesNonce(libs, call) && Nonce(p) == Some(nonce)
              && NonceText(libs, call.jws) == Before(kid, HASH) + nonce && Encodable(NonceText(libs, call.jws))
              && AfterNonce(libs, call.jws).Accepted? && Jti(p) == Some(jti)
  {
    hide Signed, TokenChecks, ReachesNonce, NonceText, AfterNonce, InTime, WindowHolds, NumericClaim, HasJti, Jti, Nonce, Chars, Get, Before, Encodable;
    ReadingsOfSigned(libs, call, h, p, kid, key, sig);
    TimesAgree(p, call.now);
    NonceAgrees(p, nonce);
    JtiAgrees(p, jti);
  }

  /** Nothing is recorded under the hash of this text, or it has expired. */
  predicate NotAlive(libs: Libs, cache: NonceCache, text: Text, now: real) {
    libs.sha256(text) !in cache || cache[libs.sha256(text)] <= now
  }

  /** Soundness, with everything an accepted token has shown. */
  lemma AcceptedIsGenuine(libs: Libs, cache: NonceCache, call: Call)
    returns (h: Entries, p: Entries, kid: Text, key: Bytes, sig: Bytes, nonce: Text, jti: Text)
    requires Verify(libs, cache, call).0.Accepted?
    ensures Genuine(libs, call, h, p, kid, key, sig, nonce, jti)
    ensures NotAlive(libs, cache, Before(kid, '#' as int) + nonce, call.now)
  {
    AcceptedIff(libs, cache, call);
    hide Verify, SignedForMerchant, ClaimsHold, NonceText, AfterNonce, Nonce, Encodable, Genuine, Signed;
    h, p, kid, key, sig := Explicitly(libs, call);
    PartsOfSigned(libs, call, h, p, kid, key, sig);
    ReadingsOfSigned(libs, call, h, p, kid, key, sig);
    nonce, jti := Nonce(p).value, Jti(p).value;
    ChecksAgree(libs, call, h, p, kid, key, sig, nonce, jti);
  }

  /** Completeness: a genuine token whose nonce is not alive is accepted, as this identity. Of
      the cache everything expired is dropped and the nonce recorded for 300 s. */
  lemma GenuineIsAccepted(libs: Libs, cache: NonceCache, call: Call, h: Entries, p: Entries, kid: Text, key: Bytes,
                          sig: Bytes, nonce: Text, jti: Text)
    requires Genuine(libs, call, h, p, kid, key, sig, nonce, jti)
    requires NotAlive(libs, cache, Before(kid, '#' as int) + nonce, call.now)
    ensures Verify(libs, cache, call).0 == Accepted(Identity(Before(kid, '#' as int), Get(p, Chars("agentTrustScore")),
              Get(p, Chars("platform")), jti, Truncate(TimeOf(p, Chars("exp")).value)))
    ensures var after, k := Verify(libs, cache, call).1, libs.sha256(Before(kid, '#' as int) + nonce);
            && k in after && after[k] == call.now + 300.0
            && forall x | x != k :: (x in after <==> x in cache && call.now < cache[x]) && (x in after ==> after[x] == cache[x])
  {
    ChecksAgree(libs, call, h, p, kid, key, sig, nonce, jti);
    AcceptedIff(libs, cache, call);
    ChecksExclude(libs, call);
    IdentityIs(libs, call, h, p, kid, key, sig, jti);
    hide RaisesEarly, ReachesNonce, NonceText, AfterNonce, Nonce, Encodable, Genuine, Signed, Jti;
  }

  lemma IdentityIs(libs: Libs, call: Call, h: Entries, p: Entries, kid: Text, key: Bytes, sig: Bytes, jti: Text)
    requires Signed(libs, call, h, p, kid, key, sig) && AfterNonce(libs, call.jws).Accepted? && Jti(p) == Some(jti)
    ensures AfterNonce(libs, call.jws) == Accepted(Identity(Before(kid, '#' as int), Get(p, Chars("agentTrustScore")),
              Get(p, Chars("platform")), jti, Truncate(TimeOf(p, Chars("exp")).value)))
  {
    PartsOfSigned(libs, call, h, p, kid, key, sig);
    TimeAgrees(p, Chars("exp"));
    hide Signed, SignedForMerchant, Parse, NumericClaim, TimeOf, Jti, Chars, Get, Before, AgentDid, Truncate;
  }

  /** `int(exp)` drops the fraction. */
  lemma TruncateDropsFraction(x: real)
    ensures (Truncate(x) as real <= x < Truncate(x) as real + 1.0 && x >= 0.0) ||
            (Truncate(x) as real - 1.0 < x <= Truncate(x) as real && x < 0.0)
  {
  }

  /** A text whose signature part does not verify over the first two, under the key listed for
      its DID, is rejected and leaves the cache alone. */
  lemma ForgedIsRejected(libs: Libs, cache: NonceCache, call: Call, h: Entries, kid: Text, key: Bytes, sig: Bytes)
    requires call.jws.Jws? && |Split(call.jws.text, '.' as int)| == 3
    requires var parts := Split(call.jws.text, '.' as int);
             && HoldsObject(libs, parts[0], h) && Get(h, Chars("kid")) == Some(Str(kid))
             && libs.decode(parts[2]) == Some(sig)
             && !libs.validSignature(key, parts[0] + ['.' as int] + parts[1], sig)
    requires Before(kid, '#' as int) in call.resolver ==>
               call.resolver[Before(kid, '#' as int)].Str? ==> libs.decode(call.resolver[Before(kid, '#' as int)].s) == Some(key)
    ensures Verify(libs, cache, call) == (Rejected, cache)
  {
    hide Split, Chars, NonceText, AfterNonce, ClaimsHold, ClaimsOverflow;
    if SignedForMerchant(libs, call) {
      var h', p', kid', key', sig' := Explicitly(libs, call);
      assert false;
    }
  }

  // ------------------------------------------------------------------- exceptions

  /** A claim that is a number to Python: absent, an integer, a float, nan or an infinity. */
  predicate IsNumeric(p: Entries, name: Text) {
    match Get(p, name)
    case None => true
    case Some(v) => v.Int? || v.Float? || v.NonFinite?
  }

  predicate BeyondFloats(p: Entries, name: Text) {
    Get(p, name).Some? && Get(p, name).value.Int? && !(-FLOAT_LIMIT < Get(p, name).value.n < FLOAT_LIMIT)
  }

  /** A signed text raises before window and intent are looked at exactly when both time claims
      are numbers and one of them is an integer beyond the floats. */
  lemma RaisesEarlyIff(libs: Libs, call: Call, h: Entries, p: Entries, kid: Text, key: Bytes, sig: Bytes)
    requires Signed(libs, call, h, p, kid, key, sig)
    ensures RaisesEarly(libs, call) <==>
              && IsNumeric(p, Chars("exp")) && IsNumeric(p, Chars("iat"))
              && (BeyondFloats(p, Chars("exp")) || BeyondFloats(p, Chars("iat")))
  {
    PartsOfSigned(libs, call, h, p, kid, key, sig);
    hide Signed, SignedForMerchant, Parse, Get, Chars, FLOAT_LIMIT;
  }

  function Pow2(n: nat): nat {
    if n == 0 then 1 else 2 * Pow2(n - 1)
  }

  lemma {:induction false} Pow2Add(a: nat, b: nat)
    ensures Pow2(a + b) == Pow2(a) * Pow2(b)
  {
    if a > 0 {
      Pow2Add(a - 1, b);
      Doubled(Pow2(a - 1), Pow2(b));
    }
  }

  lemma Doubled(x: nat, y: nat)
    ensures 2 * (x * y) == (2 * x) * y
  {
  }

  lemma Pow2Small()
    ensures Pow2(2) == 4 && Pow2(6) == 64 && Pow2(8) == 256
  {
  }

  lemma Pow2Known()
    ensures Pow2(54) == 0x40_0000_0000_0000 && Pow2(194) == TWO_194
  {
    hide Pow2;
    Pow2Small();
    Pow2Add(8, 8);
    Pow2Add(16, 16);
    Pow2Add(32, 16);
    Pow2Add(48, 6);
    Pow2Add(48, 48);
    Pow2Add(96, 96);
    Pow2Add(192, 2);
  }

  /** Where integers stop being floats: at 2^1024 - 2^970, half a step above the largest. */
  lemma FloatLimitIs()
    ensures FLOAT_LIMIT == Pow2(1024) - Pow2(970)
  {
    Pow2Known();
    hide Pow2, TWO_194;
    Pow2Add(194, 194);
    Pow2Add(388, 388);
    Pow2Add(776, 194);
    Pow2Add(54, 970);
    LimitProduct(TWO_194, Pow2(388), Pow2(776), Pow2(970));
  }

  lemma LimitProduct(t: nat, t2: nat, t4: nat, t5: nat)
    requires t2 == t * t && t4 == t2 * t2 && t5 == t4 * t
    ensures 0x3F_FFFF_FFFF_FFFF * t * t * t * t * t == 0x40_0000_0000_0000 * t5 - t5
  {
    assert t5 == t * t * t * t * t;
  }
}
