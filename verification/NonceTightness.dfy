/**
 The bounds of NonceHistory are attained: for every n, one token accepted n times by one
 worker, the first time as late as the bound allows.
 */
module NonceTightness {
  import opened Texts
  import opened KeySort
  import opened Json
  import opened Base64Url
  import opened TokenVerifier
  import opened NonceHistory

  const DID: Text := [0x64]
  const MERCHANT: Text := [0x6D]
  const NONCE: Text := Repeat(0x6E, 16)
  const JTI: Text := Repeat(0x6A, 16)
  const TOKEN := Jws([0x68] + [DOT] + [0x70] + [DOT] + [0x73])

  function Repeat(c: CodePoint, n: nat): (t: Text)
    ensures |t| == n && forall i | 0 <= i < n :: t[i] == c
  {
    seq(n, _ => c)
  }

  function Key32(): (b: Bytes)
    ensures |b| == 32
  {
    seq(32, _ => 0)
  }

  function Header(): Entries {
    [(Chars("alg"), Str(Chars("EdDSA"))), (Chars("typ"), Str(Chars("trusteed-agent-token+jwt"))), (Chars("kid"), Str(DID))]
  }

  /** A payload with these `exp` and `iat`, for the intent with this hash. */
  function Claims(exp: Json, iat: Json, intentHash: Text): Entries {
    [(Chars("aud"), Str(Chars("trusteed"))), (Chars("merchantId"), Str(MERCHANT)), (Chars("exp"), exp), (Chars("iat"), iat),
     (Chars("checkoutIntentHash"), Str(intentHash)), (Chars("nonce"), Str(NONCE)), (Chars("iss"), Str(DID)), (Chars("jti"), Str(JTI))]
  }

  /** A library in which the three parts of TOKEN decode to the header, these claims and a
      signature, and texts are their own hashes. */
  function Library(claims: Entries): Libs {
    Libs(t => if t == [0x68] then Some([1]) else if t == [0x70] then Some([2]) else Some(Key32()),
         b => if b == [1] then Some(Dict(Header())) else if b == [2] then Some(Dict(claims)) else None,
         (k, t, s) => true,
         t => t)
  }

  function KeyRing(): Resolver {
    map[DID := Str([0x78])]
  }

  function At(now: real): Call {
    Call(now, TOKEN, [], MERCHANT, KeyRing())
  }

  lemma HeaderReads()
    ensures Get(Header(), Chars("alg")) == Some(Str(Chars("EdDSA")))
    ensures Get(Header(), Chars("typ")) == Some(Str(Chars("trusteed-agent-token+jwt")))
    ensures Get(Header(), Chars("kid")) == Some(Str(DID))
  {
    var h := Header();
    assert h[0].0[0] != h[1].0[0] && h[0].0[0] != h[2].0[0] && h[1].0[0] != h[2].0[0];
    GetAt(h, 0);
    GetAt(h, 1);
    GetAt(h, 2);
  }

  lemma ClaimKeysDistinct(exp: Json, iat: Json, intentHash: Text)
    ensures DistinctKeys(Claims(exp, iat, intentHash))
  {
    var c := Claims(exp, iat, intentHash);
    assert |c[0].0| == 3 && |c[1].0| == 10 && |c[2].0| == 3 && |c[3].0| == 3;
    assert |c[4].0| == 18 && |c[5].0| == 5 && |c[6].0| == 3 && |c[7].0| == 3;
    assert c[0].0[0] == 0x61 && c[2].0[0] == 0x65 && c[7].0[0] == 0x6A;
    assert c[3].0[0] == 0x69 && c[6].0[0] == 0x69 && c[3].0[1] == 0x61 && c[6].0[1] == 0x73;
  }

  lemma ClaimsRead(exp: Json, iat: Json, intentHash: Text)
    ensures var c := Claims(exp, iat, intentHash);
            && Get(c, Chars("aud")) == Some(Str(Chars("trusteed")))
            && Get(c, Chars("merchantId")) == Some(Str(MERCHANT))
            && Get(c, Chars("exp")) == Some(exp) && Get(c, Chars("iat")) == Some(iat)
            && Get(c, Chars("checkoutIntentHash")) == Some(Str(intentHash))
            && Get(c, Chars("nonce")) == Some(Str(NONCE))
            && Get(c, Chars("iss")) == Some(Str(DID)) && Get(c, Chars("jti")) == Some(Str(JTI))
  {
    ClaimKeysDistinct(exp, iat, intentHash);
    var c := Claims(exp, iat, intentHash);
    hide Get, Chars, DistinctKeys;
    GetAt(c, 0);
    GetAt(c, 1);
    GetAt(c, 2);
    GetAt(c, 3);
    GetAt(c, 4);
    GetAt(c, 5);
    GetAt(c, 6);
    GetAt(c, 7);
  }

  lemma TokenParses(claims: Entries)
    ensures Parse(Library(claims), TOKEN) == Some(Token(Header(), claims, [0x68] + [DOT] + [0x70], [0x73]))
  {
    hide Header;
    ThreeParts([0x68], [0x70], [0x73]);
  }

  lemma Signed(claims: Entries)
    ensures HeaderHolds(Header()) && AgentDid(Header()) == Some(DID)
    ensures SignatureHolds(Library(claims), KeyRing(), Token(Header(), claims, [0x68] + [DOT] + [0x70], [0x73]))
  {
    HeaderReads();
    hide Get, Header;
    assert Before(DID, HASH) == DID;
    assert Library(claims).decode([0x78]) == Some(Key32());
    assert KeyFor(Library(claims), KeyRing(), DID).Some?;
  }

  /** Tokens that may be accepted: a finite `exp`, and an `iat` that is the latest the window
      allows or no number at all. */
  predicate Acceptable(exp: int, iat: Json) {
    && -FLOAT_LIMIT < exp < FLOAT_LIMIT
    && ((iat == Int(exp - 330) && -FLOAT_LIMIT < exp - 330) || iat == NonFinite(NaN))
  }

  lemma ChecksHold(exp: int, iat: Json, now: real)
    requires Acceptable(exp, iat) && now <= exp as real + CLOCK_SKEW
    ensures var libs := Library(Claims(Int(exp), iat, []));
            && ReachesNonce(libs, At(now))
            && AfterNonce(libs, TOKEN).Accepted? && NonceText(libs, TOKEN) == DID + NONCE
            && ExpiresAt(libs, TOKEN) == Finite(exp as real)
            && IssuedAt(libs, TOKEN) == (if iat.Int? then Finite((exp - 330) as real) else NoNumber(NaN))
  {
    var claims := Claims(Int(exp), iat, []);
    TokenParses(claims);
    ClaimsRead(Int(exp), iat, []);
    Signed(claims);
    hide Get, Chars, Header, Claims, Parse, AgentDid, SignatureHolds, HeaderHolds, FLOAT_LIMIT, Library;
    assert ClaimsHold(claims, At(now));
  }

  /** A call that passes every check and whose text is not alive in the cache is accepted. */
  lemma AcceptsFresh(libs: Libs, cache: NonceCache, call: Call, key: Text)
    requires ReachesNonce(libs, call) && Encodable(NonceText(libs, call.jws))
    requires AfterNonce(libs, call.jws).Accepted?
    requires key == libs.sha256(NonceText(libs, call.jws)) && (key in cache ==> cache[key] <= call.now)
    ensures Verify(libs, cache, call).0.Accepted?
    ensures Verify(libs, cache, call).1 == Evicted(cache, call.now)[key := call.now + NONCE_TTL]
  {
    hide ReachesNonce, RaisesEarly, TokenChecks, NonceText, AfterNonce, Encodable;
    ChecksExclude(libs, call);
  }

  /** One token, presented every 300 s. */
  predicate Every300(calls: seq<Call>, jws: AgentToken) {
    && (forall i | 0 <= i < |calls| :: calls[i].jws == jws)
    && (forall i | 0 < i < |calls| :: calls[i].now == calls[i - 1].now + NONCE_TTL)
  }

  /** While it passes every check it is accepted every time. */
  lemma {:induction false} AcceptedEvery300(libs: Libs, calls: seq<Call>, jws: AgentToken, n: nat)
    requires n <= |calls| && Every300(calls, jws)
    requires Encodable(NonceText(libs, jws)) && AfterNonce(libs, jws).Accepted?
    requires forall i | 0 <= i < |calls| :: ReachesNonce(libs, calls[i])
    ensures forall i | 0 <= i < n :: AcceptedAt(libs, calls, i, jws)
    ensures var key := libs.sha256(NonceText(libs, jws));
            var cache := Run(libs, calls[..n]);
            key in cache ==> n > 0 && cache[key] == calls[n - 1].now + NONCE_TTL
  {
    hide ReachesNonce, NonceText, AfterNonce, Encodable, Verify, Evicted;
    if n > 0 {
      AcceptedEvery300(libs, calls, jws, n - 1);
      assert calls[..n][..n - 1] == calls[..n - 1];
      AcceptsFresh(libs, Run(libs, calls[..n - 1]), calls[n - 1], libs.sha256(NonceText(libs, jws)));
    }
  }

  lemma KeyText()
    ensures Encodable(DID + NONCE)
  {
  }

  lemma {:induction false} Spaced(calls: seq<Call>)
    requires forall i | 0 < i < |calls| :: calls[i].now == calls[i - 1].now + NONCE_TTL
    ensures Monotone(calls)
  {
    if calls != [] {
      var n := |calls| - 1;
      Spaced(calls[..n]);
      if n > 0 {
        forall i | 0 <= i < n ensures calls[i].now <= calls[n].now {
          assert calls[..n][i].now <= calls[..n][n - 1].now;
        }
      }
    }
  }

  /** The token, presented n times every 300 s. */
  function Presented(n: nat, start: real): (calls: seq<Call>)
    ensures |calls| == n
  {
    seq(n, i => At(start + NONCE_TTL * i as real))
  }

  lemma PresentedEvery300(n: nat, start: real)
    ensures Every300(Presented(n, start), TOKEN) && Monotone(Presented(n, start))
    ensures forall i | 0 <= i < n :: Presented(n, start)[i] == At(start + NONCE_TTL * i as real)
    ensures forall i | 0 <= i < n :: Presented(n, start)[i].now <= start + NONCE_TTL * (n - 1) as real
  {
    var calls := Presented(n, start);
    forall i | 0 < i < n ensures calls[i].now == calls[i - 1].now + NONCE_TTL {
      assert NONCE_TTL * i as real == NONCE_TTL * (i - 1) as real + NONCE_TTL;
    }
    Spaced(calls);
    if n > 0 { assert calls[n - 1].now == start + NONCE_TTL * (n - 1) as real; }
  }

  /** When the first of n presentations every 300 s has to happen for the last to be in time. */
  function Start(n: nat, exp: int): real {
    exp as real + CLOCK_SKEW - NONCE_TTL * (n - 1) as real
  }

  lemma AllAccepted(n: nat, exp: int, iat: Json)
    requires Acceptable(exp, iat)
    ensures forall i: nat | i < n :: AcceptedAt(Library(Claims(Int(exp), iat, [])), Presented(n, Start(n, exp)), i, TOKEN)
  {
    var end := exp as real + CLOCK_SKEW;
    var libs, calls := Library(Claims(Int(exp), iat, [])), Presented(n, Start(n, exp));
    hide Library, Claims, NonceText, AfterNonce, Acceptable, ReachesNonce, ExpiresAt, IssuedAt, Encodable, Presented, AcceptedAt;
    KeyText();
    ChecksHold(exp, iat, end);
    PresentedEvery300(n, Start(n, exp));
    forall i | 0 <= i < n ensures ReachesNonce(libs, calls[i]) {
      ChecksHold(exp, iat, calls[i].now);
    }
    AcceptedEvery300(libs, calls, TOKEN, n);
  }

  /** For every n and every finite `exp`, a token accepted n times, the first time exactly
      300 (n - 1) s before the end of its life: with the latest legal `iat`, which attains
      the bound counted from `iat`, and with an `iat` of nan, where that bound is void. */
  lemma ManyAcceptances(n: nat, exp: int, iat: Json) returns (libs: Libs, calls: seq<Call>, jws: AgentToken)
    requires n > 0 && Acceptable(exp, iat)
    ensures Monotone(calls) && |calls| == n
    ensures forall i: nat | i < n :: AcceptedAt(libs, calls, i, jws)
    ensures ExpiresAt(libs, jws) == Finite(exp as real)
    ensures IssuedAt(libs, jws) == if iat.Int? then Finite((exp - 330) as real) else NoNumber(NaN)
    ensures calls[0].now == exp as real + CLOCK_SKEW - NONCE_TTL * (n - 1) as real
    ensures iat.Int? ==> calls[0].now == (exp - 330) as real + 360.0 - NONCE_TTL * (n - 1) as real
  {
    hide Library, Claims, NonceText, AfterNonce, Acceptable, ReachesNonce, ExpiresAt, IssuedAt, AcceptedAt, Presented;
    libs, jws, calls := Library(Claims(Int(exp), iat, [])), TOKEN, Presented(n, Start(n, exp));
    ChecksHold(exp, iat, exp as real + CLOCK_SKEW);
    PresentedEvery300(n, Start(n, exp));
    AllAccepted(n, exp, iat);
    assert calls[0].now == Start(n, exp) + NONCE_TTL * 0 as real;
  }
}
