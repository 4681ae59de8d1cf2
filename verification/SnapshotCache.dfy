/**
 models/enforcement_snapshot.py: pulling the signed rule snapshot through two caches, the
 snapshots by (merchant, company) and the verification keys by API base.
 */
module SnapshotCache {
  import opened Texts
  import opened Json
  import opened Base64Url
  import opened IntentText
  import opened TokenVerifier

  type Keys = map<Text, Bytes>
  datatype Owner = Owner(merchantId: Text, companyId: int)
  datatype Entry = Entry(jws: Text, expires: real)
  datatype Caches = Caches(snapshots: map<Owner, Entry>, jwks: map<Text, Keys>, jwksExpires: map<Text, real>)

  /** The answer to a JWKS request: nothing usable (no connection, not 200, not JSON), or a document. */
  datatype JwksAnswer = JwksFailed | JwksDocument(doc: Json)

  /** The answer to a snapshot request; `text` is the body stripped of white space. */
  datatype Response = NetworkError | Http(status: int, text: Text)

  /** Everything one pull meets. `trusted` is the SSRF guard's verdict, `until` the parser of
      ISO timestamps, and the two JWKS answers are used as far as requests are made. */
  datatype Pull = Pull(base: Text, owner: Owner, now: real, trusted: bool, response: Response,
                       until: Text -> Option<real>,
                       jwksNow: real, jwks: JwksAnswer, refreshNow: real, refresh: JwksAnswer)

  /** Threw: an exception left the function. */
  datatype Outcome = Payload(v: Json) | Nothing | Threw

  // ----------------------------------------------------------- specification

  /** What iterating over `data.get("keys", [])` visits; None where it raises. */
  function JwkItems(doc: Json): Option<seq<Json>> {
    if !doc.Dict? then None
    else match GetOr(doc.entries, Chars("keys"), List([]))
         case List(items) => Some(items)
         case Str(s) => if s == [] then Some([]) else None
         case Dict(es) => if es == [] then Some([]) else None
         case _ => None
  }

  /** The key one JWK contributes, if any. */
  function UsableKey(libs: Libs, jwk: Entries): Option<(Text, Bytes)> {
    match (Get(jwk, Chars("kid")), Get(jwk, Chars("x")))
    case (Some(Str(kid)), Some(Str(x))) =>
      if Get(jwk, Chars("kty")) == Some(Str(Chars("OKP"))) && Get(jwk, Chars("crv")) == Some(Str(Chars("Ed25519"))) &&
         kid != [] && x != [] && libs.decode(x).Some? && |libs.decode(x).value| == 32
      then Some((kid, libs.decode(x).value)) else None
    case _ => None
  }

  /** The keys of a list of JWKs, later ones winning; None when an item is no object. */
  function KeysOf(libs: Libs, items: seq<Json>): Option<Keys> {
    if items == [] then Some(map[])
    else match KeysOf(libs, items[..|items| - 1])
         case None => None
         case Some(keys) =>
           var last := items[|items| - 1];
           if !last.Dict? then None
           else match UsableKey(libs, last.entries)
                case Some((kid, raw)) => Some(keys[kid := raw])
                case None => Some(keys)
  }

  function CachedKeys(c: Caches, base: Text): Keys {
    if base in c.jwks then c.jwks[base] else map[]
  }

  predicate KeysFresh(c: Caches, base: Text, now: real) {
    CachedKeys(c, base) != map[] && base in c.jwksExpires && c.jwksExpires[base] > now
  }

  /** Keys (None if raised), caches, and how many requests were made. */
  function FetchKeys(libs: Libs, c: Caches, base: Text, force: bool, now: real, answer: JwksAnswer)
    : (Option<Keys>, Caches, nat)
  {
    if !force && KeysFresh(c, base, now) then (Some(CachedKeys(c, base)), c, 0)
    else match answer
         case JwksFailed => (Some(CachedKeys(c, base)), c, 1)
         case JwksDocument(doc) =>
           match JwkItems(doc)
           case None => (None, c, 1)
           case Some(items) =>
             match KeysOf(libs, items)
             case None => (None, c, 1)
             case Some(keys) =>
               (Some(keys), c.(jwks := c.jwks[base := keys], jwksExpires := c.jwksExpires[base := now + 3600.0]), 1)
  }

  /** `jwks.get(kid)`, of 32 bytes. */
  function KeyNamed(keys: Keys, kid: Json): Option<Bytes> {
    if kid.Str? && kid.s in keys && |keys[kid.s]| == 32 then Some(keys[kid.s]) else None
  }

  /** The header's kid, when the checks before the key lookup pass. */
  function KidOf(libs: Libs, jws: Text): Option<Json> {
    var parts := Split(jws, DOT);
    if |parts| != 3 then None
    else match Load(libs, parts[0])
         case Some(Dict(h)) =>
           if Get(h, Chars("alg")) == Some(Str(Chars("EdDSA"))) && Truthy(GetOr(h, Chars("kid"), Str([])))
           then Get(h, Chars("kid")) else None
         case _ => None
  }

  /** The header is JSON but no object, so reading its claims raises. */
  predicate HeaderRaises(libs: Libs, jws: Text) {
    var parts := Split(jws, DOT);
    |parts| == 3 && Load(libs, parts[0]).Some? && !Load(libs, parts[0]).value.Dict?
  }

  /** Signature check and payload, with a key in hand. */
  function CheckWith(libs: Libs, jws: Text, key: Bytes): Outcome {
    var parts := Split(jws, DOT);
    if |parts| != 3 then Nothing
    else
      var input := parts[0] + [DOT] + parts[1];
      if !Ascii(input) then Threw
      else match libs.decode(parts[2])
           case None => Nothing
           case Some(sig) =>
             if !libs.validSignature(key, input, sig) then Nothing
             else match Load(libs, parts[1])
                  case Some(v) => if v.Null? then Nothing else Payload(v)
                  case None => Nothing
  }

  /** `verify_jws_snapshot`: outcome, caches, JWKS requests made. */
  function VerifyJws(libs: Libs, c: Caches, jws: Text, p: Pull): (Outcome, Caches, nat) {
    if HeaderRaises(libs, jws) then (Threw, c, 0)
    else match KidOf(libs, jws)
         case None => (Nothing, c, 0)
         case Some(kid) =>
           var (keys, c1, n1) := FetchKeys(libs, c, p.base, false, p.jwksNow, p.jwks);
           if keys.None? || kid.List? || kid.Dict? then (Threw, c1, n1)
           else match KeyNamed(keys.value, kid)
                case Some(key) => (CheckWith(libs, jws, key), c1, n1)
                case None =>
                  var (keys2, c2, n2) := FetchKeys(libs, c1, p.base, true, p.refreshNow, p.refresh);
                  if keys2.None? then (Threw, c2, n1 + n2)
                  else match KeyNamed(keys2.value, kid)
                       case Some(key) => (CheckWith(libs, jws, key), c2, n1 + n2)
                       case None => (Nothing, c2, n1 + n2)
  }

  /** Seconds to live: from validUntil, clamped to [60, 300]. */
  function Ttl(payload: Entries, p: Pull): (t: int)
    ensures 60 <= t <= 300
  {
    match Get(payload, Chars("validUntil"))
    case Some(Str(text)) =>
      (match if text == [] then None else p.until(text)
       case Some(until) =>
         var left := Truncate(until - p.now);
         if left < 60 then 60 else if left > 300 then 300 else left
       case None => 300)
    case _ => 300
  }

  predicate ServedFromCache(c: Caches, p: Pull) {
    p.owner in c.snapshots && c.snapshots[p.owner].jws != [] && c.snapshots[p.owner].expires > p.now
  }

  predicate Stale(c: Caches, p: Pull) {
    p.owner in c.snapshots && c.snapshots[p.owner].jws != []
  }

  function Store(c: Caches, owner: Owner, jws: Text, expires: real): Caches {
    c.(snapshots := c.snapshots[owner := Entry(jws, expires)])
  }

  /** `pull_snapshot`: outcome, caches, and whether the snapshot entry was written. */
  function PullSnapshot(libs: Libs, c: Caches, p: Pull): (Outcome, Caches, bool) {
    if !p.trusted then (Nothing, c, false)
    else if ServedFromCache(c, p) || (Stale(c, p) && Unusable(p.response)) then
      var (o, c', _) := VerifyJws(libs, c, c.snapshots[p.owner].jws, p);
      (o, c', false)
    else if Stale(c, p) && NotModified(p.response) then
      var jws := c.snapshots[p.owner].jws;
      var (o, c', _) := VerifyJws(libs, Store(c, p.owner, jws, p.now + 300.0), jws, p);
      (o, c', true)
    else if p.response.NetworkError? || p.response.status != 200 then (Nothing, c, false)
    else
      var (o, c', _) := VerifyJws(libs, c, p.response.text, p);
      match o
      case Payload(Dict(es)) =>
        (o, Store(c', p.owner, p.response.text, p.now + Ttl(es, p) as real), true)
      case Payload(_) => (Threw, c', false)
      case _ => (o, c', false)
  }

  predicate NotModified(r: Response) {
    r.Http? && r.status == 304
  }

  /** Neither a snapshot nor a confirmation that the cached one still stands. */
  predicate Unusable(r: Response) {
    r.NetworkError? || (r.status != 200 && r.status != 304)
  }

  // ---------------------------------------------------------- implementation

  class SnapshotService {
    var snapshots: map<Owner, Entry>
    var jwks: map<Text, Keys>
    var jwksExpires: map<Text, real>

    constructor ()
      ensures Contents() == Caches(map[], map[], map[])
    {
      snapshots, jwks, jwksExpires := map[], map[], map[];
    }

    function Contents(): Caches
      reads this
    {
      Caches(snapshots, jwks, jwksExpires)
    }

    /** `_fetch_jwks`; None stands for a raised exception. */
    method FetchJwks(libs: Libs, base: Text, force: bool, now: real, answer: JwksAnswer)
      returns (r: Option<Keys>, requests: nat)
      modifies this
      ensures (r, Contents(), requests) == FetchKeys(libs, old(Contents()), base, force, now, answer)
    {
      hide Chars, Get, GetOr;
      var cached := if base in jwks then jwks[base] else map[];
      if !force && cached != map[] && base in jwksExpires && jwksExpires[base] > now {
        return Some(cached), 0;
      }
      if answer.JwksFailed? { return Some(cached), 1; }
      var items := JwkItems(answer.doc);
      if items.None? { return None, 1; }
      var keys: Keys := map[];
      for i := 0 to |items.value|
        invariant Contents() == old(Contents())
        invariant KeysOf(libs, items.value[..i]) == Some(keys)
      {
        var k := items.value[i];
        assert items.value[..i + 1][..i] == items.value[..i];
        if !k.Dict? {
          KeysRaiseEarly(libs, items.value, i);
          return None, 1;
        }
        var usable := UsableKey(libs, k.entries);
        if usable.Some? { keys := keys[usable.value.0 := usable.value.1]; }
      }
      assert items.value[..|items.value|] == items.value;
      jwks := jwks[base := keys];
      jwksExpires := jwksExpires[base := now + 3600.0];
      return Some(keys), 1;
    }

    /** `verify_jws_snapshot`. */
    method VerifyJwsSnapshot(libs: Libs, jws: Text, p: Pull) returns (o: Outcome, requests: nat)
      modifies this
      ensures (o, Contents(), requests) == VerifyJws(libs, old(Contents()), jws, p)
    {
      hide Chars, Get, GetOr, Split, FetchKeys, Ascii;
      requests := 0;
      var parts := Split(jws, DOT);
      if |parts| != 3 { return Nothing, 0; }
      var header := Load(libs, parts[0]);
      if header.None? { return Nothing, 0; }
      if !header.value.Dict? { return Threw, 0; }
      if Get(header.value.entries, Chars("alg")) != Some(Str(Chars("EdDSA"))) { return Nothing, 0; }
      var kid := GetOr(header.value.entries, Chars("kid"), Str([]));
      if !Truthy(kid) { return Nothing, 0; }
      KidIsPresent(header.value.entries);

      var keys: Option<Keys>;
      keys, requests := FetchJwks(libs, p.base, false, p.jwksNow, p.jwks);
      if keys.None? || kid.List? || kid.Dict? { return Threw, requests; }
      var key := KeyNamed(keys.value, kid);
      if key.None? {
        var more: nat;
        keys, more := FetchJwks(libs, p.base, true, p.refreshNow, p.refresh);
        requests := requests + more;
        if keys.None? { return Threw, requests; }
        key := KeyNamed(keys.value, kid);
        if key.None? { return Nothing, requests; }
      }
      o := CheckWith(libs, jws, key.value);
    }

    /** `pull_snapshot`. */
    method Pull(libs: Libs, p: Pull) returns (o: Outcome, ghost written: bool)
      modifies this
      ensures (o, Contents(), written) == PullSnapshot(libs, old(Contents()), p)
    {
      hide VerifyJws, Ttl;
      written := false;
      var requests;
      if !p.trusted { return Nothing, false; }
      var cached: Option<Entry> := if p.owner in snapshots then Some(snapshots[p.owner]) else None;
      var usable := cached.Some? && cached.value.jws != [];
      if usable && cached.value.expires > p.now {
        o, requests := VerifyJwsSnapshot(libs, cached.value.jws, p);
        return;
      }
      if p.response.NetworkError? {
        if usable {
          o, requests := VerifyJwsSnapshot(libs, cached.value.jws, p);
          return;
        }
        return Nothing, false;
      }
      if p.response.status == 304 && usable {
        snapshots := snapshots[p.owner := Entry(cached.value.jws, p.now + 300.0)];
        written := true;
        o, requests := VerifyJwsSnapshot(libs, cached.value.jws, p);
        return;
      }
      if p.response.status != 200 {
        if usable {
          o, requests := VerifyJwsSnapshot(libs, cached.value.jws, p);
          return;
        }
        return Nothing, false;
      }
      o, requests := VerifyJwsSnapshot(libs, p.response.text, p);
      if !o.Payload? { return o, false; }
      if !o.v.Dict? { return Threw, false; }
      var ttl := Ttl(o.v.entries, p);
      snapshots := snapshots[p.owner := Entry(p.response.text, p.now + ttl as real)];
      written := true;
    }
  }

  lemma {:induction false} KeysRaiseEarly(libs: Libs, items: seq<Json>, i: nat)
    requires i < |items| && !items[i].Dict?
    ensures KeysOf(libs, items).None?
    decreases |items|
  {
    if i < |items| - 1 { KeysRaiseEarly(libs, items[..|items| - 1], i); }
  }

  lemma KidIsPresent(h: Entries)
    requires Truthy(GetOr(h, Chars("kid"), Str([])))
    ensures Get(h, Chars("kid")) == Some(GetOr(h, Chars("kid"), Str([])))
  {
  }

  // ------------------------------------------------------------ one verification

  /** The jws verifies under these keys. */
  predicate VerifiesUnder(libs: Libs, jws: Text, keys: Keys) {
    && KidOf(libs, jws).Some?
    && KeyNamed(keys, KidOf(libs, jws).value).Some?
    && CheckWith(libs, jws, KeyNamed(keys, KidOf(libs, jws).value).value).Payload?
  }

  /** The payload of a jws, whoever signed it. */
  function PayloadOf(libs: Libs, jws: Text): Option<Json> {
    var parts := Split(jws, DOT);
    if |parts| == 3 then Load(libs, parts[1]) else None
  }

  /** A payload that is returned belongs to the jws and verifies under the keys held for the
      API base on return; at most two JWKS requests were made; snapshots are untouched. */
  lemma VerifyIsSound(libs: Libs, c: Caches, jws: Text, p: Pull)
    ensures var (o, c', requests) := VerifyJws(libs, c, jws, p);
            && requests <= 2 && c'.snapshots == c.snapshots
            && (o.Payload? ==> VerifiesUnder(libs, jws, CachedKeys(c', p.base)))
            && (o.Payload? ==> Some(o.v) == PayloadOf(libs, jws))
  {
    hide FetchKeys, CheckWith, PayloadOf, KidOf, HeaderRaises, CachedKeys, KeyNamed;
    if !HeaderRaises(libs, jws) && KidOf(libs, jws).Some? {
      var kid := KidOf(libs, jws).value;
      var first := FetchKeys(libs, c, p.base, false, p.jwksNow, p.jwks);
      FetchedKeysAreHeld(libs, c, p.base, false, p.jwksNow, p.jwks);
      if first.0.Some? && !kid.List? && !kid.Dict? {
        var key := KeyNamed(first.0.value, kid);
        if key.Some? {
          CheckedPayload(libs, jws, key.value);
        } else {
          var second := FetchKeys(libs, first.1, p.base, true, p.refreshNow, p.refresh);
          FetchedKeysAreHeld(libs, first.1, p.base, true, p.refreshNow, p.refresh);
          if second.0.Some? && KeyNamed(second.0.value, kid).Some? {
            CheckedPayload(libs, jws, KeyNamed(second.0.value, kid).value);
          }
        }
      }
    }
  }

  /** The keys a fetch returns are the ones the cache then holds; it makes at most one request. */
  lemma FetchedKeysAreHeld(libs: Libs, c: Caches, base: Text, force: bool, now: real, answer: JwksAnswer)
    ensures var (keys, c', requests) := FetchKeys(libs, c, base, force, now, answer);
            && requests <= 1 && c'.snapshots == c.snapshots
            && (keys.Some? ==> keys.value == CachedKeys(c', base))
  {
    hide JwkItems, KeysOf;
  }

  lemma CheckedPayload(libs: Libs, jws: Text, key: Bytes)
    ensures CheckWith(libs, jws, key).Payload? ==> Some(CheckWith(libs, jws, key).v) == PayloadOf(libs, jws)
  {
    hide Split, Load, Ascii;
  }

  ghost predicate KeysAre32Bytes(c: Caches) {
    forall base, kid | base in c.jwks && kid in c.jwks[base] :: |c.jwks[base][kid]| == 32
  }

  lemma {:induction false} ParsedKeysAre32Bytes(libs: Libs, items: seq<Json>)
    ensures KeysOf(libs, items).Some? ==> forall kid | kid in KeysOf(libs, items).value :: |KeysOf(libs, items).value[kid]| == 32
  {
    if items != [] { ParsedKeysAre32Bytes(libs, items[..|items| - 1]); }
  }

  lemma FetchKeeps32Bytes(libs: Libs, c: Caches, base: Text, force: bool, now: real, answer: JwksAnswer)
    requires KeysAre32Bytes(c)
    ensures KeysAre32Bytes(FetchKeys(libs, c, base, force, now, answer).1)
  {
    hide KeysOf;
    if answer.JwksDocument? && JwkItems(answer.doc).Some? {
      ParsedKeysAre32Bytes(libs, JwkItems(answer.doc).value);
    }
  }

  lemma VerifyKeeps32Bytes(libs: Libs, c: Caches, jws: Text, p: Pull)
    requires KeysAre32Bytes(c)
    ensures KeysAre32Bytes(VerifyJws(libs, c, jws, p).1)
  {
    hide FetchKeys, KidOf, KeyNamed, CheckWith, KeysAre32Bytes;
    FetchKeeps32Bytes(libs, c, p.base, false, p.jwksNow, p.jwks);
    FetchKeeps32Bytes(libs, FetchKeys(libs, c, p.base, false, p.jwksNow, p.jwks).1, p.base, true, p.refreshNow, p.refresh);
  }

  // ---------------------------------------------------------------- whole runs

  function CachesAfter(libs: Libs, pulls: seq<Pull>): Caches {
    if pulls == [] then Caches(map[], map[], map[])
    else PullSnapshot(libs, CachesAfter(libs, pulls[..|pulls| - 1]), pulls[|pulls| - 1]).1
  }

  function OutcomeOf(libs: Libs, pulls: seq<Pull>, i: nat): Outcome
    requires i < |pulls|
  {
    PullSnapshot(libs, CachesAfter(libs, pulls[..i]), pulls[i]).0
  }

  predicate WritesAt(libs: Libs, pulls: seq<Pull>, i: nat)
    requires i < |pulls|
  {
    PullSnapshot(libs, CachesAfter(libs, pulls[..i]), pulls[i]).2
  }

  /** What the specification remembers: the jws last fetched with status 200 and accepted,
      the keys it was accepted under, and when the entry was last written. */
  datatype Good = Good(jws: Text, keys: Keys, written: real)

  /** A fetched jws is accepted: it was asked for, arrived with 200, and verified as an object. */
  predicate Accepts(libs: Libs, c: Caches, p: Pull) {
    && p.trusted && !ServedFromCache(c, p) && p.response.Http? && p.response.status == 200
    && var o := VerifyJws(libs, c, p.response.text, p).0; o.Payload? && o.v.Dict?
  }

  predicate Renews(c: Caches, p: Pull) {
    p.trusted && !ServedFromCache(c, p) && Stale(c, p) && NotModified(p.response)
  }

  function LastGood(libs: Libs, pulls: seq<Pull>): map<Owner, Good> {
    if pulls == [] then map[]
    else
      var before, p := pulls[..|pulls| - 1], pulls[|pulls| - 1];
      var good, c := LastGood(libs, before), CachesAfter(libs, before);
      if Accepts(libs, c, p) then
        good[p.owner := Good(p.response.text, CachedKeys(VerifyJws(libs, c, p.response.text, p).1, p.base), p.now)]
      else if Renews(c, p) && p.owner in good then good[p.owner := good[p.owner].(written := p.now)]
      else good
  }

  /** The snapshot cache is the memory of the last good fetch, with an expiry at most 300 and
      at least 60 seconds after the last write. */
  ghost predicate Remembers(libs: Libs, c: Caches, good: map<Owner, Good>) {
    && c.snapshots.Keys == good.Keys
    && (forall owner | owner in good ::
          && c.snapshots[owner].jws == good[owner].jws && good[owner].jws != []
          && VerifiesUnder(libs, good[owner].jws, good[owner].keys)
          && good[owner].written + 60.0 <= c.snapshots[owner].expires <= good[owner].written + 300.0)
  }

  /** One pull: the entry it touches, if any, and every other entry. */
  lemma PullStep(libs: Libs, c: Caches, p: Pull)
    ensures var (o, c', written) := PullSnapshot(libs, c, p);
            && (written <==> Accepts(libs, c, p) || Renews(c, p))
            && (!written ==> c'.snapshots == c.snapshots)
            && (Accepts(libs, c, p) ==>
                  p.owner in c'.snapshots &&
                  (var e := c'.snapshots[p.owner];
                   && e.jws == p.response.text && p.now + 60.0 <= e.expires <= p.now + 300.0
                   && c'.snapshots == c.snapshots[p.owner := e]))
            && (Renews(c, p) ==>
                  c'.snapshots == c.snapshots[p.owner := Entry(c.snapshots[p.owner].jws, p.now + 300.0)])
            && (o.Payload? ==> p.owner in c'.snapshots && Some(o.v) == PayloadOf(libs, c'.snapshots[p.owner].jws)
                               && VerifiesUnder(libs, c'.snapshots[p.owner].jws, CachedKeys(c', p.base)))
  {
    hide VerifyJws, VerifiesUnder, PayloadOf, Ttl;
    if Stale(c, p) {
      var jws := c.snapshots[p.owner].jws;
      VerifyIsSound(libs, c, jws, p);
      VerifyIsSound(libs, Store(c, p.owner, jws, p.now + 300.0), jws, p);
    }
    if p.response.Http? {
      VerifyIsSound(libs, c, p.response.text, p);
      var o := VerifyJws(libs, c, p.response.text, p).0;
      if o.Payload? && o.v.Dict? {
        var ttl := Ttl(o.v.entries, p);
        assert 60 <= ttl <= 300;
      }
    }
  }

  lemma VerifiedIsNotEmpty(libs: Libs, jws: Text, keys: Keys)
    requires VerifiesUnder(libs, jws, keys)
    ensures jws != []
  {
  }

  lemma {:induction false} CacheRemembersLastGood(libs: Libs, pulls: seq<Pull>)
    ensures Remembers(libs, CachesAfter(libs, pulls), LastGood(libs, pulls))
    ensures KeysAre32Bytes(CachesAfter(libs, pulls))
  {
    hide PullSnapshot, VerifyJws, VerifiesUnder, PayloadOf;
    if pulls != [] {
      var before, p := pulls[..|pulls| - 1], pulls[|pulls| - 1];
      CacheRemembersLastGood(libs, before);
      var c := CachesAfter(libs, before);
      PullStep(libs, c, p);
      PullKeeps32Bytes(libs, c, p);
      if Accepts(libs, c, p) {
        VerifyIsSound(libs, c, p.response.text, p);
        VerifiedIsNotEmpty(libs, p.response.text, CachedKeys(VerifyJws(libs, c, p.response.text, p).1, p.base));
      }
    }
  }

  lemma PullKeeps32Bytes(libs: Libs, c: Caches, p: Pull)
    requires KeysAre32Bytes(c)
    ensures KeysAre32Bytes(PullSnapshot(libs, c, p).1)
  {
    hide VerifyJws, Ttl;
    if Stale(c, p) {
      VerifyKeeps32Bytes(libs, c, c.snapshots[p.owner].jws, p);
      VerifyKeeps32Bytes(libs, Store(c, p.owner, c.snapshots[p.owner].jws, p.now + 300.0), c.snapshots[p.owner].jws, p);
    }
    if p.response.Http? { VerifyKeeps32Bytes(libs, c, p.response.text, p); }
  }

  /** Every non-empty answer of any run is the payload of the jws most recently accepted for
      that merchant and company, and it verifies under the keys held when it is returned. */
  lemma AnswersAreLastGood(libs: Libs, pulls: seq<Pull>, i: nat)
    requires i < |pulls| && OutcomeOf(libs, pulls, i).Payload?
    ensures var good, p := LastGood(libs, pulls[..i + 1]), pulls[i];
            && p.owner in good
            && Some(OutcomeOf(libs, pulls, i).v) == PayloadOf(libs, good[p.owner].jws)
            && VerifiesUnder(libs, good[p.owner].jws, CachedKeys(CachesAfter(libs, pulls[..i + 1]), p.base))
  {
    hide PullSnapshot, VerifyJws, VerifiesUnder, PayloadOf, LastGood;
    assert pulls[..i + 1][..i] == pulls[..i];
    CacheRemembersLastGood(libs, pulls[..i + 1]);
    PullStep(libs, CachesAfter(libs, pulls[..i]), pulls[i]);
  }

  /** Failing open: while the cached keys are fresh and still verify the cached jws, a pull
      that gets no new snapshot (no connection, a 304, any status but 200) answers with the
      cached payload. */
  lemma LastGoodSurvivesOutage(libs: Libs, c: Caches, p: Pull)
    requires p.trusted && Stale(c, p) && (p.response.Http? ==> p.response.status != 200)
    requires KeysFresh(c, p.base, p.jwksNow) && VerifiesUnder(libs, c.snapshots[p.owner].jws, CachedKeys(c, p.base))
    ensures PullSnapshot(libs, c, p).0.Payload?
    ensures Some(PullSnapshot(libs, c, p).0.v) == PayloadOf(libs, c.snapshots[p.owner].jws)
    ensures PullSnapshot(libs, c, p).1.jwks == c.jwks
  {
    hide PayloadOf, VerifiesUnder, VerifyJws;
    var jws := c.snapshots[p.owner].jws;
    FreshKeysNeedNoRequest(libs, c, jws, p);
    FreshKeysNeedNoRequest(libs, Store(c, p.owner, jws, p.now + 300.0), jws, p);
  }

  /** A jws that verifies under fresh cached keys is accepted without any request. */
  lemma FreshKeysNeedNoRequest(libs: Libs, c: Caches, jws: Text, p: Pull)
    ensures KeysFresh(c, p.base, p.jwksNow) && VerifiesUnder(libs, jws, CachedKeys(c, p.base)) ==>
              var (o, c', requests) := VerifyJws(libs, c, jws, p);
              o.Payload? && Some(o.v) == PayloadOf(libs, jws) && c' == c && requests == 0
  {
    hide Load, Ascii, Get, GetOr, Chars, Split, JwkItems, KeysOf;
  }

  /** A pull for one merchant and company never changes the entry of another. */
  lemma OtherEntriesUntouched(libs: Libs, c: Caches, p: Pull, other: Owner)
    requires other != p.owner
    ensures (other in PullSnapshot(libs, c, p).1.snapshots <==> other in c.snapshots)
    ensures other in c.snapshots ==> PullSnapshot(libs, c, p).1.snapshots[other] == c.snapshots[other]
  {
    hide PullSnapshot, Accepts, Renews;
    PullStep(libs, c, p);
  }

  /** One step of the memory of writes. */
  lemma WrittenStep(libs: Libs, pulls: seq<Pull>, owner: Owner)
    requires pulls != []
    ensures var n := |pulls| - 1;
            var before, after := LastGood(libs, pulls[..n]), LastGood(libs, pulls);
            if WritesAt(libs, pulls, n) && pulls[n].owner == owner
            then owner in after && after[owner].written == pulls[n].now
            else (owner in before <==> owner in after) && (owner in before ==> after[owner] == before[owner])
  {
    hide PullSnapshot, VerifyJws, Accepts, Remembers;
    var n := |pulls| - 1;
    var c := CachesAfter(libs, pulls[..n]);
    PullStep(libs, c, pulls[n]);
    SameOwners(libs, pulls[..n]);
  }

  lemma SameOwners(libs: Libs, pulls: seq<Pull>)
    ensures CachesAfter(libs, pulls).snapshots.Keys == LastGood(libs, pulls).Keys
  {
    hide CachesAfter, LastGood;
    CacheRemembersLastGood(libs, pulls);
  }

  /** The last write to an entry is remembered until the next one. */
  lemma {:induction false} WrittenAt(libs: Libs, pulls: seq<Pull>, i: nat, n: nat)
    requires i < n <= |pulls| && WritesAt(libs, pulls, i)
    requires forall k | i < k < n && pulls[k].owner == pulls[i].owner :: !WritesAt(libs, pulls, k)
    ensures pulls[i].owner in LastGood(libs, pulls[..n]) && LastGood(libs, pulls[..n])[pulls[i].owner].written == pulls[i].now
    decreases n
  {
    hide PullSnapshot, LastGood, CachesAfter;
    assert pulls[..n][..n - 1] == pulls[..n - 1];
    assert WritesAt(libs, pulls[..n], n - 1) <==> WritesAt(libs, pulls, n - 1);
    WrittenStep(libs, pulls[..n], pulls[i].owner);
    if i < n - 1 {
      WrittenAt(libs, pulls, i, n - 1);
      if pulls[n - 1].owner == pulls[i].owner { assert !WritesAt(libs, pulls, n - 1); }
    }
  }

  /** Two writes of one entry are at least 60 s apart, however the clock and the answers behave
      in between. */
  lemma {:induction false} WritesApart(libs: Libs, pulls: seq<Pull>, i: nat, j: nat)
    requires i < j < |pulls| && pulls[i].owner == pulls[j].owner
    requires WritesAt(libs, pulls, i) && WritesAt(libs, pulls, j)
    ensures pulls[i].now + 60.0 <= pulls[j].now
    decreases j - i
  {
    hide PullSnapshot, VerifyJws, LastGood, CachesAfter;
    if k :| i < k < j && pulls[k].owner == pulls[i].owner && WritesAt(libs, pulls, k) {
      WritesApart(libs, pulls, i, k);
      WritesApart(libs, pulls, k, j);
    } else {
      WrittenAt(libs, pulls, i, j);
      CacheRemembersLastGood(libs, pulls[..j]);
      PullStep(libs, CachesAfter(libs, pulls[..j]), pulls[j]);
    }
  }
}
