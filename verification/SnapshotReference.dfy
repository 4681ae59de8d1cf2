/**
 What an answered or cached snapshot is, said once more in terms of its three parts, the
 members of its header, the key document and the library calls on them.
 */
module SnapshotReference {
  import opened Texts
  import opened Json
  import opened Base64Url
  import opened IntentText
  import opened TokenVerifier
  import opened TokenReference
  import opened SnapshotCache

  /** Three ASCII parts: an EdDSA header, a payload that is not null, and a signature of the first
      two under the 32-byte key held under the header's `kid`. */
  predicate Authentic(libs: Libs, jws: Text, keys: map<Text, Bytes>, h: Entries, kid: Text, sig: Bytes, payload: Json) {
    var parts := Split(jws, '.' as int);
    && |parts| == 3 && HoldsObject(libs, parts[0], h)
    && Get(h, Chars("alg")) == Some(Str(Chars("EdDSA")))
    && Get(h, Chars("kid")) == Some(Str(kid)) && kid != [] && kid in keys && |keys[kid]| == 32
    && (forall i | 0 <= i < |parts[0]| :: parts[0][i] < 0x80) && (forall i | 0 <= i < |parts[1]| :: parts[1][i] < 0x80)
    && libs.decode(parts[2]) == Some(sig)
    && libs.validSignature(keys[kid], parts[0] + ['.' as int] + parts[1], sig)
    && libs.decode(parts[1]).Some? && libs.loads(libs.decode(parts[1]).value) == Some(payload) && payload != Null
  }

  /** "Verifies under these keys" means no more and no less. */
  lemma VerifiesIffAuthentic(libs: Libs, jws: Text, keys: map<Text, Bytes>)
    ensures VerifiesUnder(libs, jws, keys) <==> exists h, kid, sig, payload :: Authentic(libs, jws, keys, h, kid, sig, payload)
    ensures forall h, kid, sig, payload | Authentic(libs, jws, keys, h, kid, sig, payload) :: PayloadOf(libs, jws) == Some(payload)
  {
    if VerifiesUnder(libs, jws, keys) {
      var h, kid, sig, payload := VerifiedIsAuthentic(libs, jws, keys);
    }
    forall h, kid, sig, payload | Authentic(libs, jws, keys, h, kid, sig, payload)
      ensures VerifiesUnder(libs, jws, keys) && PayloadOf(libs, jws) == Some(payload)
    {
      AuthenticVerifies(libs, jws, keys, h, kid, sig, payload);
    }
  }

  lemma AsciiInput(a: Text, b: Text)
    ensures Ascii(a + [DOT] + b) <==>
            (forall i | 0 <= i < |a| :: a[i] < 0x80) && (forall i | 0 <= i < |b| :: b[i] < 0x80)
  {
    var t := a + [DOT] + b;
    if Ascii(t) {
      forall i | 0 <= i < |a| ensures a[i] < 0x80 { assert t[i] == a[i]; }
      forall i | 0 <= i < |b| ensures b[i] < 0x80 { assert t[|a| + 1 + i] == b[i]; }
    }
  }

  lemma VerifiedIsAuthentic(libs: Libs, jws: Text, keys: map<Text, Bytes>) returns (h: Entries, kid: Text, sig: Bytes, payload: Json)
    requires VerifiesUnder(libs, jws, keys)
    ensures Authentic(libs, jws, keys, h, kid, sig, payload)
  {
    hide Split, Chars, Get, Ascii;
    var parts := Split(jws, DOT);
    AsciiInput(parts[0], parts[1]);
    h := Load(libs, parts[0]).value.entries;
    kid := Get(h, Chars("kid")).value.s;
    sig := libs.decode(parts[2]).value;
    payload := Load(libs, parts[1]).value;
  }

  lemma AuthenticVerifies(libs: Libs, jws: Text, keys: map<Text, Bytes>, h: Entries, kid: Text, sig: Bytes, payload: Json)
    requires Authentic(libs, jws, keys, h, kid, sig, payload)
    ensures VerifiesUnder(libs, jws, keys) && PayloadOf(libs, jws) == Some(payload)
  {
    hide Split, Chars, Get, Ascii;
    var parts := Split(jws, DOT);
    AsciiInput(parts[0], parts[1]);
  }

  /** Every payload a pull returns is that of an authentic snapshot, under the keys then held for the
      API base; and the cache entry it answers from, or has just written, is that very text. */
  lemma AnsweredIsAuthentic(libs: Libs, c: Caches, p: Pull) returns (h: Entries, kid: Text, sig: Bytes)
    requires PullSnapshot(libs, c, p).0.Payload?
    ensures var (o, c', _) := PullSnapshot(libs, c, p);
            && p.owner in c'.snapshots && p.base in c'.jwks
            && Authentic(libs, c'.snapshots[p.owner].jws, c'.jwks[p.base], h, kid, sig, o.v)
  {
    hide PullSnapshot, VerifiesUnder, PayloadOf, Accepts, Renews, Authentic;
    PullStep(libs, c, p);
    var (o, c', _) := PullSnapshot(libs, c, p);
    var jws := c'.snapshots[p.owner].jws;
    var payload;
    h, kid, sig, payload := VerifiedIsAuthentic(libs, jws, CachedKeys(c', p.base));
    AuthenticVerifies(libs, jws, CachedKeys(c', p.base), h, kid, sig, payload);
    HeldKeys(libs, c', p.base, jws, h, kid, sig, payload);
  }

  lemma HeldKeys(libs: Libs, c: Caches, base: Text, jws: Text, h: Entries, kid: Text, sig: Bytes, payload: Json)
    requires Authentic(libs, jws, CachedKeys(c, base), h, kid, sig, payload)
    ensures base in c.jwks && CachedKeys(c, base) == c.jwks[base]
  {
    hide Split, Chars, Get;
  }

  /** After any run every cached text was authentic, and an object, under the keys of the time it
      was accepted. */
  lemma CachedWasAuthentic(libs: Libs, pulls: seq<Pull>, owner: Owner) returns (h: Entries, kid: Text, sig: Bytes, payload: Json)
    requires owner in CachesAfter(libs, pulls).snapshots
    ensures owner in LastGood(libs, pulls)
    ensures Authentic(libs, CachesAfter(libs, pulls).snapshots[owner].jws, LastGood(libs, pulls)[owner].keys, h, kid, sig, payload)
  {
    hide VerifiesUnder, Authentic, CachesAfter, LastGood;
    CacheRemembersLastGood(libs, pulls);
    h, kid, sig, payload := VerifiedIsAuthentic(libs, LastGood(libs, pulls)[owner].jws, LastGood(libs, pulls)[owner].keys);
  }

  /** So if no signature verified, no run would ever store a snapshot or answer with one. */
  lemma NothingWithoutSignature(libs: Libs, pulls: seq<Pull>)
    requires forall key, input, sig :: !libs.validSignature(key, input, sig)
    ensures CachesAfter(libs, pulls).snapshots == map[]
    ensures forall i | 0 <= i < |pulls| :: !OutcomeOf(libs, pulls, i).Payload?
  {
    hide CachesAfter, PullSnapshot, LastGood, HoldsObject, Split, Get, Chars;
    forall owner | owner in CachesAfter(libs, pulls).snapshots ensures false {
      var h, kid, sig, payload := CachedWasAuthentic(libs, pulls, owner);
    }
    forall i | 0 <= i < |pulls| ensures !OutcomeOf(libs, pulls, i).Payload? {
      if OutcomeOf(libs, pulls, i).Payload? {
        var h, kid, sig := AnsweredIsAuthentic(libs, CachesAfter(libs, pulls[..i]), pulls[i]);
      }
    }
  }

  // ------------------------------------------------------------------ the key document

  /** A JWK that may be used: an Ed25519 key of 32 bytes with a name. */
  predicate Usable(libs: Libs, jwk: Json, kid: Text, raw: Bytes) {
    && jwk.Dict?
    && Get(jwk.entries, Chars("kty")) == Some(Str(Chars("OKP"))) && Get(jwk.entries, Chars("crv")) == Some(Str(Chars("Ed25519")))
    && Get(jwk.entries, Chars("kid")) == Some(Str(kid)) && kid != []
    && Get(jwk.entries, Chars("x")).Some? && Get(jwk.entries, Chars("x")).value.Str? && Get(jwk.entries, Chars("x")).value.s != []
    && libs.decode(Get(jwk.entries, Chars("x")).value.s) == Some(raw) && |raw| == 32
  }

  ghost predicate LastUsable(libs: Libs, items: seq<Json>, i: nat, kid: Text, raw: Bytes) {
    && i < |items| && Usable(libs, items[i], kid, raw)
    && forall k, other: Bytes | i < k < |items| :: !Usable(libs, items[k], kid, other)
  }

  predicate AllObjects(items: seq<Json>) {
    forall i | 0 <= i < |items| :: items[i].Dict?
  }

  lemma UsableKeyIff(libs: Libs, jwk: Json, kid: Text, raw: Bytes)
    requires jwk.Dict?
    ensures UsableKey(libs, jwk.entries) == Some((kid, raw)) <==> Usable(libs, jwk, kid, raw)
  {
    hide Get, Chars;
  }

  /** The keys of a document: every item has to be an object, and of the usable ones with one
      name the last wins. */
  lemma {:induction false} KeysIff(libs: Libs, items: seq<Json>, kid: Text, raw: Bytes)
    ensures KeysOf(libs, items).Some? <==> AllObjects(items)
    ensures KeysOf(libs, items).Some? ==>
              (kid in KeysOf(libs, items).value && KeysOf(libs, items).value[kid] == raw <==>
               exists i: nat :: LastUsable(libs, items, i, kid, raw))
  {
    hide UsableKey, Usable;
    if items != [] {
      var n := |items| - 1;
      var before, last := items[..n], items[n];
      KeysIff(libs, before, kid, raw);
      if last.Dict? {
        forall other: Bytes ensures UsableKey(libs, last.entries) == Some((kid, other)) <==> Usable(libs, last, kid, other) {
          UsableKeyIff(libs, last, kid, other);
        }
        if Usable(libs, last, kid, raw) {
          assert LastUsable(libs, items, n, kid, raw);
        } else {
          if i: nat :| LastUsable(libs, before, i, kid, raw) {
            if forall other: Bytes :: !Usable(libs, last, kid, other) { assert LastUsable(libs, items, i, kid, raw); }
          }
          if i: nat :| LastUsable(libs, items, i, kid, raw) { assert LastUsable(libs, before, i, kid, raw); }
        }
      }
    }
  }

  /** The list under `keys`, if the document is an object; empty when it has none, or an empty text
      or object in its place. */
  function ListedKeys(doc: Json): Option<seq<Json>> {
    if !doc.Dict? then None
    else
      var keys := Get(doc.entries, Chars("keys"));
      if keys in {None, Some(Str([])), Some(Dict([]))} then Some([])
      else if keys.value.List? then Some(keys.value.items)
      else None
  }

  predicate Holds(c: Caches, base: Text, now: real) {
    base in c.jwks && c.jwks[base] != map[] && base in c.jwksExpires && now < c.jwksExpires[base]
  }

  /** A fetch makes no request exactly while it is not forced and holds keys that have not
      expired; otherwise one, and if that fails it leaves what is held. */
  lemma FetchIs(libs: Libs, c: Caches, base: Text, force: bool, now: real, answer: JwksAnswer)
    ensures var (keys, c', requests) := FetchKeys(libs, c, base, force, now, answer);
            && (!force && Holds(c, base, now) ==> keys == Some(c.jwks[base]) && c' == c && requests == 0)
            && (force || !Holds(c, base, now) ==> requests == 1)
            && (requests == 1 && answer.JwksFailed? ==> keys == Some(if base in c.jwks then c.jwks[base] else map[]) && c' == c)
            && (requests == 1 && answer.JwksDocument? && !answer.doc.Dict? ==> keys == None && c' == c)
  {
    hide KeysOf, Chars, Get;
  }

  /** A list of objects replaces the held keys for an hour; any other list raises and changes
      nothing. */
  lemma FetchReplaces(libs: Libs, c: Caches, base: Text, force: bool, now: real, doc: Json)
    requires (force || !Holds(c, base, now)) && ListedKeys(doc).Some?
    ensures var (keys, c', requests) := FetchKeys(libs, c, base, force, now, JwksDocument(doc));
            var items := ListedKeys(doc).value;
            && (keys.Some? <==> AllObjects(items)) && keys == KeysOf(libs, items)
            && c' == (if keys.Some? then c.(jwks := c.jwks[base := keys.value], jwksExpires := c.jwksExpires[base := now + 3600.0]) else c)
  {
    KeysIff(libs, ListedKeys(doc).value, [], []);
    hide KeysOf, Chars, Get, AllObjects;
  }

  /** Any other document raises and changes nothing. */
  lemma FetchRaises(libs: Libs, c: Caches, base: Text, force: bool, now: real, doc: Json)
    requires (force || !Holds(c, base, now)) && ListedKeys(doc).None?
    ensures FetchKeys(libs, c, base, force, now, JwksDocument(doc)) == (None, c, 1)
  {
    hide KeysOf, Chars, Get;
  }

  // ----------------------------------------------------------------------- one pull

  /** What a pull does, case by case. */
  lemma PullIs(libs: Libs, c: Caches, p: Pull)
    ensures var (o, c', written) := PullSnapshot(libs, c, p);
            var held := p.owner in c.snapshots && c.snapshots[p.owner].jws != [];
            if !p.trusted then o == Nothing && c' == c && !written
            else if held && p.now < c.snapshots[p.owner].expires then
              (o, c') == Verified(libs, c, c.snapshots[p.owner].jws, p) && !written
            else match p.response
                 case Http(200, text) =>
                   var (o1, c1) := Verified(libs, c, text, p);
                   (match o1
                    case Payload(Dict(es)) =>
                      && o == o1 && written && c'.jwks == c1.jwks && c'.jwksExpires == c1.jwksExpires
                      && p.owner in c'.snapshots && c'.snapshots[p.owner].jws == text
                      && LivesUntil(es, p, c'.snapshots[p.owner].expires)
                      && c'.snapshots == c.snapshots[p.owner := c'.snapshots[p.owner]]
                    case Payload(_) => o == Threw && c' == c1 && !written
                    case _ => o == o1 && c' == c1 && !written)
                 case Http(304, _) =>
                   if held then
                     var renewed := c.(snapshots := c.snapshots[p.owner := Entry(c.snapshots[p.owner].jws, p.now + 300.0)]);
                     (o, c') == Verified(libs, renewed, c.snapshots[p.owner].jws, p) && written
                   else o == Nothing && c' == c && !written
                 case _ =>
                   if held then (o, c') == Verified(libs, c, c.snapshots[p.owner].jws, p) && !written
                   else o == Nothing && c' == c && !written
  {
    hide VerifyJws, Ttl, LivesUntil;
    if p.response.Http? {
      VerifyIsSound(libs, c, p.response.text, p);
      var o1 := VerifyJws(libs, c, p.response.text, p).0;
      if o1.Payload? && o1.v.Dict? { TtlIs(o1.v.entries, p); }
    }
  }

  function Verified(libs: Libs, c: Caches, jws: Text, p: Pull): (SnapshotCache.Outcome, Caches) {
    var (o, c', _) := VerifyJws(libs, c, jws, p);
    (o, c')
  }

  /** Until `validUntil`, in whole seconds, but for no less than 60 s and no more than 300 s; and
      for 300 s when it is missing or no timestamp. */
  predicate LivesUntil(es: Entries, p: Pull, expires: real) {
    var text := match Get(es, Chars("validUntil")) case Some(Str(t)) => t case _ => [];
    var until := if text == [] then None else p.until(text);
    match until
    case None => expires == p.now + 300.0
    case Some(u) =>
      if u - p.now < 60.0 then expires == p.now + 60.0
      else if u - p.now >= 300.0 then expires == p.now + 300.0
      else u - 1.0 < expires <= u && expires - p.now == (expires - p.now).Floor as real
  }

  lemma TtlIs(es: Entries, p: Pull)
    ensures LivesUntil(es, p, p.now + Ttl(es, p) as real)
  {
    hide Get, Chars;
  }

  // ------------------------------------------------------------------ one verification

  /** The header names an EdDSA key. */
  predicate Names(libs: Libs, jws: Text, h: Entries, kid: Text) {
    var parts := Split(jws, '.' as int);
    && |parts| == 3 && HoldsObject(libs, parts[0], h)
    && Get(h, Chars("alg")) == Some(Str(Chars("EdDSA"))) && Get(h, Chars("kid")) == Some(Str(kid)) && kid != []
  }

  /** Held keys are used when they hold the name; when they do not, keys are fetched afresh, once,
      and what they do not hold either is refused. */
  lemma VerifyTriesTwice(libs: Libs, c: Caches, jws: Text, p: Pull, h: Entries, kid: Text)
    requires Names(libs, jws, h, kid)
    ensures var (keys, c1, n1) := FetchKeys(libs, c, p.base, false, p.jwksNow, p.jwks);
            var (keys2, c2, n2) := FetchKeys(libs, c1, p.base, true, p.refreshNow, p.refresh);
            var (o, c', requests) := VerifyJws(libs, c, jws, p);
            if keys == None then o == Threw && c' == c1 && requests == n1
            else if kid in keys.value && |keys.value[kid]| == 32 then
              Decides(libs, jws, keys.value, o) && c' == c1 && requests == n1
            else
              && c' == c2 && requests == n1 + n2
              && if keys2 == None then o == Threw
                 else if kid in keys2.value && |keys2.value[kid]| == 32 then Decides(libs, jws, keys2.value, o)
                 else o == Nothing
  {
    hide FetchKeys, CheckWith, Split, Get, Chars, PayloadOf;
    var (keys, c1, n1) := FetchKeys(libs, c, p.base, false, p.jwksNow, p.jwks);
    var (keys2, c2, n2) := FetchKeys(libs, c1, p.base, true, p.refreshNow, p.refresh);
    assert KidOf(libs, jws) == Some(Str(kid)) && !HeaderRaises(libs, jws);
    if keys.Some? && kid in keys.value && |keys.value[kid]| == 32 { CheckedPayload(libs, jws, keys.value[kid]); }
    if keys2.Some? && kid in keys2.value && |keys2.value[kid]| == 32 { CheckedPayload(libs, jws, keys2.value[kid]); }
  }

  predicate NamesKey(h: Entries) {
    Get(h, Chars("alg")) == Some(Str(Chars("EdDSA"))) && Get(h, Chars("kid")) !in {None, Some(Null), Some(Str([]))}
  }

  /** Without a name no key is asked for: a header that is no JSON, not EdDSA or without `kid` is
      refused, one that is JSON but no object raises. */
  lemma NamelessIsRefused(libs: Libs, c: Caches, jws: Text, p: Pull, h: Entries)
    ensures var parts, r := Split(jws, '.' as int), VerifyJws(libs, c, jws, p);
            if |parts| != 3 || Load(libs, parts[0]) == None then r == (Nothing, c, 0)
            else if !Load(libs, parts[0]).value.Dict? then r == (Threw, c, 0)
            else HoldsObject(libs, parts[0], h) && !NamesKey(h) ==> r == (Nothing, c, 0)
  {
    hide FetchKeys, CheckWith, Split, Get, Chars;
  }

  /** The payload, exactly when the text verifies. */
  predicate Decides(libs: Libs, jws: Text, keys: map<Text, Bytes>, o: SnapshotCache.Outcome) {
    && (o.Payload? <==> VerifiesUnder(libs, jws, keys))
    && (o.Payload? ==> PayloadOf(libs, jws) == Some(o.v))
  }
}
