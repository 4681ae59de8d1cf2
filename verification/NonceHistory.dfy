/**
 The evicting nonce cache of one worker over whole runs, against a log that never
 forgets anything.
 */
module NonceHistory {
  import opened Texts
  import opened Json
  import opened TokenVerifier

  /** The worker's cache after a sequence of calls. */
  function Run(libs: Libs, calls: seq<Call>): NonceCache {
    if calls == [] then map[]
    else Verify(libs, Run(libs, calls[..|calls| - 1]), calls[|calls| - 1]).1
  }

  lemma RunStep(libs: Libs, calls: seq<Call>, i: nat)
    requires i < |calls|
    ensures Run(libs, calls[..i + 1]) == Verify(libs, Run(libs, calls[..i]), calls[i]).1
  {
    hide Verify;
    assert calls[..i + 1][..i] == calls[..i];
  }

  function OutcomeAt(libs: Libs, calls: seq<Call>, i: nat): Outcome
    requires i < |calls|
  {
    Verify(libs, Run(libs, calls[..i]), calls[i]).0
  }

  /** Refused because of the cache, not because of a failed check. */
  predicate ReplayRefused(libs: Libs, cache: NonceCache, call: Call) {
    && Hashes(libs, call)
    && libs.sha256(NonceText(libs, call.jws)) in Evicted(cache, call.now)
  }

  predicate Monotone(calls: seq<Call>) {
    forall i, j | 0 <= i < j < |calls| :: calls[i].now <= calls[j].now
  }

  /** The call hashes its nonce text. */
  predicate Hashes(libs: Libs, call: Call) {
    ReachesNonce(libs, call) && Encodable(NonceText(libs, call.jws))
  }

  // ------------------------------------------------------------ reference log

  datatype Recording = Recording(text: Text, at: real)

  function Itself(t: Text): Text { t }

  /** A text with the same tag was recorded less than 300 s ago. */
  predicate SeenWithin(tag: Text -> Text, log: seq<Recording>, text: Text, now: real) {
    exists i | 0 <= i < |log| :: tag(log[i].text) == tag(text) && now < log[i].at + NONCE_TTL
  }

  /** The full log: every text that was let past the replay check, and when. Texts are
      compared by their tag: by hash, as the code does, or as they are. */
  function Log(libs: Libs, tag: Text -> Text, calls: seq<Call>): seq<Recording> {
    if calls == [] then []
    else LogStep(libs, tag, Log(libs, tag, calls[..|calls| - 1]), calls[|calls| - 1])
  }

  function LogStep(libs: Libs, tag: Text -> Text, log: seq<Recording>, call: Call): seq<Recording> {
    var text := NonceText(libs, call.jws);
    if Hashes(libs, call) && !SeenWithin(tag, log, text, call.now)
    then log + [Recording(text, call.now)]
    else log
  }

  // --------------------------------------------------------------- refinement

  ghost predicate Coupled(libs: Libs, cache: NonceCache, log: seq<Recording>, now: real) {
    && (forall k | k in cache ::
          exists i | 0 <= i < |log| :: libs.sha256(log[i].text) == k && cache[k] == log[i].at + NONCE_TTL)
    && (forall i | 0 <= i < |log| && now < log[i].at + NONCE_TTL ::
          libs.sha256(log[i].text) in cache && log[i].at + NONCE_TTL <= cache[libs.sha256(log[i].text)])
    && (forall i | 0 <= i < |log| :: log[i].at <= now)
  }

  lemma CoupledDecides(libs: Libs, cache: NonceCache, log: seq<Recording>, now: real, text: Text)
    requires Coupled(libs, cache, log, now)
    ensures libs.sha256(text) in Evicted(cache, now) <==> SeenWithin(libs.sha256, log, text, now)
  {
  }

  lemma CoupledRecord(libs: Libs, cache: NonceCache, log: seq<Recording>, text: Text, now: real)
    requires Coupled(libs, cache, log, now) && !SeenWithin(libs.sha256, log, text, now)
    ensures Coupled(libs, Evicted(cache, now)[libs.sha256(text) := now + NONCE_TTL],
                    log + [Recording(text, now)], now)
  {
    var cache' := Evicted(cache, now)[libs.sha256(text) := now + NONCE_TTL];
    var log' := log + [Recording(text, now)];
    forall k | k in cache'
      ensures exists i | 0 <= i < |log'| :: libs.sha256(log'[i].text) == k && cache'[k] == log'[i].at + NONCE_TTL
    {
      if k == libs.sha256(text) {
        assert log'[|log|] == Recording(text, now);
      } else {
        var i :| 0 <= i < |log| && libs.sha256(log[i].text) == k && cache[k] == log[i].at + NONCE_TTL;
        assert log'[i] == log[i];
      }
    }
    forall i | 0 <= i < |log'| && now < log'[i].at + NONCE_TTL
      ensures libs.sha256(log'[i].text) in cache'
      ensures log'[i].at + NONCE_TTL <= cache'[libs.sha256(log'[i].text)]
    {
      if i < |log| { assert log'[i] == log[i]; }
    }
  }

  lemma CoupledStep(libs: Libs, cache: NonceCache, log: seq<Recording>, call: Call)
    requires Coupled(libs, cache, log, call.now)
    ensures Coupled(libs, Verify(libs, cache, call).1, LogStep(libs, libs.sha256, log, call), call.now)
  {
    hide ReachesNonce, RaisesEarly, TokenChecks, NonceText, AfterNonce, Coupled, SeenWithin, Encodable, Evicted;
    ChecksExclude(libs, call);
    var text := NonceText(libs, call.jws);
    if ReachesNonce(libs, call) {
      CoupledEvict(libs, cache, log, call.now);
      if Encodable(text) {
        CoupledDecides(libs, cache, log, call.now, text);
        if !SeenWithin(libs.sha256, log, text, call.now) { CoupledRecord(libs, cache, log, text, call.now); }
      }
    }
  }

  lemma CoupledEvict(libs: Libs, cache: NonceCache, log: seq<Recording>, now: real)
    requires Coupled(libs, cache, log, now)
    ensures Coupled(libs, Evicted(cache, now), log, now)
  {
  }

  lemma CoupledLater(libs: Libs, cache: NonceCache, log: seq<Recording>, now: real, later: real)
    requires Coupled(libs, cache, log, now) && now <= later
    ensures Coupled(libs, cache, log, later)
  {
  }

  /** The cache after any run holds what the log says is recent. */
  lemma {:induction false} RunCoupled(libs: Libs, calls: seq<Call>, now: real)
    requires Monotone(calls)
    requires forall i | 0 <= i < |calls| :: calls[i].now <= now
    ensures Coupled(libs, Run(libs, calls), Log(libs, libs.sha256, calls), now)
  {
    hide Coupled, Verify, LogStep;
    if calls != [] {
      var before, call := calls[..|calls| - 1], calls[|calls| - 1];
      RunCoupled(libs, before, call.now);
      CoupledStep(libs, Run(libs, before), Log(libs, libs.sha256, before), call);
      CoupledLater(libs, Run(libs, calls), Log(libs, libs.sha256, calls), call.now, now);
    } else {
      NothingCoupled(libs, now);
    }
  }

  lemma NothingCoupled(libs: Libs, now: real)
    ensures Coupled(libs, map[], [], now)
  {
  }

  /** Over every run with a non-decreasing clock, a call is refused as a replay exactly when
      the full log holds a recording under the same hash less than 300 s earlier: forgetting
      expired entries is never noticed. */
  lemma EvictionIsInvisible(libs: Libs, calls: seq<Call>, i: nat)
    requires Monotone(calls) && i < |calls|
    ensures ReplayRefused(libs, Run(libs, calls[..i]), calls[i]) <==>
            && Hashes(libs, calls[i])
            && SeenWithin(libs.sha256, Log(libs, libs.sha256, calls[..i]), NonceText(libs, calls[i].jws), calls[i].now)
  {
    hide Log, Run, ReachesNonce, NonceText, SeenWithin, Coupled;
    RunCoupled(libs, calls[..i], calls[i].now);
    CoupledDecides(libs, Run(libs, calls[..i]), Log(libs, libs.sha256, calls[..i]), calls[i].now,
                   NonceText(libs, calls[i].jws));
  }

  /** The texts hashed in this run, and no others, are told apart by their hashes. */
  ghost predicate NoCollision(libs: Libs, calls: seq<Call>) {
    forall i, j | 0 <= i < |calls| && 0 <= j < |calls| && Hashes(libs, calls[i]) && Hashes(libs, calls[j]) ::
      libs.sha256(NonceText(libs, calls[i].jws)) == libs.sha256(NonceText(libs, calls[j].jws)) ==>
        NonceText(libs, calls[i].jws) == NonceText(libs, calls[j].jws)
  }

  predicate Logged(libs: Libs, calls: seq<Call>, text: Text) {
    exists j | 0 <= j < |calls| :: Hashes(libs, calls[j]) && NonceText(libs, calls[j].jws) == text
  }

  /** Without a collision inside the run, the two logs are one. */
  lemma {:induction false} LogsAgree(libs: Libs, calls: seq<Call>)
    requires NoCollision(libs, calls)
    ensures Log(libs, libs.sha256, calls) == Log(libs, Itself, calls)
    ensures forall p | 0 <= p < |Log(libs, Itself, calls)| :: Logged(libs, calls, Log(libs, Itself, calls)[p].text)
  {
    hide Hashes, NonceText, Logged, SeenWithin;
    if calls != [] {
      var n := |calls| - 1;
      var before := calls[..n];
      LogsAgree(libs, before);
      var log := Log(libs, Itself, before);
      forall p | 0 <= p < |log| ensures Logged(libs, calls, log[p].text) {
        LoggedLater(libs, calls, n, log[p].text);
      }
      if Hashes(libs, calls[n]) {
        LastLogged(libs, calls);
        SeenAlike(libs, calls, log, calls[n].now);
      }
    }
  }

  lemma LastLogged(libs: Libs, calls: seq<Call>)
    requires calls != [] && Hashes(libs, calls[|calls| - 1])
    ensures Logged(libs, calls, NonceText(libs, calls[|calls| - 1].jws))
  {
  }

  lemma SeenAlike(libs: Libs, calls: seq<Call>, log: seq<Recording>, now: real)
    requires NoCollision(libs, calls) && calls != [] && Hashes(libs, calls[|calls| - 1])
    requires forall p | 0 <= p < |log| :: Logged(libs, calls, log[p].text)
    ensures var text := NonceText(libs, calls[|calls| - 1].jws);
            SeenWithin(libs.sha256, log, text, now) <==> SeenWithin(Itself, log, text, now)
  {
    hide Hashes, NonceText;
    var text := NonceText(libs, calls[|calls| - 1].jws);
    if i :| 0 <= i < |log| && libs.sha256(log[i].text) == libs.sha256(text) && now < log[i].at + NONCE_TTL {
      assert Logged(libs, calls, log[i].text);
      assert Itself(log[i].text) == Itself(text);
    }
    if i :| 0 <= i < |log| && Itself(log[i].text) == Itself(text) && now < log[i].at + NONCE_TTL {
      assert libs.sha256(log[i].text) == libs.sha256(text);
    }
  }

  /** Read as texts: if no two texts hashed in the run collide, a call is refused as a replay
      exactly when the very same DID and nonce text was let past the check less than 300 s
      earlier. */
  lemma ReplayMeansSameText(libs: Libs, calls: seq<Call>, i: nat)
    requires Monotone(calls) && i < |calls| && NoCollision(libs, calls[..i + 1])
    ensures ReplayRefused(libs, Run(libs, calls[..i]), calls[i]) <==>
            && Hashes(libs, calls[i])
            && SeenWithin(Itself, Log(libs, Itself, calls[..i]), NonceText(libs, calls[i].jws), calls[i].now)
  {
    hide Hashes, NonceText, ReachesNonce, Log, Run, Logged, Encodable;
    EvictionIsInvisible(libs, calls, i);
    var upTo := calls[..i + 1];
    assert calls[..i] == upTo[..i] && upTo[i] == calls[i];
    LogsAgree(libs, calls[..i]);
    var log := Log(libs, Itself, calls[..i]);
    forall p | 0 <= p < |log| ensures Logged(libs, upTo, log[p].text) {
      LoggedLater(libs, upTo, i, log[p].text);
    }
    if Hashes(libs, calls[i]) { SeenAlike(libs, upTo, log, calls[i].now); }
  }

  lemma LoggedLater(libs: Libs, calls: seq<Call>, i: nat, text: Text)
    requires i <= |calls| && Logged(libs, calls[..i], text)
    ensures Logged(libs, calls, text)
  {
    hide Hashes, NonceText;
    var j :| 0 <= j < i && Hashes(libs, calls[..i][j]) && NonceText(libs, calls[..i][j].jws) == text;
    assert calls[..i][j] == calls[j];
  }

  /** After a call that records a nonce every entry is alive and within one TTL. */
  lemma EntriesWithinTtl(libs: Libs, calls: seq<Call>, i: nat)
    requires Monotone(calls) && i < |calls| && Hashes(libs, calls[i])
    requires !ReplayRefused(libs, Run(libs, calls[..i]), calls[i])
    ensures var after := Run(libs, calls[..i + 1]);
            forall k | k in after :: calls[i].now < after[k] <= calls[i].now + NONCE_TTL
  {
    hide ReachesNonce, RaisesEarly, TokenChecks, NonceText, AfterNonce, Log, Run, Encodable;
    ChecksExclude(libs, calls[i]);
    RunCoupled(libs, calls[..i], calls[i].now);
    RunStep(libs, calls, i);
  }

  // --------------------------------------------------------- acceptance bound

  predicate AcceptedAt(libs: Libs, calls: seq<Call>, i: nat, jws: AgentToken) {
    i < |calls| && calls[i].jws == jws && OutcomeAt(libs, calls, i).Accepted?
  }

  /** The log only grows, and an accepted call leaves its recording in it. */
  lemma {:induction false} AcceptedIsLogged(libs: Libs, calls: seq<Call>, i: nat, n: nat)
    requires Monotone(calls) && i < n <= |calls|
    requires OutcomeAt(libs, calls, i).Accepted?
    ensures Recording(NonceText(libs, calls[i].jws), calls[i].now) in Log(libs, libs.sha256, calls[..n])
    decreases n
  {
    hide ReachesNonce, NonceText, AfterNonce, Run;
    assert calls[..n][..n - 1] == calls[..n - 1];
    if i == n - 1 {
      EvictionIsInvisible(libs, calls, i);
    } else {
      AcceptedIsLogged(libs, calls, i, n - 1);
    }
  }

  /** Two acceptances of one token by one worker are at least 300 s apart. */
  lemma AcceptancesApart(libs: Libs, calls: seq<Call>, jws: AgentToken, i: nat, j: nat)
    requires Monotone(calls) && i < j
    requires AcceptedAt(libs, calls, i, jws) && AcceptedAt(libs, calls, j, jws)
    ensures calls[i].now + NONCE_TTL <= calls[j].now
  {
    hide ReachesNonce, NonceText, AfterNonce, Run, Log;
    AcceptedIsLogged(libs, calls, i, j);
    EvictionIsInvisible(libs, calls, j);
    var log := Log(libs, libs.sha256, calls[..j]);
    var p :| 0 <= p < |log| && log[p] == Recording(NonceText(libs, jws), calls[i].now);
    assert !SeenWithin(libs.sha256, log, NonceText(libs, jws), calls[j].now);
  }

  function ClaimOf(libs: Libs, jws: AgentToken, name: Text): Claim {
    match Parse(libs, jws)
    case Some(tok) => NumericClaim(tok.payload, name)
    case None => NotNumeric
  }

  /** `exp` and `iat` of a token, as the verifier reads them. */
  function ExpiresAt(libs: Libs, jws: AgentToken): Claim {
    ClaimOf(libs, jws, Chars("exp"))
  }

  function IssuedAt(libs: Libs, jws: AgentToken): Claim {
    ClaimOf(libs, jws, Chars("iat"))
  }

  /** What is accepted has a finite `exp` and is at most 30 s past it; `exp` lies at most
      330 s after `iat` when `iat` is finite, and anywhere when it is nan or infinite. */
  lemma AcceptedInTime(libs: Libs, cache: NonceCache, call: Call)
    requires Verify(libs, cache, call).0.Accepted?
    ensures var exp, iat := ExpiresAt(libs, call.jws), IssuedAt(libs, call.jws);
            && exp.Finite? && call.now <= exp.x + CLOCK_SKEW
            && (iat.Finite? ==> exp.x <= iat.x + MAX_WINDOW)
            && (iat.Finite? || iat == NoNumber(NaN) || iat == NoNumber(Infinity))
  {
    hide SignedForMerchant, Nonce, NonceText, IssuerIsKeyDid, Jti, Chars, Get, GetOr, NumericClaim, Truncate;
  }

  /** These calls of the run, in this order, all accepted the token. */
  predicate AcceptedAll(libs: Libs, calls: seq<Call>, jws: AgentToken, at: seq<nat>) {
    && (forall a | 0 <= a < |at| :: AcceptedAt(libs, calls, at[a], jws))
    && (forall a, b | 0 <= a < b < |at| :: at[a] < at[b])
  }

  lemma {:induction false} AcceptancesSpan(libs: Libs, calls: seq<Call>, jws: AgentToken, at: seq<nat>)
    requires Monotone(calls) && at != [] && AcceptedAll(libs, calls, jws, at)
    ensures calls[at[0]].now + NONCE_TTL * (|at| - 1) as real <= calls[at[|at| - 1]].now
  {
    hide OutcomeAt;
    var n := |at| - 1;
    if n > 0 {
      AcceptancesSpan(libs, calls, jws, at[..n]);
      AcceptancesApart(libs, calls, jws, at[n - 1], at[n]);
      assert NONCE_TTL * (n - 1) as real + NONCE_TTL == NONCE_TTL * n as real;
    }
  }

  /** The n-th acceptance of a token by one worker requires the first to lie 300 (n - 1) s
      before the end of its life: 30 s after `exp`, so 360 s after a finite `iat`. */
  lemma NthAcceptanceNeedsEarlyFirst(libs: Libs, calls: seq<Call>, jws: AgentToken, at: seq<nat>)
    requires Monotone(calls) && at != [] && AcceptedAll(libs, calls, jws, at)
    ensures var exp, iat := ExpiresAt(libs, jws), IssuedAt(libs, jws);
            var span := NONCE_TTL * (|at| - 1) as real;
            && exp.Finite? && calls[at[0]].now <= exp.x + CLOCK_SKEW - span
            && (iat.Finite? ==> calls[at[0]].now <= iat.x + 360.0 - span)
  {
    hide Verify, ExpiresAt, IssuedAt;
    AcceptancesSpan(libs, calls, jws, at);
    var last := at[|at| - 1];
    assert AcceptedAt(libs, calls, last, jws);
    AcceptedInTime(libs, Run(libs, calls[..last]), calls[last]);
  }

  /** A token with a finite `iat`, never presented before it, is accepted at most twice. */
  lemma AtMostTwoAcceptances(libs: Libs, calls: seq<Call>, jws: AgentToken)
    requires Monotone(calls) && IssuedAt(libs, jws).Finite?
    requires forall i | 0 <= i < |calls| && calls[i].jws == jws :: IssuedAt(libs, jws).x <= calls[i].now
    ensures |set i: nat | i < |calls| && AcceptedAt(libs, calls, i, jws)| <= 2
  {
    hide IssuedAt, ExpiresAt, OutcomeAt;
    var s := set i: nat | i < |calls| && AcceptedAt(libs, calls, i, jws);
    if |s| > 2 {
      var a, b, c := ThreeOf(s);
      NthAcceptanceNeedsEarlyFirst(libs, calls, jws, [a, b, c]);
      assert false;
    }
  }

  lemma ThreeOf(s: set<nat>) returns (a: nat, b: nat, c: nat)
    requires |s| > 2
    ensures a < b < c && a in s && b in s && c in s
  {
    var x :| x in s;
    assert |s - {x}| == |s| - 1;
    var y :| y in s - {x};
    assert |s - {x} - {y}| == |s| - 2;
    var z :| z in s - {x} - {y};
    a := if x < y && x < z then x else if y < z then y else z;
    c := if x > y && x > z then x else if y > z then y else z;
    b := x + y + z - a - c;
  }
}
