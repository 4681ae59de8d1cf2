/**
 Replay protection as a distributed protocol: workers with local nonce caches that run both
 gates, one backend that consumes each jti, requests and replies that may be delayed or lost.
 */
module ReplayProtocol {
  import opened Texts
  import opened Json
  import opened TokenVerifier
  import opened NonceStage
  import opened EnforcementGate

  type Worker = nat

  /** What the backend records. */
  datatype Key = Key(merchant: Text, agent: Text, jti: Text)

  /** One run of the record gate past token verification. A request that was given up on may
      still be served later: the network does not forget it. */
  datatype Request = Request(
    jws: AgentToken, id: Identity, creds: Credentials, mode: Text,
    reply: Option<int>,          // status the backend answered, once it has served the request
    verdict: Option<Stage>)      // what the gate's nonce stage decided, once it has

  datatype Gate = RECORD | CREATE

  /** A token passing a gate without the backend being asked; `verified` unless the verifier
      raised. Nothing flags such a pass. */
  datatype Bypass = Bypass(gate: Gate, jws: AgentToken, mode: Text, verified: bool)

  datatype State = State(caches: map<Worker, NonceCache>, requests: seq<Request>, bypasses: seq<Bypass>, store: set<Key>)

  /** Gate runs that meet a snapshot, no kill switch and a token; and what becomes of their
      requests. */
  datatype Step =
    | CheckRecord(worker: Worker, id: int, field: AgentToken, amount: Text, w: World)
    | CheckCreate(worker: Worker, field: AgentToken, amount: Text, w: World)
    | Serve(i: nat, status: int, stores: bool)
    | Settle(i: nat, delivered: bool)

  function KeyOf(r: Request): Key {
    Key(r.creds.merchantId, r.id.agentId, r.id.jti)
  }

  predicate Sent(r: Request) {
    && Contacts(r.creds) && r.creds.hmacSecret != [] && r.id.jti != [] && r.id.agentId != []
    && Writable(r.creds, r.id.exp)
  }

  predicate MeetsToken(field: AgentToken, w: World) {
    w.snapshot.Some? && !w.snapshot.value.killSwitch && TokenOf(field, w) != NO_TOKEN
  }

  predicate Enabled(s: State, step: Step) {
    match step
    case CheckRecord(worker, _, field, _, w) => worker in s.caches && MeetsToken(field, w)
    case CheckCreate(worker, field, _, w) => worker in s.caches && MeetsToken(field, w)
    case Serve(i, status, stores) =>
      && i < |s.requests| && Sent(s.requests[i]) && s.requests[i].reply.None?
      // 200 only when newly stored, 409 when already seen
      && (status == 200 ==> KeyOf(s.requests[i]) !in s.store && stores)
      && (status == 409 ==> KeyOf(s.requests[i]) in s.store)
    case Settle(i, delivered) =>
      i < |s.requests| && s.requests[i].verdict.None? && (delivered ==> s.requests[i].reply.Some?)
  }

  /** Token verification inside the record gate: a request to the backend when accepted; when
      the verifier raised, whatever the fallback mode says; a refusal otherwise. */
  function AfterCheck(s: State, worker: Worker, outcome: Outcome, cache: NonceCache, field: AgentToken, w: World): State
    requires MeetsToken(field, w)
  {
    var mode, jws := FallbackMode(w.snapshot), TokenOf(field, w);
    var s' := s.(caches := s.caches[worker := cache]);
    match outcome
    case Rejected => s'
    case Raised => if ApplyFallback(mode).Pass? then s'.(bypasses := s.bypasses + [Bypass(RECORD, jws, mode, false)]) else s'
    case Accepted(ident) =>
      s'.(requests := s.requests + [Request(jws, ident, Creds(w.snapshot.value, w), mode, None, None)])
  }

  function AfterCreate(s: State, worker: Worker, decision: Decision, cache: NonceCache, field: AgentToken, w: World): State {
    var s' := s.(caches := s.caches[worker := cache]);
    if decision.Block? then s'
    else s'.(bypasses := s.bypasses + [Bypass(CREATE, TokenOf(field, w), FallbackMode(w.snapshot), decision.agent.Some?)])
  }

  function Next(libs: Libs, s: State, step: Step): State
    requires Enabled(s, step)
  {
    match step
    case CheckRecord(worker, id, field, amount, w) =>
      var (outcome, cache) := Verify(libs, s.caches[worker], RecordCall(libs, id, field, amount, w));
      AfterCheck(s, worker, outcome, cache, field, w)
    case CheckCreate(worker, field, amount, w) =>
      var (decision, cache) := ValsGate(libs, s.caches[worker], field, amount, w);
      AfterCreate(s, worker, decision, cache, field, w)
    case Serve(i, status, stores) =>
      s.(requests := s.requests[i := s.requests[i].(reply := Some(status))],
         store := if stores then s.store + {KeyOf(s.requests[i])} else s.store)
    case Settle(i, delivered) =>
      var r := s.requests[i];
      var answer := if delivered then Status(r.reply.value) else NoAnswer;
      s.(requests := s.requests[i := r.(verdict := Some(ConsumeWithFailureMode(r.id, r.creds, r.mode, answer)))])
  }

  /** Any number of workers, any prior contents of the backend. */
  predicate Init(s: State) {
    s.requests == [] && s.bypasses == [] && forall w | w in s.caches :: s.caches[w] == map[]
  }

  ghost predicate Reachable(libs: Libs, steps: seq<Step>, s: State) {
    if steps == [] then Init(s)
    else
      var before, last := steps[..|steps| - 1], steps[|steps| - 1];
      exists p :: Reachable(libs, before, p) && Enabled(p, last) && s == Next(libs, p, last)
  }

  /** The gate function is these steps in one: when it passes with a token, checking has
      either left a bypass or a request, and a request settled with the same answer passes
      the nonce stage with the same flags. */
  lemma GatePassIsProtocolPass(libs: Libs, s: State, worker: Worker, id: int, field: AgentToken, amount: Text, w: World)
    requires worker in s.caches && MeetsToken(field, w)
    requires RecordGate(libs, s.caches[worker], id, field, amount, w).0.Pass?
    ensures var decision := RecordGate(libs, s.caches[worker], id, field, amount, w).0;
            var s' := Next(libs, s, CheckRecord(worker, id, field, amount, w));
            var n, m := |s.requests|, |s.bypasses|;
            if decision.agent.None? then
              s'.requests == s.requests && s'.bypasses == s.bypasses + [Bypass(RECORD, TokenOf(field, w), FallbackMode(w.snapshot), false)]
            else
              && s'.bypasses == s.bypasses && |s'.requests| == n + 1 && s'.requests[..n] == s.requests
              && var r := s'.requests[n];
                 ConsumeWithFailureMode(r.id, r.creds, r.mode, w.backend) == Through(decision.flags)
  {
    hide Verify, PolicyStage, ConsumeWithFailureMode, IntentHash, DidResolver;
    match Verify(libs, s.caches[worker], RecordCall(libs, id, field, amount, w)).0
    case Accepted(ident) =>
      var stage := ConsumeWithFailureMode(ident, Creds(w.snapshot.value, w), FallbackMode(w.snapshot), w.backend);
      if stage.Through? {
        PolicyKeeps(w.snapshot.value, FallbackMode(w.snapshot), Some(ident.agentId), ident.trustScore, stage.flags, w);
      }
    case _ =>
  }

  lemma PolicyKeeps(s: Snapshot, mode: Text, agent: Option<Text>, trust: Option<Json>, flags: NonceFlags, w: World)
    ensures PolicyStage(s, mode, agent, trust, flags, w).Pass? ==> PolicyStage(s, mode, agent, trust, flags, w) == Pass(agent, flags)
  {
  }

  // --------------------------------------------------------------- invariant

  /** The identity in a request is the one its token attests, for the merchant it names. */
  ghost predicate FromToken(libs: Libs, r: Request) {
    && AfterNonce(libs, r.jws) == Accepted(r.id)
    && Parse(libs, r.jws).Some?
    && Get(Parse(libs, r.jws).value.payload, Chars("merchantId")) == Some(Str(r.creds.merchantId))
    && r.id.jti != [] && r.id.agentId != []
  }

  /** A verdict without a flag was earned by a 200. */
  predicate VerdictEarned(r: Request) {
    r.verdict == Some(Through(NoFlags)) ==> r.reply == Some(200)
  }

  /** In strict mode nothing passes with a flag. */
  predicate VerdictInMode(r: Request) {
    Strict(r.mode) && r.verdict.Some? && r.verdict.value.Through? ==> r.verdict.value.flags == NoFlags
  }

  ghost predicate RequestOk(libs: Libs, store: set<Key>, r: Request) {
    && FromToken(libs, r) && VerdictEarned(r) && VerdictInMode(r) && !CanRaise(libs, r.jws)
    && (r.reply == Some(200) ==> KeyOf(r) in store)
  }

  /** An unverified pass needs a token that can raise and a mode that is not strict; only the
      create gate passes a verified token without asking the backend. */
  ghost predicate BypassOk(libs: Libs, b: Bypass) {
    if b.verified then b.gate == CREATE && !CanRaise(libs, b.jws)
    else CanRaise(libs, b.jws) && !Strict(b.mode)
  }

  ghost predicate Invariant(libs: Libs, s: State) {
    && (forall i | 0 <= i < |s.requests| :: RequestOk(libs, s.store, s.requests[i]))
    && (forall i | 0 <= i < |s.bypasses| :: BypassOk(libs, s.bypasses[i]))
    && (forall i, j | 0 <= i < j < |s.requests| ::
          s.requests[i].reply == Some(200) && s.requests[j].reply == Some(200) ==>
            KeyOf(s.requests[i]) != KeyOf(s.requests[j]))
  }

  lemma CheckRecordKeepsInvariant(libs: Libs, s: State, step: Step)
    requires step.CheckRecord? && Invariant(libs, s) && Enabled(s, step)
    ensures Invariant(libs, Next(libs, s, step))
  {
    hide Verify, AfterNonce, CanRaise, NonceText, Parse, Get, Chars, IntentHash, DidResolver, HeaderHolds, SignatureHolds, WindowHolds;
    var cache, w := s.caches[step.worker], step.w;
    var call := RecordCall(libs, step.id, step.field, step.amount, w);
    OutcomeMeans(libs, cache, call);
    match Verify(libs, cache, call).0
    case Rejected =>
    case Raised =>
    case Accepted(ident) => AcceptedCannotRaise(libs, cache, call);
  }

  lemma CheckCreateKeepsInvariant(libs: Libs, s: State, step: Step)
    requires step.CheckCreate? && Invariant(libs, s) && Enabled(s, step)
    ensures Invariant(libs, Next(libs, s, step))
  {
    hide Verify, AfterNonce, CanRaise, NonceText, Parse, IntentHash, DidResolver, TokenChecks, SignedForMerchant, RaisesEarly, Attested, RequestOk;
    var cache, w := s.caches[step.worker], step.w;
    var call := CreateCall(libs, step.field, step.amount, w);
    OutcomeMeans(libs, cache, call);
    if Verify(libs, cache, call).0.Accepted? { AcceptedCannotRaise(libs, cache, call); }
  }

  lemma ServeKeepsInvariant(libs: Libs, s: State, step: Step)
    requires step.Serve? && Invariant(libs, s) && Enabled(s, step)
    ensures Invariant(libs, Next(libs, s, step))
  {
    hide AfterNonce, Parse, Get, Chars, CanRaise, ConsumeWithFailureMode;
    var s' := Next(libs, s, step);
    assert RequestOk(libs, s.store, s.requests[step.i]);
    forall i | 0 <= i < |s'.requests| ensures RequestOk(libs, s'.store, s'.requests[i]) {
      assert RequestOk(libs, s.store, s.requests[i]);
    }
    forall j | 0 <= j < |s'.requests| && j != step.i &&
               s'.requests[j].reply == Some(200) && s'.requests[step.i].reply == Some(200)
      ensures KeyOf(s'.requests[j]) != KeyOf(s'.requests[step.i])
    {
      assert RequestOk(libs, s.store, s.requests[j]);
    }
  }

  lemma SettleKeepsInvariant(libs: Libs, s: State, step: Step)
    requires step.Settle? && Invariant(libs, s) && Enabled(s, step)
    ensures Invariant(libs, Next(libs, s, step))
  {
    hide AfterNonce, Parse, Get, CanRaise;
    var s' := Next(libs, s, step);
    forall i | 0 <= i < |s'.requests| ensures RequestOk(libs, s'.store, s'.requests[i]) {
      assert RequestOk(libs, s.store, s.requests[i]);
    }
  }

  lemma StepKeepsInvariant(libs: Libs, s: State, step: Step)
    requires Invariant(libs, s) && Enabled(s, step)
    ensures Invariant(libs, Next(libs, s, step))
  {
    hide Next, Enabled, Invariant;
    match step
    case CheckRecord(_, _, _, _, _) => CheckRecordKeepsInvariant(libs, s, step);
    case CheckCreate(_, _, _, _) => CheckCreateKeepsInvariant(libs, s, step);
    case Serve(_, _, _) => ServeKeepsInvariant(libs, s, step);
    case Settle(_, _) => SettleKeepsInvariant(libs, s, step);
  }

  lemma {:induction false} ReachableInvariant(libs: Libs, steps: seq<Step>, s: State)
    requires Reachable(libs, steps, s)
    ensures Invariant(libs, s)
  {
    if steps != [] {
      var before, last := steps[..|steps| - 1], steps[|steps| - 1];
      var p :| Reachable(libs, before, p) && Enabled(p, last) && s == Next(libs, p, last);
      ReachableInvariant(libs, before, p);
      StepKeepsInvariant(libs, p, last);
    }
  }

  // ------------------------------------------------------------------- safety

  predicate Passed(s: State, i: nat) {
    i < |s.requests| && s.requests[i].verdict.Some? && s.requests[i].verdict.value.Through?
  }

  predicate PassedClean(s: State, i: nat) {
    Passed(s, i) && s.requests[i].verdict.value.flags == NoFlags
  }

  /** In every reachable state at most one gate run per (merchant, agent, jti) passed the
      nonce stage unflagged, whatever the modes, interleavings and losses; so every further
      pass carries the replay or the unavailable flag. */
  lemma CleanPassIsUnique(libs: Libs, steps: seq<Step>, s: State, i: nat, j: nat)
    requires Reachable(libs, steps, s) && i < j
    requires Passed(s, i) && Passed(s, j) && KeyOf(s.requests[i]) == KeyOf(s.requests[j])
    ensures !(PassedClean(s, i) && PassedClean(s, j))
    ensures PassedClean(s, i) ==> s.requests[j].verdict.value.flags in {ReplayFlags, UnavailableFlags}
    ensures PassedClean(s, j) ==> s.requests[i].verdict.value.flags in {ReplayFlags, UnavailableFlags}
  {
    hide Reachable, AfterNonce, Parse, Get, CanRaise;
    ReachableInvariant(libs, steps, s);
    assert RequestOk(libs, s.store, s.requests[i]) && RequestOk(libs, s.store, s.requests[j]);
  }

  /** In strict mode a (merchant, agent, jti) passes the nonce stage at most once. */
  lemma StrictPassesOnce(libs: Libs, steps: seq<Step>, s: State, i: nat, j: nat)
    requires Reachable(libs, steps, s) && i < j
    requires Passed(s, i) && Passed(s, j) && Strict(s.requests[i].mode) && Strict(s.requests[j].mode)
    ensures KeyOf(s.requests[i]) != KeyOf(s.requests[j])
  {
    hide Reachable, AfterNonce, Parse, Get, CanRaise;
    ReachableInvariant(libs, steps, s);
    assert RequestOk(libs, s.store, s.requests[i]) && RequestOk(libs, s.store, s.requests[j]);
  }

  /** One token, presented anywhere and at any time: the record gate's nonce stage lets it
      through at most once in strict mode and at most once unflagged. Its only other unflagged
      passes skip that stage because the verifier raised: never in strict mode, and never for
      a token that any record gate has verified. */
  lemma TokenPassesRecordOnce(libs: Libs, steps: seq<Step>, s: State, jws: AgentToken)
    requires Reachable(libs, steps, s)
    ensures forall i, j | 0 <= i < j < |s.requests| && s.requests[i].jws == s.requests[j].jws == jws ::
              && !(PassedClean(s, i) && PassedClean(s, j))
              && !(Passed(s, i) && Passed(s, j) && Strict(s.requests[i].mode) && Strict(s.requests[j].mode))
    ensures forall b | b in s.bypasses && b.gate == RECORD && b.jws == jws :: CanRaise(libs, jws) && !Strict(b.mode)
    ensures forall b, r | b in s.bypasses && r in s.requests && b.gate == RECORD :: b.jws != r.jws
  {
    hide Reachable, AfterNonce, Parse, Get, CanRaise;
    ReachableInvariant(libs, steps, s);
    forall i, j | 0 <= i < j < |s.requests| && s.requests[i].jws == s.requests[j].jws == jws
      ensures !(PassedClean(s, i) && PassedClean(s, j))
      ensures !(Passed(s, i) && Passed(s, j) && Strict(s.requests[i].mode) && Strict(s.requests[j].mode))
    {
      assert RequestOk(libs, s.store, s.requests[i]) && RequestOk(libs, s.store, s.requests[j]);
      assert KeyOf(s.requests[i]) == KeyOf(s.requests[j]);
    }
    forall b | b in s.bypasses ensures BypassOk(libs, b) {
      var i :| 0 <= i < |s.bypasses| && s.bypasses[i] == b;
    }
    forall r | r in s.requests ensures RequestOk(libs, s.store, r) {
      var i :| 0 <= i < |s.requests| && s.requests[i] == r;
    }
  }

  // -------------------------------------------------------- where it does not hold

  lemma ReachableStep(libs: Libs, steps: seq<Step>, s: State, step: Step)
    requires Reachable(libs, steps, s) && Enabled(s, step)
    ensures Reachable(libs, steps + [step], Next(libs, s, step))
  {
    hide Next, Enabled, Init;
    assert (steps + [step])[..|steps|] == steps;
  }

  predicate AllBypass(s: State, b: Bypass) {
    forall i | 0 <= i < |s.bypasses| :: s.bypasses[i] == b
  }

  /** n workers that have seen nothing yet. */
  function Fleet(n: nat): (caches: map<Worker, NonceCache>)
    ensures forall i: nat :: i in caches <==> i < n
    ensures forall i: nat | i < n :: caches[i] == map[]
  {
    if n == 0 then map[] else Fleet(n - 1)[n - 1 := map[]]
  }

  /** The create gate has no such bound, in any mode: for every n, n workers let one token
      through n times, and nothing flags any of these passes. */
  lemma {:induction false} CreatePassesOnEveryWorker(libs: Libs, field: AgentToken, amount: Text, w: World, n: nat, k: nat)
    returns (steps: seq<Step>, s: State)
    requires k <= n && MeetsToken(field, w) && ValsGate(libs, map[], field, amount, w).0.Pass?
    ensures Reachable(libs, steps, s) && |s.bypasses| == k && s.requests == [] && s.store == {}
    ensures |steps| == k && forall i | 0 <= i < k :: steps[i] == CheckCreate(i, field, amount, w)
    ensures AllBypass(s, Bypass(CREATE, TokenOf(field, w), FallbackMode(w.snapshot), ValsGate(libs, map[], field, amount, w).0.agent.Some?))
    ensures forall i: nat :: i in s.caches <==> i < n
    ensures forall i: nat | k <= i < n :: s.caches[i] == map[]
  {
    hide ValsGate, FallbackMode, TokenOf;
    if k == 0 {
      steps, s := [], State(Fleet(n), [], [], {});
      assert Init(s);
    } else {
      hide Reachable, Fleet;
      var before, p := CreatePassesOnEveryWorker(libs, field, amount, w, n, k - 1);
      var step := CheckCreate(k - 1, field, amount, w);
      steps, s := before + [step], Next(libs, p, step);
      ReachableStep(libs, before, p, step);
    }
  }

  /** Nor has the record gate, outside strict mode, for a token on which the verifier raises
      whatever the cache: for every n, one worker lets it through n times unflagged. */
  lemma {:induction false} RaisingTokenPassesEveryTime(libs: Libs, id: int, field: AgentToken, amount: Text, w: World, n: nat)
    returns (steps: seq<Step>, s: State)
    requires MeetsToken(field, w) && !Strict(FallbackMode(w.snapshot))
    requires RaisesAlways(libs, RecordCall(libs, id, field, amount, w))
    ensures Reachable(libs, steps, s) && |s.bypasses| == n && s.requests == [] && 0 in s.caches
    ensures AllBypass(s, Bypass(RECORD, TokenOf(field, w), FallbackMode(w.snapshot), false))
  {
    hide Verify, RaisesAlways;
    if n == 0 {
      steps, s := [], State(map[0 := map[]], [], [], {});
    } else {
      var before, p := RaisingTokenPassesEveryTime(libs, id, field, amount, w, n - 1);
      var step := CheckRecord(0, id, field, amount, w);
      RaisesAlwaysIff(libs, RecordCall(libs, id, field, amount, w));
      steps, s := before + [step], Next(libs, p, step);
      ReachableStep(libs, before, p, step);
    }
  }

  /** The token is no text, the claims overflow, or all checks hold and the nonce text cannot
      be encoded. */
  predicate RaisesAlways(libs: Libs, call: Call) {
    RaisesEarly(libs, call) || (ReachesNonce(libs, call) && !Encodable(NonceText(libs, call.jws)))
  }

  lemma RaisesAlwaysIff(libs: Libs, call: Call)
    ensures RaisesAlways(libs, call) <==> forall cache :: Verify(libs, cache, call).0.Raised?
  {
    hide RaisesEarly, ReachesNonce, Encodable, NonceText, AfterNonce;
    if !RaisesAlways(libs, call) {
      RaisedIff(libs, map[libs.sha256(NonceText(libs, call.jws)) := call.now + 1.0], call);
    }
  }
}
