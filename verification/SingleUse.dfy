/**
 What single use of a token comes to at the entry paths: two confirmations with one token by
 one worker, and by any number of workers that share orders and backend.
 */
module SingleUse {
  import opened Texts
  import opened Json
  import opened TokenVerifier
  import opened NonceStage
  import opened EnforcementGate
  import opened SaleOrders
  import Protocol = ReplayProtocol

  // -------------------------------------------------- the gate runs of a step

  /** How many gate runs a step makes when nothing blocks. */
  function RunCount(step: Step): nat {
    match step
    case Confirm(ids, _) => |ids|
    case Create(_, vals, _) => |vals|
    case Write(ids, patch, _) => if patch.state == Some(Sale) then |ids| else 0
  }

  /** Whether the runs before the i-th one all passed, and the cache they left to it. */
  function BeforeGate(libs: Libs, d: Desk, step: Step, i: nat): (bool, NonceCache)
    requires Legal(d, step) && i <= RunCount(step)
  {
    match step
    case Confirm(ids, ws) => BeforeRun(libs, d, ids, ws, i)
    case Create(_, vals, ws) => BeforeValsRun(libs, d.cache, vals, ws, i)
    case Write(ids, patch, ws) => if patch.state == Some(Sale) then BeforeRun(libs, d, ids, ws, i) else (true, d.cache)
  }

  /** The i-th gate run on a given cache. */
  function GateRun(libs: Libs, d: Desk, step: Step, i: nat, cache: NonceCache): (Decision, NonceCache)
    requires Legal(d, step) && i < RunCount(step)
  {
    match step
    case Confirm(ids, ws) => RecordRun(libs, d, ids[i], ws[i], cache)
    case Create(_, vals, ws) => ValsRun(libs, vals[i], ws[i], cache)
    case Write(ids, _, ws) => RecordRun(libs, d, ids[i], ws[i], cache)
  }

  function RecordRun(libs: Libs, d: Desk, id: int, w: World, cache: NonceCache): (Decision, NonceCache)
    requires id in d.orders
  {
    RecordGate(libs, cache, id, Jws(d.orders[id].token), d.orders[id].amount, w)
  }

  function WorldOf(step: Step, i: nat): World
    requires i < |step.ws|
  {
    step.ws[i]
  }

  function IdOf(step: Step, i: nat): int
    requires i < |if step.Create? then step.newIds else step.ids|
  {
    if step.Create? then step.newIds[i] else step.ids[i]
  }

  /** The token the i-th run is shown. */
  function ShownToken(d: Desk, step: Step, i: nat): AgentToken
    requires Legal(d, step) && i < RunCount(step)
  {
    match step
    case Confirm(ids, ws) => TokenOf(Jws(d.orders[ids[i]].token), ws[i])
    case Create(_, vals, ws) => TokenOf(vals[i].token, ws[i])
    case Write(ids, _, ws) => TokenOf(Jws(d.orders[ids[i]].token), ws[i])
  }

  lemma {:induction false} BatchSnoc(libs: Libs, d: Desk, ids: seq<int>, ws: seq<World>, i: nat)
    requires Known(d, ids) && |ws| == |ids| && i < |ids|
    ensures var (ok, cache) := BeforeRun(libs, d, ids, ws, i);
            var (decision, cache') := RecordRun(libs, d, ids[i], ws[i], cache);
            BeforeRun(libs, d, ids, ws, i + 1) == (if ok then (decision.Pass?, cache') else (ok, cache))
    decreases i
  {
    hide RecordGate, BeforeRun;
    BeforeRunStep(libs, d, ids, ws, i + 1);
    var (decision, d') := EnforceOne(libs, d, ids[0], ws[0]);
    if i == 0 {
      FirstRun(libs, d, ids, ws);
      BeforeNothing(libs, d', ids[1..], ws[1..]);
    } else {
      BeforeRunStep(libs, d, ids, ws, i);
      if decision.Pass? {
        BatchSnoc(libs, d', ids[1..], ws[1..], i - 1);
        assert ids[1..][i - 1] == ids[i] && ws[1..][i - 1] == ws[i];
        assert SameButDid(d.orders[ids[i]], d'.orders[ids[i]]);
      }
    }
  }

  lemma BeforeNothing(libs: Libs, d: Desk, ids: seq<int>, ws: seq<World>)
    requires Known(d, ids) && |ws| == |ids|
    ensures BeforeRun(libs, d, ids, ws, 0) == (true, d.cache)
  {
    assert ids[..0] == [];
  }

  /** A create in another state than sale is not gated. */
  function ValsRun(libs: Libs, v: Vals, w: World, cache: NonceCache): (Decision, NonceCache) {
    if v.state == Some(Sale) then ValsGate(libs, cache, v.token, v.amount, w) else (Pass(None, NoFlags), cache)
  }

  lemma ValsFirst(libs: Libs, cache: NonceCache, vals: seq<Vals>, ws: seq<World>)
    requires |ws| == |vals| && vals != []
    ensures var (decision, cache') := ValsRun(libs, vals[0], ws[0], cache);
            EnforceAllVals(libs, cache, vals, ws) ==
            (if decision.Pass? then EnforceAllVals(libs, cache', vals[1..], ws[1..]) else (false, cache'))
  {
    hide ValsGate;
    if vals[0].state == Some(Sale) {
      var (decision, cache') := ValsGate(libs, cache, vals[0].token, vals[0].amount, ws[0]);
      assert decision.Pass? || decision.Block?;
    } else {
      assert ValsRun(libs, vals[0], ws[0], cache) == (Pass(None, NoFlags), cache);
      assert EnforceAllVals(libs, cache, vals, ws) == EnforceAllVals(libs, cache, vals[1..], ws[1..]);
    }
  }

  lemma {:induction false} ValsSnoc(libs: Libs, cache: NonceCache, vals: seq<Vals>, ws: seq<World>, i: nat)
    requires |ws| == |vals| && i < |vals|
    ensures var (ok, met) := BeforeValsRun(libs, cache, vals, ws, i);
            var (decision, cache') := ValsRun(libs, vals[i], ws[i], met);
            BeforeValsRun(libs, cache, vals, ws, i + 1) == (if ok then (decision.Pass?, cache') else (ok, met))
    decreases i
  {
    hide ValsRun;
    ValsFirst(libs, cache, vals[..i + 1], ws[..i + 1]);
    var (decision, cache') := ValsRun(libs, vals[0], ws[0], cache);
    assert vals[..i + 1][1..] == vals[1..][..i] && ws[..i + 1][1..] == ws[1..][..i];
    if i == 0 {
      assert vals[1..][..0] == [] && ws[1..][..0] == [] && vals[..0] == [] && ws[..0] == [];
      assert EnforceAllVals(libs, cache', [], []) == (true, cache');
    } else {
      ValsFirst(libs, cache, vals[..i], ws[..i]);
      assert vals[..i][1..] == vals[1..][..i - 1] && ws[..i][1..] == ws[1..][..i - 1];
      if decision.Pass? { ValsSnoc(libs, cache', vals[1..], ws[1..], i - 1); }
    }
  }

  /** One run after the other. */
  lemma GateSnoc(libs: Libs, d: Desk, step: Step, i: nat)
    requires Legal(d, step) && i < RunCount(step)
    ensures var (ok, cache) := BeforeGate(libs, d, step, i);
            var (decision, cache') := GateRun(libs, d, step, i, cache);
            BeforeGate(libs, d, step, i + 1) == (if ok then (decision.Pass?, cache') else (ok, cache))
  {
    hide RecordRun, ValsRun, BeforeRun, BeforeValsRun;
    match step
    case Confirm(ids, ws) => BatchSnoc(libs, d, ids, ws, i);
    case Create(_, vals, ws) => ValsSnoc(libs, d.cache, vals, ws, i);
    case Write(ids, _, ws) => BatchSnoc(libs, d, ids, ws, i);
  }

  lemma GateEnds(libs: Libs, d: Desk, step: Step)
    requires Legal(d, step)
    ensures BeforeGate(libs, d, step, 0) == (true, d.cache)
    ensures StepResult(libs, d, step).1.cache == BeforeGate(libs, d, step, RunCount(step)).1
  {
    hide EnforceOne, ValsGate;
    match step
    case Confirm(ids, ws) => BeforeNothing(libs, d, ids, ws); assert ids[..|ids|] == ids && ws[..|ws|] == ws;
    case Create(_, vals, ws) => assert vals[..|vals|] == vals && ws[..|ws|] == ws;
    case Write(ids, _, ws) => BeforeNothing(libs, d, ids, ws); assert ids[..|ids|] == ids && ws[..|ws|] == ws;
  }

  // ------------------------------------------------- one worker, 300 seconds

  /** The key is in the cache and stays there until then. */
  predicate Alive(cache: NonceCache, key: Text, until: real) {
    key in cache && until <= cache[key]
  }

  lemma VerifyKeepsAlive(libs: Libs, cache: NonceCache, call: Call, key: Text, until: real)
    requires Alive(cache, key, until) && call.now < until
    ensures Alive(Verify(libs, cache, call).1, key, until)
    ensures key == libs.sha256(NonceText(libs, call.jws)) ==> !Verify(libs, cache, call).0.Accepted?
  {
    hide ReachesNonce, RaisesEarly, NonceText, AfterNonce, Encodable;
  }

  lemma VerifyMakesAlive(libs: Libs, cache: NonceCache, call: Call)
    requires Verify(libs, cache, call).0.Accepted?
    ensures Alive(Verify(libs, cache, call).1, libs.sha256(NonceText(libs, call.jws)), call.now + NONCE_TTL)
  {
    hide ReachesNonce, RaisesEarly, NonceText, AfterNonce, Encodable;
  }

  /** The i-th run takes place and passes with an agent, so with a token it has verified. */
  predicate VerifiedAt(libs: Libs, d: Desk, step: Step, i: nat, token: AgentToken)
    requires Legal(d, step) && i < RunCount(step)
  {
    var (ok, cache) := BeforeGate(libs, d, step, i);
    var decision := GateRun(libs, d, step, i, cache).0;
    ok && decision.Pass? && decision.agent.Some? && ShownToken(d, step, i) == token
  }

  function NonceKey(libs: Libs, token: AgentToken): Text {
    libs.sha256(NonceText(libs, token))
  }

  lemma RecordGateAlive(libs: Libs, cache: NonceCache, id: int, field: AgentToken, amount: Text, w: World, key: Text, until: real)
    ensures var (decision, cache') := RecordGate(libs, cache, id, field, amount, w);
            && (Alive(cache, key, until) && w.now < until ==> Alive(cache', key, until))
            && (decision.Pass? && decision.agent.Some? ==>
                  && Alive(cache', NonceKey(libs, TokenOf(field, w)), w.now + NONCE_TTL)
                  && (key == NonceKey(libs, TokenOf(field, w)) && Alive(cache, key, until) ==> until <= w.now))
  {
    hide Verify, Alive, PolicyStage, ConsumeWithFailureMode, IntentHash, DidResolver, NonceText;
    if w.snapshot.Some? && TokenOf(field, w) != NO_TOKEN {
      var call := RecordCall(libs, id, field, amount, w);
      if Alive(cache, key, until) && w.now < until { VerifyKeepsAlive(libs, cache, call, key, until); }
      if Verify(libs, cache, call).0.Accepted? { VerifyMakesAlive(libs, cache, call); }
    } else if w.snapshot.Some? {
      Protocol.PolicyKeeps(w.snapshot.value, FallbackMode(w.snapshot), None, None, NoFlags, w);
    }
  }

  lemma ValsGateAlive(libs: Libs, cache: NonceCache, field: AgentToken, amount: Text, w: World, key: Text, until: real)
    ensures var (decision, cache') := ValsGate(libs, cache, field, amount, w);
            && (Alive(cache, key, until) && w.now < until ==> Alive(cache', key, until))
            && (decision.Pass? && decision.agent.Some? ==>
                  && Alive(cache', NonceKey(libs, TokenOf(field, w)), w.now + NONCE_TTL)
                  && (key == NonceKey(libs, TokenOf(field, w)) && Alive(cache, key, until) ==> until <= w.now))
  {
    hide Verify, Alive, IntentHash, DidResolver, NonceText;
    if w.snapshot.Some? && TokenOf(field, w) != NO_TOKEN {
      var call := CreateCall(libs, field, amount, w);
      if Alive(cache, key, until) && w.now < until { VerifyKeepsAlive(libs, cache, call, key, until); }
      if Verify(libs, cache, call).0.Accepted? { VerifyMakesAlive(libs, cache, call); }
    }
  }

  lemma GateRunAlive(libs: Libs, d: Desk, step: Step, i: nat, cache: NonceCache, key: Text, until: real)
    requires Legal(d, step) && i < RunCount(step)
    ensures var (decision, cache') := GateRun(libs, d, step, i, cache);
            var now := WorldOf(step, i).now;
            && (Alive(cache, key, until) && now < until ==> Alive(cache', key, until))
            && (decision.Pass? && decision.agent.Some? ==>
                  && Alive(cache', NonceKey(libs, ShownToken(d, step, i)), now + NONCE_TTL)
                  && (key == NonceKey(libs, ShownToken(d, step, i)) && Alive(cache, key, until) ==> until <= now))
  {
    hide RecordGate, ValsGate, Alive, NonceText, TokenOf;
    match step
    case Confirm(ids, ws) =>
      RecordGateAlive(libs, cache, ids[i], Jws(d.orders[ids[i]].token), d.orders[ids[i]].amount, ws[i], key, until);
    case Create(_, vals, ws) =>
      if vals[i].state == Some(Sale) { ValsGateAlive(libs, cache, vals[i].token, vals[i].amount, ws[i], key, until); }
    case Write(ids, _, ws) =>
      RecordGateAlive(libs, cache, ids[i], Jws(d.orders[ids[i]].token), d.orders[ids[i]].amount, ws[i], key, until);
  }

  /** From one run of a step to a later one, nothing removes a key that is alive throughout. */
  lemma {:induction false} StepKeepsAlive(libs: Libs, d: Desk, step: Step, a: nat, b: nat, key: Text, until: real)
    requires Legal(d, step) && a <= b <= RunCount(step)
    requires Alive(BeforeGate(libs, d, step, a).1, key, until)
    requires forall i | a <= i < b :: WorldOf(step, i).now < until
    ensures Alive(BeforeGate(libs, d, step, b).1, key, until)
    decreases b - a
  {
    hide BeforeGate, GateRun, Alive, Legal;
    if a < b {
      GateSnoc(libs, d, step, a);
      GateRunAlive(libs, d, step, a, BeforeGate(libs, d, step, a).1, key, until);
      StepKeepsAlive(libs, d, step, a + 1, b, key, until);
    }
  }

  /** The clock of the gate runs does not go back, within a step and from step to step. */
  predicate ClockForward(steps: seq<Step>) {
    forall j, a, k, b |
      0 <= j <= k < |steps| && 0 <= a < |steps[j].ws| && 0 <= b < |steps[k].ws| && (j < k || a <= b) ::
      WorldOf(steps[j], a).now <= WorldOf(steps[k], b).now
  }

  /** A key alive before a run of step j is alive before a run of step k, if time allows. */
  lemma {:induction false} RunKeepsAlive(libs: Libs, d: Desk, steps: seq<Step>, j: nat, a: nat, k: nat, b: nat,
                                         key: Text, until: real)
    requires LegalRun(libs, d, steps) && j <= k < |steps| && ClockForward(steps)
    requires Legal(DeskAt(libs, d, steps, j), steps[j]) && Legal(DeskAt(libs, d, steps, k), steps[k])
    requires a <= RunCount(steps[j]) && b < RunCount(steps[k]) && (j == k ==> a <= b)
    requires b < |steps[k].ws| && WorldOf(steps[k], b).now < until
    requires Alive(BeforeGate(libs, DeskAt(libs, d, steps, j), steps[j], a).1, key, until)
    ensures Alive(BeforeGate(libs, DeskAt(libs, d, steps, k), steps[k], b).1, key, until)
    decreases k - j
  {
    hide BeforeGate, GateRun, Alive, Legal, StepResult, DeskAt;
    var dj := DeskAt(libs, d, steps, j);
    RunsHaveWorlds(dj, steps[j]);
    if j == k {
      StepKeepsAlive(libs, dj, steps[j], a, b, key, until);
    } else {
      StepKeepsAlive(libs, dj, steps[j], a, RunCount(steps[j]), key, until);
      GateEnds(libs, dj, steps[j]);
      DeskAtLegal(libs, d, steps, j);
      DeskAtLegal(libs, d, steps, j + 1);
      GateEnds(libs, DeskAt(libs, d, steps, j + 1), steps[j + 1]);
      RunKeepsAlive(libs, d, steps, j + 1, 0, k, b, key, until);
    }
  }

  lemma RunsHaveWorlds(d: Desk, step: Step)
    requires Legal(d, step)
    ensures RunCount(step) <= |step.ws|
  {
  }

  /** Over any run of one worker with a clock that does not go back, two gate runs, in one step
      or two, that pass with one verified token lie at least 300 s apart. */
  lemma VerifiedPassesApart(libs: Libs, d: Desk, steps: seq<Step>, j: nat, a: nat, k: nat, b: nat, token: AgentToken)
    requires LegalRun(libs, d, steps) && j <= k < |steps| && ClockForward(steps)
    requires Legal(DeskAt(libs, d, steps, j), steps[j]) && Legal(DeskAt(libs, d, steps, k), steps[k])
    requires a < RunCount(steps[j]) && b < RunCount(steps[k]) && (j == k ==> a < b)
    requires VerifiedAt(libs, DeskAt(libs, d, steps, j), steps[j], a, token)
    requires VerifiedAt(libs, DeskAt(libs, d, steps, k), steps[k], b, token)
    ensures a < |steps[j].ws| && b < |steps[k].ws|
    ensures WorldOf(steps[j], a).now + NONCE_TTL <= WorldOf(steps[k], b).now
  {
    hide BeforeGate, GateRun, Alive, Legal, StepResult, DeskAt, LegalRun, ShownToken;
    var dj, dk := DeskAt(libs, d, steps, j), DeskAt(libs, d, steps, k);
    RunsHaveWorlds(dj, steps[j]);
    RunsHaveWorlds(dk, steps[k]);
    var key, until := NonceKey(libs, token), WorldOf(steps[j], a).now + NONCE_TTL;
    GateSnoc(libs, dj, steps[j], a);
    GateRunAlive(libs, dj, steps[j], a, BeforeGate(libs, dj, steps[j], a).1, key, until);
    if WorldOf(steps[k], b).now < until {
      RunKeepsAlive(libs, d, steps, j, a + 1, k, b, key, until);
      GateRunAlive(libs, dk, steps[k], b, BeforeGate(libs, dk, steps[k], b).1, key, until);
    }
  }

  /** Every gate run this step makes for the order meets a snapshot and this token. */
  ghost predicate Shows(d: Desk, step: Step, id: int, token: AgentToken)
    requires Legal(d, step)
  {
    RunsHaveWorlds(d, step);
    forall i | 0 <= i < RunCount(step) && IdOf(step, i) == id :: ShownToken(d, step, i) == token && WorldOf(step, i).snapshot.Some?
  }

  /** A gate that met a snapshot and a token on which the verifier cannot raise names an agent
      when it passes. */
  lemma RecordPassIsVerified(libs: Libs, cache: NonceCache, id: int, field: AgentToken, amount: Text, w: World)
    requires w.snapshot.Some? && TokenOf(field, w) != NO_TOKEN && !CanRaise(libs, TokenOf(field, w))
    requires RecordGate(libs, cache, id, field, amount, w).0.Pass?
    ensures RecordGate(libs, cache, id, field, amount, w).0.agent.Some?
  {
    hide RecordGate, CanRaise, Vouched;
    PassMeansChecked(libs, cache, id, field, amount, w);
  }

  lemma ValsPassIsVerified(libs: Libs, cache: NonceCache, field: AgentToken, amount: Text, w: World)
    requires w.snapshot.Some? && TokenOf(field, w) != NO_TOKEN && !CanRaise(libs, TokenOf(field, w))
    requires ValsGate(libs, cache, field, amount, w).0.Pass?
    ensures ValsGate(libs, cache, field, amount, w).0.agent.Some?
  {
    hide ValsGate, CanRaise, Vouched;
    ValsPassMeansChecked(libs, cache, field, amount, w);
  }

  /** The run that let a confirmed order through. */
  lemma ConfirmingRun(libs: Libs, d: Desk, step: Step, id: int) returns (i: nat)
    requires Legal(d, step) && !IsSale(d, id) && IsSale(StepResult(libs, d, step).1, id)
    ensures i < RunCount(step) && IdOf(step, i) == id && (step.Create? ==> step.vals[i].state == Some(Sale))
    ensures BeforeGate(libs, d, step, i).0 && GateRun(libs, d, step, i, BeforeGate(libs, d, step, i).1).0.Pass?
  {
    ConfirmedWasLetThrough(libs, d, step, id);
    hide StepResult, BeforeRun, BeforeValsRun, RecordGate, ValsGate;
    match step
    case Confirm(ids, ws) =>
      i :| 0 <= i < |ids| && ids[i] == id && PassedAt(libs, d, ids, ws, i, d.orders[id].token, d.orders[id].amount);
    case Create(ids, vals, ws) =>
      i :| 0 <= i < |ids| && ids[i] == id && vals[i].state == Some(Sale) && PassedValsAt(libs, d.cache, vals, ws, i);
    case Write(ids, patch, ws) =>
      i :| 0 <= i < |ids| && ids[i] == id && PassedAt(libs, d, ids, ws, i, d.orders[id].token, d.orders[id].amount);
  }

  lemma ConfirmingRunVerified(libs: Libs, d: Desk, step: Step, id: int, token: AgentToken) returns (i: nat)
    requires Legal(d, step) && !IsSale(d, id) && IsSale(StepResult(libs, d, step).1, id)
    requires Shows(d, step, id, token) && token != NO_TOKEN && !CanRaise(libs, token)
    ensures i < RunCount(step) && IdOf(step, i) == id && VerifiedAt(libs, d, step, i, token)
  {
    i := ConfirmingRun(libs, d, step, id);
    hide StepResult, BeforeGate, RecordGate, ValsGate, CanRaise;
    var cache := BeforeGate(libs, d, step, i).1;
    assert ShownToken(d, step, i) == token && WorldOf(step, i).snapshot.Some?;
    if step.Create? {
      ValsPassIsVerified(libs, cache, step.vals[i].token, step.vals[i].amount, step.ws[i]);
    } else {
      var o := d.orders[step.ids[i]];
      RecordPassIsVerified(libs, cache, step.ids[i], Jws(o.token), o.amount, step.ws[i]);
    }
  }

  /** Two steps of one worker that confirm orders with one token, on which the verifier cannot
      raise, do so by gate runs at least 300 s apart, whichever entry paths they take. */
  lemma ConfirmationsApart(libs: Libs, d: Desk, steps: seq<Step>, j: nat, id: int, k: nat, id': int, token: AgentToken)
    returns (a: nat, b: nat)
    requires LegalRun(libs, d, steps) && j < k < |steps| && ClockForward(steps)
    requires !IsSale(DeskAt(libs, d, steps, j), id) && IsSale(DeskAt(libs, d, steps, j + 1), id)
    requires !IsSale(DeskAt(libs, d, steps, k), id') && IsSale(DeskAt(libs, d, steps, k + 1), id')
    requires Legal(DeskAt(libs, d, steps, j), steps[j]) && Shows(DeskAt(libs, d, steps, j), steps[j], id, token)
    requires Legal(DeskAt(libs, d, steps, k), steps[k]) && Shows(DeskAt(libs, d, steps, k), steps[k], id', token)
    requires token != NO_TOKEN && !CanRaise(libs, token)
    ensures a < |steps[j].ws| && b < |steps[k].ws|
    ensures a < RunCount(steps[j]) && IdOf(steps[j], a) == id && b < RunCount(steps[k]) && IdOf(steps[k], b) == id'
    ensures WorldOf(steps[j], a).now + NONCE_TTL <= WorldOf(steps[k], b).now
  {
    hide StepResult, LegalRun, DeskAt, Shows, CanRaise, VerifiedAt;
    DeskAtLegal(libs, d, steps, j);
    DeskAtLegal(libs, d, steps, k);
    a := ConfirmingRunVerified(libs, DeskAt(libs, d, steps, j), steps[j], id, token);
    b := ConfirmingRunVerified(libs, DeskAt(libs, d, steps, k), steps[k], id', token);
    VerifiedPassesApart(libs, d, steps, j, a, k, b, token);
  }

  // ------------------------------------------- many workers and one backend

  /** Orders and consumed jtis are shared, each worker has its own cache. */
  datatype Shop = Shop(orders: map<int, SaleOrder>, caches: map<Protocol.Worker, NonceCache>, store: set<Protocol.Key>)

  /** A worker takes a step; `others` is what the backend stores in the meantime besides, say
      for requests nobody waits for any more. */
  datatype Turn = Turn(worker: Protocol.Worker, step: Step, others: set<Protocol.Key>)

  function DeskOf(s: Shop, worker: Protocol.Worker): Desk
    requires worker in s.caches
  {
    Desk(s.orders, s.caches[worker])
  }

  /** What the i-th gate run asks the backend to consume, if it gets that far. */
  function Asks(libs: Libs, d: Desk, step: Step, i: nat): Option<Protocol.Key>
    requires Legal(d, step) && i < RunCount(step)
  {
    var (ok, cache) := BeforeGate(libs, d, step, i);
    if !ok || step.Create? || WorldOf(step, i).snapshot.None? || WorldOf(step, i).snapshot.value.killSwitch ||
       ShownToken(d, step, i) == NO_TOKEN then None
    else
      var o, s := d.orders[step.ids[i]], WorldOf(step, i).snapshot.value;
      var creds := Creds(s, WorldOf(step, i));
      match Verify(libs, cache, RecordCall(libs, step.ids[i], Jws(o.token), o.amount, WorldOf(step, i))).0
      case Accepted(ident) =>
        if Contacts(creds) && creds.hmacSecret != [] && Writable(creds, ident.exp)
        then Some(Protocol.Key(s.merchantId, ident.agentId, ident.jti)) else None
      case _ => None
  }

  /** The jtis consumed before the i-th run: those of the earlier runs that were answered 200. */
  function StoreBefore(libs: Libs, d: Desk, step: Step, store: set<Protocol.Key>, i: nat): set<Protocol.Key>
    requires Legal(d, step) && i <= RunCount(step)
  {
    if i == 0 then store
    else
      var before := StoreBefore(libs, d, step, store, i - 1);
      match Asks(libs, d, step, i - 1)
      case Some(key) => if WorldOf(step, i - 1).backend == Status(200) then before + {key} else before
      case None => before
  }

  /** The backend answers 200 only for what it newly stores. */
  ghost predicate Honest(libs: Libs, d: Desk, step: Step, store: set<Protocol.Key>)
    requires Legal(d, step)
  {
    RunsHaveWorlds(d, step);
    forall i | 0 <= i < RunCount(step) && Asks(libs, d, step, i).Some? && WorldOf(step, i).backend == Status(200) ::
      Asks(libs, d, step, i).value !in StoreBefore(libs, d, step, store, i)
  }

  ghost predicate Possible(libs: Libs, s: Shop, t: Turn) {
    t.worker in s.caches && Legal(DeskOf(s, t.worker), t.step) && Honest(libs, DeskOf(s, t.worker), t.step, s.store)
  }

  function After(libs: Libs, s: Shop, t: Turn): Shop
    requires t.worker in s.caches && Legal(DeskOf(s, t.worker), t.step)
  {
    var d := DeskOf(s, t.worker);
    var d' := StepResult(libs, d, t.step).1;
    Shop(d'.orders, s.caches[t.worker := d'.cache], StoreBefore(libs, d, t.step, s.store, RunCount(t.step)) + t.others)
  }

  ghost predicate PossibleRun(libs: Libs, s: Shop, turns: seq<Turn>)
    decreases |turns|
  {
    turns == [] || (Possible(libs, s, turns[0]) && PossibleRun(libs, After(libs, s, turns[0]), turns[1..]))
  }

  function ShopAt(libs: Libs, s: Shop, turns: seq<Turn>, j: nat): Shop
    requires PossibleRun(libs, s, turns) && j <= |turns|
    decreases j
  {
    if j == 0 then s else ShopAt(libs, After(libs, s, turns[0]), turns[1..], j - 1)
  }

  lemma {:induction false} ShopAtPossible(libs: Libs, s: Shop, turns: seq<Turn>, j: nat)
    requires PossibleRun(libs, s, turns) && j < |turns|
    ensures Possible(libs, ShopAt(libs, s, turns, j), turns[j])
    ensures ShopAt(libs, s, turns, j + 1) == After(libs, ShopAt(libs, s, turns, j), turns[j])
    decreases j
  {
    hide After, Honest;
    if j > 0 { ShopAtPossible(libs, After(libs, s, turns[0]), turns[1..], j - 1); }
  }

  /** The i-th run is one of the record gate, in strict mode and with a token, and it passes. */
  predicate StrictPass(libs: Libs, d: Desk, step: Step, i: nat, token: AgentToken)
    requires Legal(d, step) && i < RunCount(step)
  {
    RunsHaveWorlds(d, step);
    && !step.Create? && token != NO_TOKEN && ShownToken(d, step, i) == token
    && WorldOf(step, i).snapshot.Some? && Strict(FallbackMode(WorldOf(step, i).snapshot))
    && BeforeGate(libs, d, step, i).0 && GateRun(libs, d, step, i, BeforeGate(libs, d, step, i).1).0.Pass?
  }

  /** The key a token is consumed under is its own. */
  function KeyOfToken(libs: Libs, token: AgentToken): Option<Protocol.Key> {
    match (AfterNonce(libs, token), Parse(libs, token))
    case (Accepted(ident), Some(tok)) =>
      (match Get(tok.payload, Chars("merchantId"))
       case Some(Str(m)) => Some(Protocol.Key(m, ident.agentId, ident.jti))
       case _ => None)
    case _ => None
  }

  lemma KeyOfVerified(libs: Libs, call: Call)
    requires SignedForMerchant(libs, call) && AfterNonce(libs, call.jws).Accepted?
    ensures var ident := AfterNonce(libs, call.jws).id;
            KeyOfToken(libs, call.jws) == Some(Protocol.Key(call.merchantId, ident.agentId, ident.jti))
  {
    hide AfterNonce, HeaderHolds, SignatureHolds, Chars, Get;
  }

  lemma StrictRecordPassAsks(libs: Libs, cache: NonceCache, id: int, field: AgentToken, amount: Text, w: World)
    requires w.snapshot.Some? && TokenOf(field, w) != NO_TOKEN && Strict(FallbackMode(w.snapshot))
    requires RecordGate(libs, cache, id, field, amount, w).0.Pass?
    ensures var outcome, creds := Verify(libs, cache, RecordCall(libs, id, field, amount, w)).0, Creds(w.snapshot.value, w);
            && !w.snapshot.value.killSwitch && w.backend == Status(200) && outcome.Accepted?
            && Contacts(creds) && creds.hmacSecret != [] && Writable(creds, outcome.id.exp)
            && KeyOfToken(libs, TokenOf(field, w)) == Some(Protocol.Key(w.snapshot.value.merchantId, outcome.id.agentId, outcome.id.jti))
  {
    hide Verify, PolicyStage, IntentHash, DidResolver, AfterNonce, SignedForMerchant, TokenChecks, RaisesEarly, CanRaise, Attested, KeyOfToken, ConsumeNonce, Contacts, Writable;
    var call := RecordCall(libs, id, field, amount, w);
    OutcomeMeans(libs, cache, call);
    var outcome := Verify(libs, cache, call).0;
    if outcome.Accepted? {
      AttestedIdentity(libs, call, outcome.id);
      KeyOfVerified(libs, call);
    }
  }

  lemma AttestedIdentity(libs: Libs, call: Call, ident: Identity)
    requires Attested(libs, call, ident)
    ensures SignedForMerchant(libs, call) && ident.jti != [] && ident.agentId != []
  {
    hide SignedForMerchant, ClaimsHold, Nonce, GetOr;
  }

  /** A strict pass consumes the key of its token. */
  lemma StrictPassConsumes(libs: Libs, d: Desk, step: Step, i: nat, token: AgentToken)
    requires Legal(d, step) && i < RunCount(step) && StrictPass(libs, d, step, i, token)
    ensures i < |step.ws| && Asks(libs, d, step, i).Some? && Asks(libs, d, step, i) == KeyOfToken(libs, token)
    ensures WorldOf(step, i).backend == Status(200)
  {
    hide BeforeGate, RecordGate, Verify, KeyOfToken, Contacts, Writable;
    var o, w := d.orders[step.ids[i]], WorldOf(step, i);
    StrictRecordPassAsks(libs, BeforeGate(libs, d, step, i).1, step.ids[i], Jws(o.token), o.amount, w);
  }

  lemma {:induction false} StoreGrows(libs: Libs, d: Desk, step: Step, store: set<Protocol.Key>, i: nat, j: nat)
    requires Legal(d, step) && i <= j <= RunCount(step)
    ensures store <= StoreBefore(libs, d, step, store, i) <= StoreBefore(libs, d, step, store, j)
    decreases j
  {
    hide Asks;
    if i < j {
      StoreGrows(libs, d, step, store, i, j - 1);
    } else if j > 0 {
      StoreGrows(libs, d, step, store, i - 1, j - 1);
    }
  }

  lemma {:induction false} ShopStoreGrows(libs: Libs, s: Shop, turns: seq<Turn>, j: nat, k: nat)
    requires PossibleRun(libs, s, turns) && j <= k <= |turns|
    ensures ShopAt(libs, s, turns, j).store <= ShopAt(libs, s, turns, k).store
    decreases k
  {
    hide ShopAt, PossibleRun, StepResult, StoreBefore;
    if j < k {
      ShopStoreGrows(libs, s, turns, j, k - 1);
      ShopAtPossible(libs, s, turns, k - 1);
      var before, t := ShopAt(libs, s, turns, k - 1), turns[k - 1];
      StoreGrows(libs, DeskOf(before, t.worker), t.step, before.store, 0, RunCount(t.step));
    }
  }

  /** What is consumed after one run is consumed before every later one. */
  lemma StoreBetween(libs: Libs, s: Shop, turns: seq<Turn>, j: nat, a: nat, k: nat, b: nat)
    requires PossibleRun(libs, s, turns) && j <= k < |turns|
    requires Possible(libs, ShopAt(libs, s, turns, j), turns[j]) && Possible(libs, ShopAt(libs, s, turns, k), turns[k])
    requires a < RunCount(turns[j].step) && b < RunCount(turns[k].step) && (j == k ==> a < b)
    ensures var sj, sk, tj, tk := ShopAt(libs, s, turns, j), ShopAt(libs, s, turns, k), turns[j], turns[k];
            StoreBefore(libs, DeskOf(sj, tj.worker), tj.step, sj.store, a + 1) <=
            StoreBefore(libs, DeskOf(sk, tk.worker), tk.step, sk.store, b)
  {
    hide ShopAt, PossibleRun, StoreBefore, StepResult, Honest;
    var sj, sk, tj, tk := ShopAt(libs, s, turns, j), ShopAt(libs, s, turns, k), turns[j], turns[k];
    var dj, dk := DeskOf(sj, tj.worker), DeskOf(sk, tk.worker);
    if j == k {
      StoreGrows(libs, dj, tj.step, sj.store, a + 1, b);
    } else {
      StoreGrows(libs, dj, tj.step, sj.store, a + 1, RunCount(tj.step));
      ShopAtPossible(libs, s, turns, j);
      ShopStoreGrows(libs, s, turns, j + 1, k);
      StoreGrows(libs, dk, tk.step, sk.store, 0, b);
      StoreStart(libs, dk, tk.step, sk.store);
    }
  }

  lemma StoreStart(libs: Libs, d: Desk, step: Step, store: set<Protocol.Key>)
    requires Legal(d, step)
    ensures StoreBefore(libs, d, step, store, 0) == store
  {
  }

  /** A strict pass finds its key not consumed and leaves it consumed. */
  lemma StrictPassStores(libs: Libs, s: Shop, t: Turn, i: nat, token: AgentToken)
    requires Possible(libs, s, t) && i < RunCount(t.step) && StrictPass(libs, DeskOf(s, t.worker), t.step, i, token)
    ensures KeyOfToken(libs, token).Some?
    ensures KeyOfToken(libs, token).value !in StoreBefore(libs, DeskOf(s, t.worker), t.step, s.store, i)
    ensures KeyOfToken(libs, token).value in StoreBefore(libs, DeskOf(s, t.worker), t.step, s.store, i + 1)
  {
    hide StrictPass, Asks, KeyOfToken, StepResult;
    StrictPassConsumes(libs, DeskOf(s, t.worker), t.step, i, token);
  }

  /** Across all workers and all turns, one token makes at most one gate run of records pass in
      strict mode. */
  lemma StrictPassIsUnique(libs: Libs, s: Shop, turns: seq<Turn>, j: nat, a: nat, k: nat, b: nat, token: AgentToken)
    requires PossibleRun(libs, s, turns) && j <= k < |turns|
    requires Possible(libs, ShopAt(libs, s, turns, j), turns[j]) && Possible(libs, ShopAt(libs, s, turns, k), turns[k])
    requires a < RunCount(turns[j].step) && b < RunCount(turns[k].step)
    requires StrictPass(libs, DeskOf(ShopAt(libs, s, turns, j), turns[j].worker), turns[j].step, a, token)
    requires StrictPass(libs, DeskOf(ShopAt(libs, s, turns, k), turns[k].worker), turns[k].step, b, token)
    ensures j == k && a == b
  {
    hide ShopAt, PossibleRun, StrictPass, Asks, StepResult, KeyOfToken, StoreBefore, Honest;
    StrictPassStores(libs, ShopAt(libs, s, turns, j), turns[j], a, token);
    StrictPassStores(libs, ShopAt(libs, s, turns, k), turns[k], b, token);
    if j < k || a < b {
      StoreBetween(libs, s, turns, j, a, k, b);
    } else if b < a {
      StoreBetween(libs, s, turns, k, b, j, a);
    }
  }

  /** The gate runs this step makes for the order are strict ones with this token. */
  ghost predicate ShowsStrictly(d: Desk, step: Step, id: int, token: AgentToken)
    requires Legal(d, step)
  {
    RunsHaveWorlds(d, step);
    && Shows(d, step, id, token)
    && forall i | 0 <= i < RunCount(step) && IdOf(step, i) == id :: Strict(FallbackMode(WorldOf(step, i).snapshot))
  }

  /** Hence in strict mode one token confirms at most one record, by whichever workers, in
      however many turns: two records confirmed with it are one record in one turn. */
  lemma OneTokenOneRecord(libs: Libs, s: Shop, turns: seq<Turn>, j: nat, id: int, k: nat, id': int, token: AgentToken)
    requires PossibleRun(libs, s, turns) && j <= k < |turns| && token != NO_TOKEN
    requires Possible(libs, ShopAt(libs, s, turns, j), turns[j]) && Possible(libs, ShopAt(libs, s, turns, k), turns[k])
    requires !turns[j].step.Create? && !turns[k].step.Create?
    requires Confirms(libs, ShopAt(libs, s, turns, j), turns[j], id) && Confirms(libs, ShopAt(libs, s, turns, k), turns[k], id')
    requires ShowsStrictly(DeskOf(ShopAt(libs, s, turns, j), turns[j].worker), turns[j].step, id, token)
    requires ShowsStrictly(DeskOf(ShopAt(libs, s, turns, k), turns[k].worker), turns[k].step, id', token)
    ensures j == k && id == id'
  {
    hide ShopAt, PossibleRun, StepResult, BeforeGate, GateRun, Asks, StoreBefore;
    var dj, dk := DeskOf(ShopAt(libs, s, turns, j), turns[j].worker), DeskOf(ShopAt(libs, s, turns, k), turns[k].worker);
    var a := ConfirmingRun(libs, dj, turns[j].step, id);
    var b := ConfirmingRun(libs, dk, turns[k].step, id');
    StrictPassIsUnique(libs, s, turns, j, a, k, b, token);
  }

  predicate Confirms(libs: Libs, s: Shop, t: Turn, id: int)
    requires t.worker in s.caches && Legal(DeskOf(s, t.worker), t.step)
  {
    !IsSale(DeskOf(s, t.worker), id) && IsSale(StepResult(libs, DeskOf(s, t.worker), t.step).1, id)
  }
}
