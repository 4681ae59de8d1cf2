/**
 The three entry paths to a confirmed order: `action_confirm`, `create` and `write`. Each
 runs the gate on every order concerned and only then lets the framework commit.
 */
module SaleOrders {
  import opened Texts
  import opened Decimals
  import opened TokenVerifier
  import opened NonceStage
  import opened EnforcementGate

  datatype OrderState = Draft | Sent | Sale | Cancelled

  /** The token field of a record is a character field: a text. */
  datatype SaleOrder = SaleOrder(state: OrderState, token: Text, amount: Text, agentDid: Option<Text>)

  /** The orders in the database and the worker's nonce cache. */
  datatype Desk = Desk(orders: map<int, SaleOrder>, cache: NonceCache)

  /** What a create is asked for; the token is whatever the client sent. */
  datatype Vals = Vals(state: Option<OrderState>, token: AgentToken, amount: Text)
  datatype Patch = Patch(state: Option<OrderState>, token: Option<Text>, amount: Option<Text>)

  predicate Known(d: Desk, ids: seq<int>) {
    forall i | 0 <= i < |ids| :: ids[i] in d.orders
  }

  // ----------------------------------------------------------- specification

  /** The verified DID is written to the order, unless it reads "unknown". */
  function Noted(o: SaleOrder, decision: Decision): SaleOrder {
    if decision.Pass? && decision.agent.Some? && decision.agent.value != [] &&
       decision.agent.value != Chars("unknown")
    then o.(agentDid := decision.agent)
    else o
  }

  function EnforceOne(libs: Libs, d: Desk, id: int, w: World): (Decision, Desk)
    requires id in d.orders
  {
    var o := d.orders[id];
    var (decision, cache) := RecordGate(libs, d.cache, id, Jws(o.token), o.amount, w);
    (decision, Desk(d.orders[id := Noted(o, decision)], cache))
  }

  /** The gate on each order in turn, stopping at the first block: whether all passed. */
  function EnforceAll(libs: Libs, d: Desk, ids: seq<int>, ws: seq<World>): (bool, Desk)
    requires Known(d, ids) && |ws| == |ids|
    decreases |ids|
  {
    hide RecordGate;
    if ids == [] then (true, d)
    else
      var (decision, d') := EnforceOne(libs, d, ids[0], ws[0]);
      if decision.Block? then (false, d') else EnforceAll(libs, d', ids[1..], ws[1..])
  }

  function EnforceAllVals(libs: Libs, cache: NonceCache, vals: seq<Vals>, ws: seq<World>): (bool, NonceCache)
    requires |ws| == |vals|
    decreases |vals|
  {
    hide ValsGate;
    if vals == [] then (true, cache)
    else if vals[0].state != Some(Sale) then EnforceAllVals(libs, cache, vals[1..], ws[1..])
    else
      var (decision, cache') := ValsGate(libs, cache, vals[0].token, vals[0].amount, ws[0]);
      if decision.Block? then (false, cache') else EnforceAllVals(libs, cache', vals[1..], ws[1..])
  }

  function Patched(o: SaleOrder, p: Patch): SaleOrder {
    SaleOrder(Or(p.state, o.state), Or(p.token, o.token), Or(p.amount, o.amount), o.agentDid)
  }

  /** What `super()` commits: the patch on every order named. */
  function PatchAll(orders: map<int, SaleOrder>, ids: seq<int>, p: Patch): map<int, SaleOrder> {
    map id | id in orders :: if id in ids then Patched(orders[id], p) else orders[id]
  }

  function Created(v: Vals): SaleOrder {
    SaleOrder(Or(v.state, Draft), v.token.text, v.amount, None)
  }

  function AddAll(orders: map<int, SaleOrder>, ids: seq<int>, vals: seq<Vals>): map<int, SaleOrder>
    requires |ids| == |vals|
  {
    if ids == [] then orders
    else AddAll(orders, ids[..|ids| - 1], vals[..|ids| - 1])[ids[|ids| - 1] := Created(vals[|ids| - 1])]
  }

  const CONFIRMED := Patch(Some(Sale), None, None)

  datatype Step =
    | Confirm(ids: seq<int>, ws: seq<World>)
    | Create(newIds: seq<int>, vals: seq<Vals>, ws: seq<World>)
    | Write(ids: seq<int>, patch: Patch, ws: seq<World>)

  /** One world per order or vals dict; created orders get fresh ids. */
  predicate Legal(d: Desk, step: Step) {
    match step
    case Confirm(ids, ws) => Known(d, ids) && |ws| == |ids|
    case Create(ids, vals, ws) =>
      && |ids| == |vals| == |ws|
      && (forall i | 0 <= i < |ids| :: ids[i] !in d.orders)
      && (forall i, j | 0 <= i < j < |ids| :: ids[i] != ids[j])
    case Write(ids, patch, ws) => Known(d, ids) && |ws| == |ids|
  }

  function StepResult(libs: Libs, d: Desk, step: Step): (bool, Desk)
    requires Legal(d, step)
  {
    match step
    case Confirm(ids, ws) =>
      var (ok, d') := EnforceAll(libs, d, ids, ws);
      (ok, if ok then Desk(PatchAll(d'.orders, ids, CONFIRMED), d'.cache) else d')
    case Create(ids, vals, ws) =>
      var (ok, cache) := EnforceAllVals(libs, d.cache, vals, ws);
      (ok, Desk(if ok then AddAll(d.orders, ids, vals) else d.orders, cache))
    case Write(ids, patch, ws) =>
      var (ok, d') := if patch.state == Some(Sale) then EnforceAll(libs, d, ids, ws) else (true, d);
      (ok, if ok then Desk(PatchAll(d'.orders, ids, patch), d'.cache) else d')
  }

  // ---------------------------------------------------------- implementation

  class OrderModel {
    var orders: map<int, SaleOrder>
    const verifier: Verifier

    constructor ()
      ensures orders == map[] && fresh(verifier) && verifier.nonceCache == map[]
    {
      orders := map[];
      verifier := new Verifier();
    }

    function Contents(): Desk
      reads this, verifier
    {
      Desk(orders, verifier.nonceCache)
    }

    /** `_trusteed_cel_enforce`. */
    method Enforce(libs: Libs, id: int, w: World) returns (decision: Decision)
      requires id in orders
      modifies this, verifier
      ensures (decision, Contents()) == EnforceOne(libs, old(Contents()), id, w)
    {
      hide Verify, Offline.Evaluate, HasTier2, Chars;
      var o := orders[id];
      ghost var before := verifier.nonceCache;
      assert orders == orders[id := o];
      var mode := FallbackMode(w.snapshot);
      if w.snapshot.None? { return ApplyFallback(mode); }
      var s := w.snapshot.value;
      if s.killSwitch { return Block(KillSwitch); }
      var token := if o.token != [] then Jws(o.token) else w.contextToken;

      var agent: Option<Text>, trust, flags := None, None, NoFlags;
      if token != NO_TOKEN {
        var intentHash := IntentHash(libs, PrintInt(id), s.merchantId, o.amount);
        var resolver := BuildDidResolver(s);
        var outcome := verifier.VerifyAgentToken(libs, Call(w.now, token, intentHash, s.merchantId, resolver));
        if outcome.Raised? { return ApplyFallback(mode); }
        if outcome.Rejected? { return Block(R001); }
        agent, trust := Some(outcome.id.agentId), outcome.id.trustScore;
        var stage := ConsumeWithFailureMode(outcome.id, Creds(s, w), mode, w.backend);
        if stage.Refused? { return Block(stage.why); }
        flags := stage.flags;
      }

      if HasTier2(s.rules) {
        var layer2 := CallRules(s, agent, trust, flags, w);
        if layer2.None? {
          var verdict := Offline.EvaluateRules(s.rules, w.order, w.cart);
          if verdict.Broken? { return Block(Uncaught); }
          if verdict.Blocked? { return Block(Rule(verdict.code)); }
          if Strict(mode) { return Block(CelTimeout); }
        } else if layer2.value.Broken? {
          return Block(Uncaught);
        } else if layer2.value.block {
          return Block(Rule(layer2.value.ruleCode));
        }
      }

      if agent.Some? && agent.value != [] && agent.value != Chars("unknown") {
        orders := orders[id := o.(agentDid := agent)];
      }
      return Pass(agent, flags);
    }

    /** `_trusteed_cel_enforce_vals`. */
    method EnforceVals(libs: Libs, vals: Vals, w: World) returns (decision: Decision)
      modifies verifier
      ensures (decision, verifier.nonceCache) == ValsGate(libs, old(verifier.nonceCache), vals.token, vals.amount, w)
    {
      hide Verify, Chars;
      var mode := FallbackMode(w.snapshot);
      if w.snapshot.None? { return ApplyFallback(mode); }
      var s := w.snapshot.value;
      if s.killSwitch { return Block(KillSwitch); }
      var token := if vals.token != NO_TOKEN then vals.token else w.contextToken;
      if token == NO_TOKEN { return ApplyFallback(mode); }
      var intentHash := IntentHash(libs, Chars("pending"), s.merchantId, vals.amount);
      var resolver := BuildDidResolver(s);
      var outcome := verifier.VerifyAgentToken(libs, Call(w.now, token, intentHash, s.merchantId, resolver));
      if outcome.Raised? { return ApplyFallback(mode); }
      if outcome.Rejected? { return Block(R001); }
      return Pass(Some(outcome.id.agentId), NoFlags);
    }

    /** The loop both overrides share: `for order in self: order._trusteed_cel_enforce()`. */
    method EnforceEach(libs: Libs, ids: seq<int>, ws: seq<World>) returns (ok: bool)
      requires Known(Contents(), ids) && |ws| == |ids|
      modifies this, verifier
      ensures (ok, Contents()) == EnforceAll(libs, old(Contents()), ids, ws)
    {
      hide RecordGate;
      for i := 0 to |ids|
        invariant Known(Contents(), ids)
        invariant EnforceAll(libs, Contents(), ids[i..], ws[i..]) == EnforceAll(libs, old(Contents()), ids, ws)
      {
        assert ids[i..][0] == ids[i] && ws[i..][0] == ws[i];
        assert ids[i..][1..] == ids[i + 1..] && ws[i..][1..] == ws[i + 1..];
        var decision := Enforce(libs, ids[i], ws[i]);
        if decision.Block? { return false; }
      }
      return true;
    }

    /** `action_confirm`. */
    method ActionConfirm(libs: Libs, ids: seq<int>, ws: seq<World>) returns (ok: bool)
      requires Legal(Contents(), Confirm(ids, ws))
      modifies this, verifier
      ensures (ok, Contents()) == StepResult(libs, old(Contents()), Confirm(ids, ws))
    {
      hide RecordGate, EnforceAll;
      ok := EnforceEach(libs, ids, ws);
      if ok { orders := PatchAll(orders, ids, CONFIRMED); }
    }

    /** `write`. */
    method WriteVals(libs: Libs, ids: seq<int>, patch: Patch, ws: seq<World>) returns (ok: bool)
      requires Legal(Contents(), Write(ids, patch, ws))
      modifies this, verifier
      ensures (ok, Contents()) == StepResult(libs, old(Contents()), Write(ids, patch, ws))
    {
      hide RecordGate, EnforceAll;
      ok := true;
      if patch.state == Some(Sale) { ok := EnforceEach(libs, ids, ws); }
      if ok { orders := PatchAll(orders, ids, patch); }
    }

    /** `create`. */
    method CreateMulti(libs: Libs, newIds: seq<int>, vals: seq<Vals>, ws: seq<World>) returns (ok: bool)
      requires Legal(Contents(), Create(newIds, vals, ws))
      modifies this, verifier
      ensures (ok, Contents()) == StepResult(libs, old(Contents()), Create(newIds, vals, ws))
    {
      hide ValsGate;
      for i := 0 to |vals|
        invariant orders == old(orders)
        invariant EnforceAllVals(libs, verifier.nonceCache, vals[i..], ws[i..])
               == EnforceAllVals(libs, old(verifier.nonceCache), vals, ws)
      {
        assert vals[i..][0] == vals[i] && ws[i..][0] == ws[i];
        assert vals[i..][1..] == vals[i + 1..] && ws[i..][1..] == ws[i + 1..];
        if vals[i].state == Some(Sale) {
          var decision := EnforceVals(libs, vals[i], ws[i]);
          if decision.Block? { return false; }
        }
      }
      orders := AddAll(orders, newIds, vals);
      return true;
    }
  }

  // --------------------------------------------------------- safety of one step

  /** The order is unchanged but for the noted DID. */
  predicate SameButDid(o: SaleOrder, o': SaleOrder) {
    o' == o.(agentDid := o'.agentDid)
  }

  predicate SameOrders(a: map<int, SaleOrder>, b: map<int, SaleOrder>) {
    a.Keys == b.Keys && forall id | id in a :: SameButDid(a[id], b[id])
  }

  /** Whether the gate runs before the i-th one all passed, and the cache they left to it. */
  function BeforeRun(libs: Libs, d: Desk, ids: seq<int>, ws: seq<World>, i: nat): (bool, NonceCache)
    requires Known(d, ids) && |ws| == |ids| && i <= |ids|
  {
    var (ok, d') := EnforceAll(libs, d, ids[..i], ws[..i]);
    (ok, d'.cache)
  }

  /** The i-th gate run of a batch takes place and, on the very cache it meets, passes its
      record over this token field and amount. */
  predicate PassedAt(libs: Libs, d: Desk, ids: seq<int>, ws: seq<World>, i: nat, token: Text, amount: Text)
    requires Known(d, ids) && |ws| == |ids| && i < |ids|
  {
    var (ok, cache) := BeforeRun(libs, d, ids, ws, i);
    ok && RecordGate(libs, cache, ids[i], Jws(token), amount, ws[i]).0.Pass?
  }

  function BeforeValsRun(libs: Libs, cache: NonceCache, vals: seq<Vals>, ws: seq<World>, i: nat): (bool, NonceCache)
    requires |ws| == |vals| && i <= |vals|
  {
    EnforceAllVals(libs, cache, vals[..i], ws[..i])
  }

  predicate PassedValsAt(libs: Libs, cache: NonceCache, vals: seq<Vals>, ws: seq<World>, i: nat)
    requires |ws| == |vals| && i < |vals|
  {
    var (ok, cache') := BeforeValsRun(libs, cache, vals, ws, i);
    ok && ValsGate(libs, cache', vals[i].token, vals[i].amount, ws[i]).0.Pass?
  }

  /** Gate runs touch no state, token or amount. */
  lemma {:induction false} EnforceAllKeeps(libs: Libs, d: Desk, ids: seq<int>, ws: seq<World>)
    requires Known(d, ids) && |ws| == |ids|
    ensures SameOrders(d.orders, EnforceAll(libs, d, ids, ws).1.orders)
    decreases |ids|
  {
    hide RecordGate;
    if ids != [] {
      var (decision, d') := EnforceOne(libs, d, ids[0], ws[0]);
      assert SameOrders(d.orders, d'.orders);
      if decision.Pass? { EnforceAllKeeps(libs, d', ids[1..], ws[1..]); }
    }
  }

  /** The runs before the i-th one, seen from behind the first. */
  lemma BeforeRunStep(libs: Libs, d: Desk, ids: seq<int>, ws: seq<World>, i: nat)
    requires Known(d, ids) && |ws| == |ids| && 0 < i <= |ids|
    ensures var (decision, d') := EnforceOne(libs, d, ids[0], ws[0]);
            BeforeRun(libs, d, ids, ws, i) ==
            (if decision.Pass? then BeforeRun(libs, d', ids[1..], ws[1..], i - 1) else (false, d'.cache))
  {
    hide RecordGate;
    assert ids[..i][1..] == ids[1..][..i - 1] && ws[..i][1..] == ws[1..][..i - 1];
  }

  /** A batch passes exactly when each of its gate runs, on the cache the ones before it left,
      passes its record over the token and amount the record holds. */
  lemma {:induction false} BatchPassesIff(libs: Libs, d: Desk, ids: seq<int>, ws: seq<World>)
    requires Known(d, ids) && |ws| == |ids|
    ensures EnforceAll(libs, d, ids, ws).0 <==>
            forall i | 0 <= i < |ids| :: PassedAt(libs, d, ids, ws, i, d.orders[ids[i]].token, d.orders[ids[i]].amount)
    decreases |ids|
  {
    hide RecordGate;
    if ids != [] {
      var (decision, d') := EnforceOne(libs, d, ids[0], ws[0]);
      FirstRun(libs, d, ids, ws);
      if decision.Pass? {
        BatchPassesIff(libs, d', ids[1..], ws[1..]);
        forall i | 0 < i < |ids|
          ensures PassedAt(libs, d, ids, ws, i, d.orders[ids[i]].token, d.orders[ids[i]].amount) <==>
                  PassedAt(libs, d', ids[1..], ws[1..], i - 1, d'.orders[ids[1..][i - 1]].token, d'.orders[ids[1..][i - 1]].amount)
        {
          BeforeRunStep(libs, d, ids, ws, i);
        }
        assert forall k | 0 <= k < |ids[1..]| :: ids[1..][k] == ids[k + 1];
      } else {
        assert !PassedAt(libs, d, ids, ws, 0, d.orders[ids[0]].token, d.orders[ids[0]].amount);
      }
    }
  }

  lemma FirstRun(libs: Libs, d: Desk, ids: seq<int>, ws: seq<World>)
    requires Known(d, ids) && |ws| == |ids| && ids != []
    ensures BeforeRun(libs, d, ids, ws, 0) == (true, d.cache)
  {
    assert ids[..0] == [];
  }

  /** When a batch of creates passes, each confirmed one was passed on the cache it met. */
  lemma {:induction false} AllValsFacts(libs: Libs, cache: NonceCache, vals: seq<Vals>, ws: seq<World>)
    requires |ws| == |vals| && EnforceAllVals(libs, cache, vals, ws).0
    ensures forall i | 0 <= i < |vals| && vals[i].state == Some(Sale) :: PassedValsAt(libs, cache, vals, ws, i)
    decreases |vals|
  {
    hide ValsGate;
    if vals != [] {
      var cache' := if vals[0].state == Some(Sale) then ValsGate(libs, cache, vals[0].token, vals[0].amount, ws[0]).1
                    else cache;
      AllValsFacts(libs, cache', vals[1..], ws[1..]);
      assert BeforeValsRun(libs, cache, vals, ws, 0) == (true, cache);
      forall i | 0 < i < |vals| && vals[i].state == Some(Sale) ensures PassedValsAt(libs, cache, vals, ws, i) {
        assert vals[1..][i - 1] == vals[i] && ws[1..][i - 1] == ws[i];
        assert vals[..i][1..] == vals[1..][..i - 1] && ws[..i][1..] == ws[1..][..i - 1];
        assert BeforeValsRun(libs, cache, vals, ws, i) == BeforeValsRun(libs, cache', vals[1..], ws[1..], i - 1);
      }
    }
  }

  lemma {:induction false} AddAllFacts(orders: map<int, SaleOrder>, ids: seq<int>, vals: seq<Vals>, id: int)
    requires |ids| == |vals| && id in AddAll(orders, ids, vals)
    ensures (id in orders && AddAll(orders, ids, vals)[id] == orders[id]) ||
            exists i | 0 <= i < |ids| :: ids[i] == id && AddAll(orders, ids, vals)[id] == Created(vals[i])
  {
    if ids != [] && ids[|ids| - 1] != id {
      var n := |ids| - 1;
      AddAllFacts(orders, ids[..n], vals[..n], id);
      if i :| 0 <= i < n && ids[..n][i] == id && AddAll(orders, ids[..n], vals[..n])[id] == Created(vals[..n][i]) {
        assert ids[i] == id && vals[i] == vals[..n][i];
      }
    }
  }

  predicate IsSale(d: Desk, id: int) {
    id in d.orders && d.orders[id].state == Sale
  }

  /** A gate run inside this step, on the cache it met there, passed this order over this token
      field and amount. */
  ghost predicate GatedOn(libs: Libs, d: Desk, step: Step, id: int, token: Text, amount: Text)
    requires Legal(d, step)
  {
    match step
    case Confirm(ids, ws) => exists i | 0 <= i < |ids| :: ids[i] == id && PassedAt(libs, d, ids, ws, i, token, amount)
    case Create(ids, vals, ws) =>
      exists i | 0 <= i < |ids| ::
        ids[i] == id && vals[i].state == Some(Sale) && vals[i].token.text == token && vals[i].amount == amount &&
        PassedValsAt(libs, d.cache, vals, ws, i)
    case Write(ids, patch, ws) =>
      patch.state == Some(Sale) && exists i | 0 <= i < |ids| :: ids[i] == id && PassedAt(libs, d, ids, ws, i, token, amount)
  }

  /** What the gate of this step was shown: the record as it stood before, or what the create
      asks for. */
  ghost predicate LetThrough(libs: Libs, d: Desk, step: Step, id: int)
    requires Legal(d, step)
  {
    if step.Create? then exists token, amount :: GatedOn(libs, d, step, id, token, amount)
    else id in d.orders && GatedOn(libs, d, step, id, d.orders[id].token, d.orders[id].amount)
  }

  /** Whatever step confirms an order ran a gate on it that passed. */
  lemma ConfirmedWasLetThrough(libs: Libs, d: Desk, step: Step, id: int)
    requires Legal(d, step) && !IsSale(d, id) && IsSale(StepResult(libs, d, step).1, id)
    ensures StepResult(libs, d, step).0 && LetThrough(libs, d, step, id)
  {
    hide EnforceAll, EnforceAllVals, AddAll, PassedAt, PassedValsAt;
    match step
    case Confirm(ids, ws) =>
      EnforceAllKeeps(libs, d, ids, ws);
      BatchPassesIff(libs, d, ids, ws);
      assert SameOrders(d.orders, EnforceAll(libs, d, ids, ws).1.orders);
      var i :| 0 <= i < |ids| && ids[i] == id;
      assert PassedAt(libs, d, ids, ws, i, d.orders[ids[i]].token, d.orders[ids[i]].amount);
    case Create(ids, vals, ws) =>
      AllValsFacts(libs, d.cache, vals, ws);
      AddAllFacts(d.orders, ids, vals, id);
      var i :| 0 <= i < |ids| && ids[i] == id && AddAll(d.orders, ids, vals)[id] == Created(vals[i]);
      assert GatedOn(libs, d, step, id, vals[i].token.text, vals[i].amount);
    case Write(ids, patch, ws) =>
      EnforceAllKeeps(libs, d, ids, ws);
      BatchPassesIff(libs, d, ids, ws);
      assert SameOrders(d.orders, EnforceAll(libs, d, ids, ws).1.orders);
      var i :| 0 <= i < |ids| && ids[i] == id;
      assert PassedAt(libs, d, ids, ws, i, d.orders[ids[i]].token, d.orders[ids[i]].amount);
  }

  /** The checks this world's snapshot calls for when the order carries a token; in strict mode
      the backend consumed the jti just then. */
  ghost predicate RecordVouched(libs: Libs, id: int, token: Text, amount: Text, w: World) {
    w.snapshot.Some? && TokenOf(Jws(token), w) != NO_TOKEN ==>
      && !w.snapshot.value.killSwitch
      && Vouched(libs, RecordCall(libs, id, Jws(token), amount, w), FallbackMode(w.snapshot))
      && (Strict(FallbackMode(w.snapshot)) ==> w.backend == Status(200))
  }

  ghost predicate CreateVouched(libs: Libs, v: Vals, w: World) {
    w.snapshot.Some? && TokenOf(v.token, w) != NO_TOKEN ==>
      && !w.snapshot.value.killSwitch
      && Vouched(libs, CreateCall(libs, v.token, v.amount, w), FallbackMode(w.snapshot))
  }

  lemma RecordPassWasChecked(libs: Libs, cache: NonceCache, id: int, token: Text, amount: Text, w: World)
    requires RecordGate(libs, cache, id, Jws(token), amount, w).0.Pass?
    ensures RecordVouched(libs, id, token, amount, w)
  {
    hide RecordGate, Vouched, RecordCall;
    if w.snapshot.Some? && TokenOf(Jws(token), w) != NO_TOKEN {
      PassMeansChecked(libs, cache, id, Jws(token), amount, w);
      if Strict(FallbackMode(w.snapshot)) { StrictPassIsFresh(libs, cache, id, Jws(token), amount, w); }
    }
  }

  lemma ValsPassWasChecked(libs: Libs, cache: NonceCache, v: Vals, w: World)
    requires ValsGate(libs, cache, v.token, v.amount, w).0.Pass?
    ensures CreateVouched(libs, v, w)
  {
    hide ValsGate, Vouched, CreateCall;
    if w.snapshot.Some? && TokenOf(v.token, w) != NO_TOKEN { ValsPassMeansChecked(libs, cache, v.token, v.amount, w); }
  }

  /** Whatever path let an order through, its gate had made the checks. */
  lemma LetThroughWasChecked(libs: Libs, d: Desk, step: Step, id: int)
    requires Legal(d, step) && LetThrough(libs, d, step, id)
    ensures match step
            case Confirm(ids, ws) => exists i | 0 <= i < |ids| ::
              ids[i] == id && RecordVouched(libs, id, d.orders[id].token, d.orders[id].amount, ws[i])
            case Create(ids, vals, ws) => exists i | 0 <= i < |ids| ::
              ids[i] == id && vals[i].state == Some(Sale) && CreateVouched(libs, vals[i], ws[i])
            case Write(ids, patch, ws) => exists i | 0 <= i < |ids| ::
              ids[i] == id && RecordVouched(libs, id, d.orders[id].token, d.orders[id].amount, ws[i])
  {
    hide RecordVouched, CreateVouched, BeforeRun, BeforeValsRun, RecordGate, ValsGate;
    match step
    case Confirm(ids, ws) =>
      var i :| 0 <= i < |ids| && ids[i] == id && PassedAt(libs, d, ids, ws, i, d.orders[id].token, d.orders[id].amount);
      RecordPassWasChecked(libs, BeforeRun(libs, d, ids, ws, i).1, id, d.orders[id].token, d.orders[id].amount, ws[i]);
    case Create(ids, vals, ws) =>
      var i :| 0 <= i < |ids| && ids[i] == id && vals[i].state == Some(Sale) && PassedValsAt(libs, d.cache, vals, ws, i);
      ValsPassWasChecked(libs, BeforeValsRun(libs, d.cache, vals, ws, i).1, vals[i], ws[i]);
    case Write(ids, patch, ws) =>
      var i :| 0 <= i < |ids| && ids[i] == id && PassedAt(libs, d, ids, ws, i, d.orders[id].token, d.orders[id].amount);
      RecordPassWasChecked(libs, BeforeRun(libs, d, ids, ws, i).1, id, d.orders[id].token, d.orders[id].amount, ws[i]);
  }

  // ------------------------------------------------- gated on what is committed

  predicate SameTerms(d: Desk, d': Desk, id: int) {
    id in d.orders && id in d'.orders &&
    d.orders[id].token == d'.orders[id].token && d.orders[id].amount == d'.orders[id].amount
  }

  /** The step is no write that changes the order's token or amount. */
  predicate KeepsTerms(d: Desk, step: Step, id: int) {
    step.Write? && id in step.ids && id in d.orders ==>
      Or(step.patch.token, d.orders[id].token) == d.orders[id].token &&
      Or(step.patch.amount, d.orders[id].amount) == d.orders[id].amount
  }

  /** A step that keeps the terms of an existing order leaves its token and amount alone. */
  lemma TermsStay(libs: Libs, d: Desk, step: Step, id: int)
    requires Legal(d, step) && id in d.orders && KeepsTerms(d, step, id)
    ensures SameTerms(d, StepResult(libs, d, step).1, id)
  {
    hide EnforceAll, EnforceAllVals, AddAll;
    match step
    case Confirm(ids, ws) => EnforceAllKeeps(libs, d, ids, ws);
    case Create(ids, vals, ws) => AddAllKeeps(d.orders, ids, vals, id);
    case Write(ids, patch, ws) => EnforceAllKeeps(libs, d, ids, ws);
  }

  lemma {:induction false} AddAllKeeps(orders: map<int, SaleOrder>, ids: seq<int>, vals: seq<Vals>, id: int)
    requires |ids| == |vals| && id in orders && forall i | 0 <= i < |ids| :: ids[i] !in orders
    ensures id in AddAll(orders, ids, vals) && AddAll(orders, ids, vals)[id] == orders[id]
  {
    if ids != [] {
      var n := |ids| - 1;
      AddAllKeeps(orders, ids[..n], vals[..n], id);
      assert ids[n] !in orders;
    }
  }

  /** A step that confirms an order and keeps its terms let it through on the very token and
      amount it commits. A confirm and a create always do. */
  lemma ConfirmedOnItsTerms(libs: Libs, d: Desk, step: Step, id: int)
    requires Legal(d, step) && !IsSale(d, id) && IsSale(StepResult(libs, d, step).1, id)
    requires KeepsTerms(d, step, id)
    ensures var o := StepResult(libs, d, step).1.orders[id]; GatedOn(libs, d, step, id, o.token, o.amount)
  {
    hide EnforceAll, EnforceAllVals, AddAll, PassedAt, PassedValsAt;
    if step.Create? {
      AllValsFacts(libs, d.cache, step.vals, step.ws);
      AddAllFacts(d.orders, step.newIds, step.vals, id);
      var v :| 0 <= v < |step.newIds| && step.newIds[v] == id && AddAll(d.orders, step.newIds, step.vals)[id] == Created(step.vals[v]);
    } else {
      ConfirmedWasLetThrough(libs, d, step, id);
      TermsStay(libs, d, step, id);
    }
  }

  /** A record the gate passed over one amount, given a snapshot and a token, it also passes
      over another exactly when the two are the same text or the verifier raises before it
      looks at the intent. */
  lemma OtherAmountPassesIff(libs: Libs, cache: NonceCache, id: int, token: Text, amount: Text, amount': Text, w: World)
    requires w.snapshot.Some? && TokenOf(Jws(token), w) != NO_TOKEN
    requires RecordGate(libs, cache, id, Jws(token), amount, w).0.Pass?
    requires NoClash(libs, PrintInt(id), w.snapshot.value.merchantId, amount,
                     PrintInt(id), w.snapshot.value.merchantId, amount')
    ensures RecordGate(libs, cache, id, Jws(token), amount', w).0.Pass? <==>
            || Utf16(amount') == Utf16(amount)
            || RaisesEarly(libs, RecordCall(libs, id, Jws(token), amount, w))
  {
    var s, field := w.snapshot.value, Jws(token);
    var call, call' := RecordCall(libs, id, field, amount, w), RecordCall(libs, id, field, amount', w);
    assert call' == call.(intentHash := call'.intentHash);
    RaisesEarlyApart(libs, call, call'.intentHash);
    RecordPassWasChecked(libs, cache, id, token, amount, w);
    if Utf16(amount') == Utf16(amount) {
      IntentText.SameIntentIff(PrintInt(id), s.merchantId, amount', PrintInt(id), s.merchantId, amount);
      assert call == call';
      assert RecordGate(libs, cache, id, field, amount', w) == RecordGate(libs, cache, id, field, amount, w);
    } else if RaisesEarly(libs, call) {
      hide RecordGate, RaisesEarly, CanRaise;
      RaisesEarlyCanRaise(libs, call);
      EarlyExceptionPasses(libs, cache, id, field, amount', w);
    } else {
      hide RecordGate, Overflows, IntentText.IntentJson, Utf16, CanRaise;
      TokenChecksMint(libs, call, PrintInt(id), s.merchantId, amount);
      OtherIntentPassesRecordIff(libs, cache, field, PrintInt(id), s.merchantId, amount, id, amount', w);
    }
  }

  lemma RaisesEarlyApart(libs: Libs, call: Call, hash: Text)
    ensures RaisesEarly(libs, call) <==> RaisesEarly(libs, call.(intentHash := hash))
  {
  }

  lemma RaisesEarlyCanRaise(libs: Libs, call: Call)
    requires RaisesEarly(libs, call)
    ensures CanRaise(libs, call.jws)
  {
  }

  lemma TokenChecksMint(libs: Libs, call: Call, o: Text, m: Text, a: Text)
    requires TokenChecks(libs, call) && call.intentHash == libs.sha256(IntentText.IntentJson(o, m, a))
    ensures MintedFor(libs, call.jws, o, m, a)
  {
  }

  function WriteSale(id: int, amount: Text, w: World): Step {
    Write([id], Patch(Some(Sale), None, Some(amount)), [w])
  }

  lemma WriteCommits(libs: Libs, d: Desk, id: int, amount': Text, w: World)
    requires id in d.orders
    requires RecordGate(libs, d.cache, id, Jws(d.orders[id].token), d.orders[id].amount, w).0.Pass?
    ensures var (ok, d') := StepResult(libs, d, WriteSale(id, amount', w));
            && ok && IsSale(d', id)
            && d'.orders[id].token == d.orders[id].token && d'.orders[id].amount == amount'
  {
    hide RecordGate;
    var (decision, d') := EnforceOne(libs, d, id, w);
    assert decision.Pass?;
    assert [id][1..] == [] && [w][1..] == [];
    assert EnforceAll(libs, d', [], []) == (true, d');
    assert EnforceAll(libs, d, [id], [w]) == (true, d');
  }

  /** Keeping the terms is needed: a write of state sale runs the gate on the amount it is about
      to replace. Whenever that passes, the order is confirmed over any other amount, and then
      no gate passed it over that amount unless the verifier had raised. */
  lemma WriteCommitsUngatedAmount(libs: Libs, d: Desk, id: int, amount': Text, w: World)
    requires id in d.orders && w.snapshot.Some? && TokenOf(Jws(d.orders[id].token), w) != NO_TOKEN
    requires RecordGate(libs, d.cache, id, Jws(d.orders[id].token), d.orders[id].amount, w).0.Pass?
    requires NoClash(libs, PrintInt(id), w.snapshot.value.merchantId, d.orders[id].amount,
                     PrintInt(id), w.snapshot.value.merchantId, amount')
    ensures var step := WriteSale(id, amount', w);
            var (ok, d') := StepResult(libs, d, step);
            && Legal(d, step) && ok && IsSale(d', id) && d'.orders[id].amount == amount'
            && (GatedOn(libs, d, step, id, d'.orders[id].token, d'.orders[id].amount) <==>
                  || Utf16(amount') == Utf16(d.orders[id].amount)
                  || RaisesEarly(libs, RecordCall(libs, id, Jws(d.orders[id].token), d.orders[id].amount, w)))
  {
    hide RecordGate, RecordCall, RaisesEarly, NoClash, Utf16, StepResult, EnforceAll;
    var step := WriteSale(id, amount', w);
    WriteCommits(libs, d, id, amount', w);
    FirstRun(libs, d, [id], [w]);
    OtherAmountPassesIff(libs, d.cache, id, d.orders[id].token, d.orders[id].amount, amount', w);
    var token := d.orders[id].token;
    assert step.ids[0] == id;
    assert PassedAt(libs, d, [id], [w], 0, token, amount') <==> RecordGate(libs, d.cache, id, Jws(token), amount', w).0.Pass?;
    assert GatedOn(libs, d, step, id, token, amount') <==> PassedAt(libs, d, step.ids, step.ws, 0, token, amount');
  }

  /** One refused order refuses the batch: no order is added and none changes state, token
      or amount. */
  lemma RefusedBatchChangesNothing(libs: Libs, d: Desk, step: Step)
    requires Legal(d, step) && !StepResult(libs, d, step).0
    ensures SameOrders(d.orders, StepResult(libs, d, step).1.orders)
  {
    hide EnforceAll, EnforceAllVals;
    match step
    case Confirm(ids, ws) => EnforceAllKeeps(libs, d, ids, ws);
    case Create(ids, vals, ws) =>
    case Write(ids, patch, ws) => EnforceAllKeeps(libs, d, ids, ws);
  }

  predicate Killed(w: World) {
    w.snapshot.Some? && w.snapshot.value.killSwitch
  }

  /** A gate run of this step met a snapshot with the kill switch set. */
  predicate MeetsKillSwitch(step: Step) {
    match step
    case Confirm(ids, ws) => exists i | 0 <= i < |ws| :: Killed(ws[i])
    case Create(ids, vals, ws) => exists i | 0 <= i < |ws| && i < |vals| :: vals[i].state == Some(Sale) && Killed(ws[i])
    case Write(ids, patch, ws) => patch.state == Some(Sale) && exists i | 0 <= i < |ws| :: Killed(ws[i])
  }

  /** No step that would meet the kill switch confirms anything, in any fallback mode. */
  lemma KillSwitchConfirmsNothing(libs: Libs, d: Desk, step: Step)
    requires Legal(d, step) && MeetsKillSwitch(step)
    ensures !StepResult(libs, d, step).0
    ensures forall id :: IsSale(StepResult(libs, d, step).1, id) ==> IsSale(d, id)
  {
    hide EnforceAll, EnforceAllVals, PassedAt, PassedValsAt;
    match step {
      case Confirm(ids, ws) => KilledBatchFails(libs, d, ids, ws);
      case Create(ids, vals, ws) =>
        var i :| 0 <= i < |ws| && vals[i].state == Some(Sale) && Killed(ws[i]);
        if EnforceAllVals(libs, d.cache, vals, ws).0 {
          AllValsFacts(libs, d.cache, vals, ws);
          KilledValsNeverPass(libs, d.cache, vals, ws, i);
          assert false;
        }
      case Write(ids, patch, ws) => KilledBatchFails(libs, d, ids, ws);
    }
    RefusedBatchChangesNothing(libs, d, step);
  }

  lemma KilledBatchFails(libs: Libs, d: Desk, ids: seq<int>, ws: seq<World>)
    requires Known(d, ids) && |ws| == |ids| && exists i | 0 <= i < |ws| :: Killed(ws[i])
    ensures !EnforceAll(libs, d, ids, ws).0
  {
    hide EnforceAll, BeforeRun, RecordGate;
    BatchPassesIff(libs, d, ids, ws);
    var i :| 0 <= i < |ws| && Killed(ws[i]);
    var o := d.orders[ids[i]];
    KillSwitchBlocksAlways(libs, BeforeRun(libs, d, ids, ws, i).1, ids[i], Jws(o.token), o.amount, ws[i]);
    assert !PassedAt(libs, d, ids, ws, i, o.token, o.amount);
  }

  lemma KilledValsNeverPass(libs: Libs, cache: NonceCache, vals: seq<Vals>, ws: seq<World>, i: nat)
    requires |ws| == |vals| && i < |vals| && Killed(ws[i])
    ensures !PassedValsAt(libs, cache, vals, ws, i)
  {
    hide ValsGate, BeforeValsRun;
    KillSwitchBlocksAlways(libs, BeforeValsRun(libs, cache, vals, ws, i).1, 0, vals[i].token, vals[i].amount, ws[i]);
  }

  // ------------------------------------------------------------------ all runs

  ghost predicate LegalRun(libs: Libs, d: Desk, steps: seq<Step>)
    decreases |steps|
  {
    steps == [] || (Legal(d, steps[0]) && LegalRun(libs, StepResult(libs, d, steps[0]).1, steps[1..]))
  }

  /** The desk before step i of a run (or after all, for i == |steps|). */
  function DeskAt(libs: Libs, d: Desk, steps: seq<Step>, i: nat): Desk
    requires LegalRun(libs, d, steps) && i <= |steps|
    decreases i
  {
    if i == 0 then d else DeskAt(libs, StepResult(libs, d, steps[0]).1, steps[1..], i - 1)
  }

  lemma {:induction false} DeskAtLegal(libs: Libs, d: Desk, steps: seq<Step>, i: nat)
    requires LegalRun(libs, d, steps) && i < |steps|
    ensures Legal(DeskAt(libs, d, steps, i), steps[i])
    ensures DeskAt(libs, d, steps, i + 1) == StepResult(libs, DeskAt(libs, d, steps, i), steps[i]).1
    decreases i
  {
    hide StepResult, Legal;
    if i > 0 { DeskAtLegal(libs, StepResult(libs, d, steps[0]).1, steps[1..], i - 1); }
  }

  /** In every state reachable by any sequence of confirms, creates and writes from a desk
      without confirmed orders, each confirmed order was let through by a gate run inside
      the very step that confirmed it. */
  lemma {:induction false} EverySaleWasLetThrough(libs: Libs, d: Desk, steps: seq<Step>, n: nat, id: int) returns (j: nat)
    requires LegalRun(libs, d, steps) && n <= |steps|
    requires !IsSale(d, id) && IsSale(DeskAt(libs, d, steps, n), id)
    ensures j < n
    ensures !IsSale(DeskAt(libs, d, steps, j), id) && IsSale(DeskAt(libs, d, steps, j + 1), id)
    ensures Legal(DeskAt(libs, d, steps, j), steps[j]) && LetThrough(libs, DeskAt(libs, d, steps, j), steps[j], id)
    ensures !MeetsKillSwitch(steps[j])
    ensures forall k | j < k <= n :: IsSale(DeskAt(libs, d, steps, k), id)
    decreases n
  {
    hide StepResult, LetThrough, MeetsKillSwitch, Legal, DeskAt;
    assert n > 0 by { DeskAtStart(libs, d, steps); }
    DeskAtLegal(libs, d, steps, n - 1);
    if IsSale(DeskAt(libs, d, steps, n - 1), id) {
      j := EverySaleWasLetThrough(libs, d, steps, n - 1, id);
    } else {
      j := n - 1;
      ConfirmedWasLetThrough(libs, DeskAt(libs, d, steps, j), steps[j], id);
      if MeetsKillSwitch(steps[j]) {
        KillSwitchConfirmsNothing(libs, DeskAt(libs, d, steps, j), steps[j]);
      }
    }
  }

  /** As long as no write from the confirming step on changes its token or amount, a confirmed
      order's present token and amount are the ones a gate passed in that step. */
  lemma {:induction false} EverySaleStaysOnItsTerms(libs: Libs, d: Desk, steps: seq<Step>, j: nat, n: nat, id: int)
    requires LegalRun(libs, d, steps) && j < n <= |steps|
    requires !IsSale(DeskAt(libs, d, steps, j), id) && forall k | j < k <= n :: IsSale(DeskAt(libs, d, steps, k), id)
    requires forall k | j <= k < n :: KeepsTerms(DeskAt(libs, d, steps, k), steps[k], id)
    ensures IsSale(DeskAt(libs, d, steps, n), id) && Legal(DeskAt(libs, d, steps, j), steps[j])
    ensures var o := DeskAt(libs, d, steps, n).orders[id];
            GatedOn(libs, DeskAt(libs, d, steps, j), steps[j], id, o.token, o.amount)
    decreases n
  {
    hide StepResult, GatedOn, KeepsTerms, Legal, DeskAt;
    DeskAtLegal(libs, d, steps, n - 1);
    var before := DeskAt(libs, d, steps, n - 1);
    if n == j + 1 {
      ConfirmedOnItsTerms(libs, before, steps[j], id);
    } else {
      EverySaleStaysOnItsTerms(libs, d, steps, j, n - 1, id);
      assert IsSale(before, id);
      TermsStay(libs, before, steps[n - 1], id);
    }
  }

  lemma DeskAtStart(libs: Libs, d: Desk, steps: seq<Step>)
    requires LegalRun(libs, d, steps)
    ensures DeskAt(libs, d, steps, 0) == d
  {
  }

  // ------------------------------------------------------- what a step leaves behind

  /** A confirm that passes makes every order named a sale and leaves the others alone; state
      apart, only the noted DID of an order named may change. */
  lemma ConfirmLeaves(libs: Libs, d: Desk, ids: seq<int>, ws: seq<World>)
    requires Legal(d, Confirm(ids, ws)) && StepResult(libs, d, Confirm(ids, ws)).0
    ensures var after := StepResult(libs, d, Confirm(ids, ws)).1.orders;
            && after.Keys == d.orders.Keys
            && forall id | id in d.orders ::
                 && after[id].token == d.orders[id].token && after[id].amount == d.orders[id].amount
                 && after[id].state == (if id in ids then Sale else d.orders[id].state)
                 && (id !in ids ==> after[id] == d.orders[id])
  {
    hide EnforceAll;
    EnforceAllKeeps(libs, d, ids, ws);
    EnforceAllTouches(libs, d, ids, ws);
    assert SameOrders(d.orders, EnforceAll(libs, d, ids, ws).1.orders);
  }

  lemma {:induction false} EnforceAllTouches(libs: Libs, d: Desk, ids: seq<int>, ws: seq<World>)
    requires Known(d, ids) && |ws| == |ids|
    ensures EnforceAll(libs, d, ids, ws).1.orders.Keys == d.orders.Keys
    ensures forall id | id in d.orders && id !in ids :: EnforceAll(libs, d, ids, ws).1.orders[id] == d.orders[id]
    decreases |ids|
  {
    hide RecordGate;
    if ids != [] {
      var (decision, d') := EnforceOne(libs, d, ids[0], ws[0]);
      if decision.Pass? { EnforceAllTouches(libs, d', ids[1..], ws[1..]); }
    }
  }

  /** Confirming one order notes the agent its gate names, unless that reads "unknown". */
  lemma ConfirmNotesAgent(libs: Libs, d: Desk, id: int, w: World)
    requires id in d.orders
    ensures var decision := RecordGate(libs, d.cache, id, Jws(d.orders[id].token), d.orders[id].amount, w).0;
            var (ok, d') := StepResult(libs, d, Confirm([id], [w]));
            && (ok <==> decision.Pass?) && id in d'.orders
            && (ok ==> match decision.agent {
                  case Some(agent) =>
                    d'.orders[id].agentDid == if agent == [] || agent == Chars("unknown") then d.orders[id].agentDid else Some(agent)
                  case None => d'.orders[id].agentDid == d.orders[id].agentDid
                })
            && (!ok ==> d'.orders == d.orders)
            && d'.cache == RecordGate(libs, d.cache, id, Jws(d.orders[id].token), d.orders[id].amount, w).1
  {
    hide RecordGate, Chars;
    var (decision, d') := EnforceOne(libs, d, id, w);
    assert [id][1..] == [] && [w][1..] == [];
    if decision.Pass? {
      assert EnforceAll(libs, d', [], []) == (true, d');
      assert EnforceAll(libs, d, [id], [w]) == (true, d');
    } else {
      assert EnforceAll(libs, d, [id], [w]) == (false, d');
      assert d.orders[id := d.orders[id]] == d.orders;
    }
  }

  /** A write sets what it names on the orders it names; it is gated exactly when it sets the
      state to sale. */
  lemma WriteLeaves(libs: Libs, d: Desk, ids: seq<int>, patch: Patch, ws: seq<World>)
    requires Legal(d, Write(ids, patch, ws))
    ensures var (ok, d') := StepResult(libs, d, Write(ids, patch, ws));
            && (patch.state != Some(Sale) ==> ok && d'.cache == d.cache)
            && (patch.state == Some(Sale) ==> ok == EnforceAll(libs, d, ids, ws).0 && d'.cache == EnforceAll(libs, d, ids, ws).1.cache)
            && d'.orders.Keys == d.orders.Keys
            && (ok ==> forall id | id in d.orders ::
                 if id in ids then
                   && d'.orders[id].state == (match patch.state case Some(s) => s case None => d.orders[id].state)
                   && d'.orders[id].token == (match patch.token case Some(t) => t case None => d.orders[id].token)
                   && d'.orders[id].amount == (match patch.amount case Some(a) => a case None => d.orders[id].amount)
                 else d'.orders[id] == d.orders[id])
  {
    hide EnforceAll;
    EnforceAllKeeps(libs, d, ids, ws);
    EnforceAllTouches(libs, d, ids, ws);
    assert SameOrders(d.orders, EnforceAll(libs, d, ids, ws).1.orders);
  }

  /** A create that passes adds each order as asked for, a draft unless a state is given, with no
      agent noted, and leaves the others alone. */
  lemma CreateLeaves(libs: Libs, d: Desk, ids: seq<int>, vals: seq<Vals>, ws: seq<World>)
    requires Legal(d, Create(ids, vals, ws)) && StepResult(libs, d, Create(ids, vals, ws)).0
    ensures var after := StepResult(libs, d, Create(ids, vals, ws)).1.orders;
            && (forall id | id in d.orders :: id in after && after[id] == d.orders[id])
            && (forall id | id in after :: id in d.orders || id in ids)
            && forall i | 0 <= i < |ids| ::
                 ids[i] in after && after[ids[i]] ==
                 SaleOrder(match vals[i].state case Some(s) => s case None => Draft, vals[i].token.text, vals[i].amount, None)
  {
    hide EnforceAllVals, AddAll;
    forall id | id in d.orders ensures id in AddAll(d.orders, ids, vals) && AddAll(d.orders, ids, vals)[id] == d.orders[id] {
      AddAllKeeps(d.orders, ids, vals, id);
    }
    forall id | id in AddAll(d.orders, ids, vals) ensures id in d.orders || id in ids {
      AddAllFacts(d.orders, ids, vals, id);
    }
    forall i | 0 <= i < |ids|
      ensures ids[i] in AddAll(d.orders, ids, vals) && AddAll(d.orders, ids, vals)[ids[i]] == Created(vals[i])
    {
      AddAllAdds(d.orders, ids, vals, i);
    }
  }

  lemma {:induction false} AddAllAdds(orders: map<int, SaleOrder>, ids: seq<int>, vals: seq<Vals>, i: nat)
    requires |ids| == |vals| && i < |ids| && forall a, b | 0 <= a < b < |ids| :: ids[a] != ids[b]
    ensures ids[i] in AddAll(orders, ids, vals) && AddAll(orders, ids, vals)[ids[i]] == Created(vals[i])
  {
    var n := |ids| - 1;
    if i < n {
      AddAllAdds(orders, ids[..n], vals[..n], i);
      assert ids[..n][i] == ids[i] && vals[..n][i] == vals[i];
    }
  }
}
