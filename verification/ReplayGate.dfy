/**
 * The replay gate: while a user's offline messages are replayed, live deliveries to that user are held
 * back, and run in order when the replay ends. First with begin, hold and end as atomic operations, then
 * at the granularity of their locks.
 */
module ReplayGate {

  type User = string
  const MAX_HOLDOUT := 1024

  /** Deliveries are numbered; `to` tells the user of each one that was ever given to the gate. */
  datatype Gate = Gate(
    pending: map<User, seq<nat>>, live: int, inflight: set<User>, ran: seq<nat>, arrived: seq<nat>, to: map<nat, User>)

  const Initial: Gate := Gate(map[], 0, {}, [], [], map[])

  function Queue(g: Gate, u: User): seq<nat> {
    if u in g.pending then g.pending[u] else []
  }

  function AfterBegin(g: Gate, u: User): Gate {
    if u in g.pending then g else g.(pending := g.pending[u := []], live := g.live + 1)
  }

  predicate Full(g: Gate, u: User) {
    u in g.pending && |g.pending[u]| >= MAX_HOLDOUT
  }

  /** A new delivery, held while the user is in replay and there is room, else run at once. */
  function AfterHold(g: Gate, u: User, d: nat): Gate {
    var known := g.(arrived := g.arrived + [d], to := g.to[d := u]);
    if u in g.pending && !Full(g, u) then known.(pending := g.pending[u := g.pending[u] + [d]])
    else known.(ran := g.ran + [d])
  }

  function AfterEnd(g: Gate, u: User): Gate {
    if u in g.pending then g.(pending := g.pending - {u}, live := g.live - 1, ran := g.ran + g.pending[u]) else g
  }

  function AfterTryBegin(g: Gate, u: User): Gate {
    if u in g.inflight then g else AfterBegin(g.(inflight := g.inflight + {u}), u)
  }

  function AfterEndReplay(g: Gate, u: User): Gate {
    AfterEnd(g.(inflight := g.inflight - {u}), u)
  }

  // ---------------------------------------------------------------------------------------------
  // The object
  // ---------------------------------------------------------------------------------------------

  class Gatekeeper {
    var pending: map<User, seq<nat>>
    var live: int
    var inflight: set<User>
    var ran: seq<nat>
    ghost var arrived: seq<nat>
    ghost var to: map<nat, User>

    ghost function Contents(): Gate
      reads this
    {
      Gate(pending, live, inflight, ran, arrived, to)
    }

    ghost predicate Valid()
      reads this
    {
      live == |pending|
    }

    constructor ()
      ensures Valid() && Contents() == Initial
    {
      pending, live, inflight, ran, arrived, to := map[], 0, {}, [], [], map[];
    }

    method Begin(u: User)
      requires Valid()
      modifies this
      ensures Valid() && Contents() == AfterBegin(old(Contents()), u)
      ensures u in pending && ran == old(ran) && (u !in old(pending) ==> pending[u] == [])
    {
      if u !in pending {
        pending := pending[u := []];
        live := live + 1;
      }
    }

    /** hold: an open gate is seen without the lock; the queue is looked at again under it. */
    method Hold(u: User, d: nat) returns (held: bool)
      requires Valid()
      modifies this
      ensures Valid() && Contents() == AfterHold(old(Contents()), u, d)
      ensures held <==> u in old(pending) && |old(pending)[u]| < 1024
      ensures held ==> ran == old(ran) && pending == old(pending)[u := old(pending)[u] + [d]]
      ensures !held ==> ran == old(ran) + [d] && pending == old(pending)
    {
      arrived, to := arrived + [d], to[d := u];
      if live == 0 {
        ran := ran + [d];
        return false;
      }
      if u !in pending {
        ran := ran + [d];
        return false;
      }
      var queue := pending[u];
      held := |queue| < MAX_HOLDOUT;
      if held {
        pending := pending[u := queue + [d]];
      } else {
        ran := ran + [d];
      }
    }

    method End(u: User)
      requires Valid()
      modifies this
      ensures Valid() && Contents() == AfterEnd(old(Contents()), u)
      ensures u !in pending && ran == old(ran) + Queue(old(Contents()), u)
    {
      if u !in pending {
        return;
      }
      var queue := pending[u];
      assert (pending - {u}).Keys == pending.Keys - {u};
      pending := pending - {u};
      live := live - 1;
      ghost var before := Contents();
      var i := 0;
      while i < |queue|
        invariant 0 <= i <= |queue|
        invariant Contents() == before.(ran := before.ran + queue[..i])
      {
        ran := ran + [queue[i]];
        i := i + 1;
      }
      assert queue[..|queue|] == queue;
    }

    method TryBeginUserReplay(u: User) returns (granted: bool)
      requires Valid()
      modifies this
      ensures Valid() && Contents() == AfterTryBegin(old(Contents()), u)
      ensures granted == (u !in old(inflight)) && u in inflight
      ensures granted ==> u in pending
      ensures !granted ==> Contents() == old(Contents())
    {
      if u in inflight {
        return false;
      }
      inflight := inflight + {u};
      Begin(u);
      return true;
    }

    method EndUserReplay(u: User)
      requires Valid()
      modifies this
      ensures Valid() && Contents() == AfterEndReplay(old(Contents()), u)
      ensures u !in inflight && u !in pending && ran == old(ran) + Queue(old(Contents()), u)
    {
      inflight := inflight - {u};
      End(u);
    }
  }

  // ---------------------------------------------------------------------------------------------
  // Order, with atomic operations
  // ---------------------------------------------------------------------------------------------

  /** The deliveries of one user, in order. */
  function Of(ds: seq<nat>, to: map<nat, User>, u: User): seq<nat> {
    if ds == [] then []
    else
      var d := ds[|ds| - 1];
      Of(ds[..|ds| - 1], to, u) + if d in to && to[d] == u then [d] else []
  }

  lemma OfAppend(ds: seq<nat>, d: nat, to: map<nat, User>, u: User)
    ensures Of(ds + [d], to, u) == Of(ds, to, u) + if d in to && to[d] == u then [d] else []
  {
    assert (ds + [d])[..|ds|] == ds;
  }

  lemma {:induction false} OfConcat(ds: seq<nat>, es: seq<nat>, to: map<nat, User>, u: User)
    ensures Of(ds + es, to, u) == Of(ds, to, u) + Of(es, to, u)
    decreases |es|
  {
    if es == [] {
      assert ds + es == ds;
    } else {
      var init, e := es[..|es| - 1], es[|es| - 1];
      OfConcat(ds, init, to, u);
      OfAppend(ds + init, e, to, u);
      assert ds + es == ds + init + [e];
    }
  }

  lemma {:induction false} OfOthers(ds: seq<nat>, to: map<nat, User>, d: nat, v: User, u: User)
    requires d !in ds
    ensures Of(ds, to[d := v], u) == Of(ds, to, u)
    decreases |ds|
  {
    if ds != [] {
      OfOthers(ds[..|ds| - 1], to, d, v, u);
    }
  }

  lemma {:induction false} OfAll(ds: seq<nat>, to: map<nat, User>, v: User, u: User)
    requires forall i :: 0 <= i < |ds| ==> ds[i] in to && to[ds[i]] == v
    ensures Of(ds, to, u) == if u == v then ds else []
    decreases |ds|
  {
    if ds != [] {
      OfAll(ds[..|ds| - 1], to, v, u);
      assert ds == ds[..|ds| - 1] + [ds[|ds| - 1]];
    }
  }

  /** Everything the gate knows was given to it, and queues hold their own user's deliveries. */
  ghost predicate Known(g: Gate) {
    && (forall d :: d in g.ran ==> d in g.to)
    && (forall d :: d in g.arrived ==> d in g.to)
    && (forall u, i ::
          u in g.pending && 0 <= i < |g.pending[u]| ==> g.pending[u][i] in g.to && g.to[g.pending[u][i]] == u)
  }

  /** What ran for a user and then what is held is what arrived. */
  ghost predicate InOrder(g: Gate, u: User) {
    Of(g.ran, g.to, u) + Queue(g, u) == Of(g.arrived, g.to, u)
  }

  ghost predicate Ordered(g: Gate) {
    g.live == |g.pending| && Known(g) && forall u :: InOrder(g, u)
  }

  lemma OfNew(ds: seq<nat>, to: map<nat, User>, d: nat, u: User, v: User)
    requires d !in ds
    ensures Of(ds, to[d := u], v) == Of(ds, to, v)
    ensures Of(ds + [d], to[d := u], v) == if v == u then Of(ds, to, v) + [d] else Of(ds, to, v)
  {
    OfOthers(ds, to, d, u, v);
    OfAppend(ds, d, to[d := u], v);
  }

  /** What a new delivery adds to what arrived for a user, to what ran, and to what is held. */
  lemma HoldArrived(g: Gate, u: User, d: nat, v: User)
    requires Known(g) && d !in g.to
    ensures var h := AfterHold(g, u, d);
            Of(h.arrived, h.to, v) == if v == u then Of(g.arrived, g.to, v) + [d] else Of(g.arrived, g.to, v)
  {
    OfNew(g.arrived, g.to, d, u, v);
  }

  lemma HoldRan(g: Gate, u: User, d: nat, v: User)
    requires Known(g) && d !in g.to
    ensures var h := AfterHold(g, u, d);
            Of(h.ran, h.to, v)
            == if v == u && (u !in g.pending || Full(g, u)) then Of(g.ran, g.to, v) + [d] else Of(g.ran, g.to, v)
  {
    OfNew(g.ran, g.to, d, u, v);
    if u in g.pending && !Full(g, u) {
      assert AfterHold(g, u, d).ran == g.ran;
    } else {
      assert AfterHold(g, u, d).ran == g.ran + [d];
    }
  }

  lemma HoldQueue(g: Gate, u: User, d: nat, v: User)
    ensures Queue(AfterHold(g, u, d), v)
            == if v == u && u in g.pending && !Full(g, u) then Queue(g, v) + [d] else Queue(g, v)
  {
  }

  /** Appending to the queue, or to what ran while nothing is held, keeps the order; overtaking does not. */
  lemma AppendCases(r: seq<nat>, q: seq<nat>, d: nat)
    requires d !in q
    ensures r + (q + [d]) == r + q + [d]
    ensures r + [d] + q == r + q + [d] <==> q == []
  {
    var left, right := r + [d] + q, r + q + [d];
    if q != [] {
      assert left[|r|] == d && right[|r|] == q[0];
    } else {
      assert left == right;
    }
  }

  lemma HoldOrder(g: Gate, u: User, d: nat, v: User)
    requires Ordered(g) && d !in g.to
    ensures InOrder(AfterHold(g, u, d), v) <==> v != u || !Full(g, u)
  {
    HoldArrived(g, u, d, v);
    HoldRan(g, u, d, v);
    HoldQueue(g, u, d, v);
    assert InOrder(g, v);
    assert d !in Queue(g, v) by {
      assert Known(g);
    }
    AppendCases(Of(g.ran, g.to, v), Queue(g, v), d);
  }

  /** Holding a delivery keeps all users' order, if and only if the user's queue is not full. */
  lemma HoldKeepsOrderIff(g: Gate, u: User, d: nat)
    requires Ordered(g) && d !in g.to
    ensures Ordered(AfterHold(g, u, d)) <==> !Full(g, u)
  {
    var h := AfterHold(g, u, d);
    if Full(g, u) {
      HoldOrder(g, u, d, u);
    } else {
      forall v ensures InOrder(h, v) {
        HoldOrder(g, u, d, v);
      }
    }
  }

  lemma BeginKeepsOrder(g: Gate, u: User)
    requires Ordered(g)
    ensures Ordered(AfterBegin(g, u))
  {
    forall v ensures InOrder(AfterBegin(g, u), v) {
      assert InOrder(g, v);
    }
  }

  lemma EndKeepsOrder(g: Gate, u: User)
    requires Ordered(g)
    ensures Ordered(AfterEnd(g, u)) && Queue(AfterEnd(g, u), u) == []
  {
    if u in g.pending {
      var h := AfterEnd(g, u);
      assert h.pending.Keys == g.pending.Keys - {u};
      forall v ensures InOrder(h, v) {
        OfConcat(g.ran, g.pending[u], g.to, v);
        OfAll(g.pending[u], g.to, u, v);
        assert InOrder(g, v);
      }
    }
  }

  datatype Op = Start(user: User) | Deliver(user: User, d: nat) | Stop(user: User)

  function Step(g: Gate, op: Op): Gate {
    match op
    case Start(u) => AfterTryBegin(g, u)
    case Deliver(u, d) => AfterHold(g, u, d)
    case Stop(u) => AfterEndReplay(g, u)
  }

  function Run(ops: seq<Op>): Gate
    decreases |ops|
  {
    if ops == [] then Initial else Step(Run(ops[..|ops| - 1]), ops[|ops| - 1])
  }

  predicate IsNew(g: Gate, op: Op) {
    op.Deliver? ==> op.d !in g.to
  }

  /** The delivery finds the queue of its user full. */
  predicate Overflows(g: Gate, op: Op) {
    op.Deliver? && Full(g, op.user)
  }

  lemma InflightIrrelevant(g: Gate, inflight: set<User>)
    requires Ordered(g)
    ensures Ordered(g.(inflight := inflight))
  {
    forall u ensures InOrder(g.(inflight := inflight), u) {
      assert InOrder(g, u);
    }
  }

  lemma StepOrderedIff(g: Gate, op: Op)
    requires Ordered(g) && IsNew(g, op)
    ensures Ordered(Step(g, op)) <==> !Overflows(g, op)
  {
    match op
    case Start(u) =>
      InflightIrrelevant(g, g.inflight + {u});
      BeginKeepsOrder(g.(inflight := g.inflight + {u}), u);
    case Deliver(u, d) => HoldKeepsOrderIff(g, u, d);
    case Stop(u) =>
      InflightIrrelevant(g, g.inflight - {u});
      EndKeepsOrder(g.(inflight := g.inflight - {u}), u);
  }

  lemma InitialOrdered()
    ensures Ordered(Initial)
  {
    forall u ensures InOrder(Initial, u) {
    }
  }

  /** No delivery is given to the gate twice. */
  ghost predicate NewRun(ops: seq<Op>) {
    forall i :: 0 <= i < |ops| ==> IsNew(Run(ops[..i]), ops[i])
  }

  ghost predicate Roomy(ops: seq<Op>) {
    forall i :: 0 <= i < |ops| ==> !Overflows(Run(ops[..i]), ops[i])
  }

  /** Until a queue fills up, every user's deliveries run in the order they arrived. */
  lemma {:induction false} RunsInOrder(ops: seq<Op>, n: nat)
    requires NewRun(ops) && Roomy(ops) && n <= |ops|
    ensures Ordered(Run(ops[..n]))
    decreases n
  {
    if n == 0 {
      InitialOrdered();
    } else {
      RunsInOrder(ops, n - 1);
      assert ops[..n][..n - 1] == ops[..n - 1] && ops[..n][n - 1] == ops[n - 1];
      assert !Overflows(Run(ops[..n - 1]), ops[n - 1]);
      StepOrderedIff(Run(ops[..n - 1]), ops[n - 1]);
    }
  }

  /** Over any run, the order holds at every moment if and only if no delivery finds a full queue. */
  lemma RunsInOrderIff(ops: seq<Op>)
    requires NewRun(ops)
    ensures (forall n :: 0 <= n <= |ops| ==> Ordered(Run(ops[..n]))) <==> Roomy(ops)
  {
    if Roomy(ops) {
      forall n | 0 <= n <= |ops| ensures Ordered(Run(ops[..n])) {
        RunsInOrder(ops, n);
      }
    }
    if forall n :: 0 <= n <= |ops| ==> Ordered(Run(ops[..n])) {
      forall i | 0 <= i < |ops| ensures !Overflows(Run(ops[..i]), ops[i]) {
        assert ops[..i + 1][..i] == ops[..i] && ops[..i + 1][i] == ops[i];
        assert Ordered(Run(ops[..i])) && Ordered(Run(ops[..i + 1]));
        StepOrderedIff(Run(ops[..i]), ops[i]);
      }
    }
  }

  /** The run starts at `g`; the one from the start is Run. */
  function RunFrom(g: Gate, ops: seq<Op>): Gate
    decreases |ops|
  {
    if ops == [] then g else Step(RunFrom(g, ops[..|ops| - 1]), ops[|ops| - 1])
  }

  /** The deliveries to a user in a run, in order. */
  function Given(ops: seq<Op>, u: User): seq<nat> {
    if ops == [] then []
    else
      var op := ops[|ops| - 1];
      Given(ops[..|ops| - 1], u) + if op.Deliver? && op.user == u then [op.d] else []
  }

  /** A replay of u, once started, holds everything given for u until the stop, which runs it in order. */
  lemma {:induction false} HeldDuringReplay(g: Gate, u: User, ops: seq<Op>)
    requires u !in g.inflight && u !in g.pending && |ops| <= MAX_HOLDOUT
    requires forall i :: 0 <= i < |ops| ==> ops[i] != Stop(u)
    ensures var h := RunFrom(Step(g, Start(u)), ops);
            && u in h.inflight && u in h.pending && h.pending[u] == Given(ops, u) && |Given(ops, u)| <= |ops|
            && Step(h, Stop(u)).ran == h.ran + Given(ops, u) && u !in Step(h, Stop(u)).pending
    decreases |ops|
  {
    if ops != [] {
      var n := |ops| - 1;
      HeldDuringReplay(g, u, ops[..n]);
      HeldStep(RunFrom(Step(g, Start(u)), ops[..n]), ops[n], u);
    }
  }

  lemma HeldStep(g: Gate, op: Op, u: User)
    requires u in g.inflight && u in g.pending && !Full(g, u) && op != Stop(u)
    ensures var h := Step(g, op);
            && u in h.inflight && u in h.pending
            && h.pending[u] == g.pending[u] + if op.Deliver? && op.user == u then [op.d] else []
  {
  }

  /** A replay begins, and n deliveries to the user arrive. */
  function Flood(u: User, n: nat): seq<Op> {
    if n == 0 then [Start(u)] else Flood(u, n - 1) + [Deliver(u, n - 1)]
  }

  lemma FloodNext(u: User, n: nat)
    ensures Run(Flood(u, n + 1)) == Step(Run(Flood(u, n)), Deliver(u, n))
  {
    assert (Flood(u, n) + [Deliver(u, n)])[..|Flood(u, n)|] == Flood(u, n);
  }

  ghost predicate Flooded(g: Gate, u: User, n: nat) {
    Ordered(g) && u in g.pending && |g.pending[u]| == n && g.ran == [] && forall d :: d in g.to ==> d < n
  }

  lemma FloodStart(u: User)
    ensures Flooded(Run(Flood(u, 0)), u, 0)
  {
    InitialOrdered();
    assert [Start(u)][..0] == [];
    assert Run([Start(u)]) == Step(Initial, Start(u));
    StepOrderedIff(Initial, Start(u));
  }

  lemma FloodStep(g: Gate, u: User, n: nat)
    requires Flooded(g, u, n) && n < MAX_HOLDOUT
    ensures Flooded(AfterHold(g, u, n), u, n + 1)
  {
    HoldKeepsOrderIff(g, u, n);
  }

  lemma {:induction false} FloodHeld(u: User, n: nat)
    requires n <= MAX_HOLDOUT
    ensures Flooded(Run(Flood(u, n)), u, n)
    decreases n
  {
    if n == 0 {
      FloodStart(u);
    } else {
      FloodHeld(u, n - 1);
      FloodNext(u, n - 1);
      FloodStep(Run(Flood(u, n - 1)), u, n - 1);
    }
  }

  /** After a thousand and twenty-four held deliveries the next one runs before all of them. */
  lemma FullQueueOvertaken(u: User)
    ensures !Ordered(Run(Flood(u, MAX_HOLDOUT + 1))) && Run(Flood(u, MAX_HOLDOUT + 1)).ran == [MAX_HOLDOUT]
  {
    FloodHeld(u, MAX_HOLDOUT);
    FloodNext(u, MAX_HOLDOUT);
    StepOrderedIff(Run(Flood(u, MAX_HOLDOUT)), Deliver(u, MAX_HOLDOUT));
  }
}
