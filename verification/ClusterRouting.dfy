/**
 * Routing one message across the cluster: direct gRPC delivery, the reroute recursion on "user not
 * here" answers, and the PubSub fallback. Nodes, the online index, gRPC and PubSub are the
 * environment: arbitrary functions of how often they have been asked.
 */
module ClusterRouting {
  import opened RerouteGuard

  datatype Outcome = Delivered | Fallback | Missing | Refused

  /** What happened to one gRPC worker. */
  datatype Reply = NoAddress | Panicked | Replied(outcome: Outcome)

  datatype Publication = Publication(failed: bool, dead: seq<NodeId>)

  datatype Environment = Environment(
    index: nat -> IndexAnswer,
    reply: (nat, nat) -> Reply,
    marshals: nat -> bool,
    nodes: nat -> seq<NodeId>,
    publish: nat -> Publication)

  datatype RouteResult = RouteResult(delivered: nat, refused: seq<NodeId>, missing: seq<NodeId>, fallback: seq<NodeId>)

  /** The outcome slot of a panicked worker keeps its zero value, which is Delivered. */
  function Recorded(reply: Reply): Outcome {
    match reply
    case NoAddress => Fallback
    case Panicked => Delivered
    case Replied(outcome) => outcome
  }

  function Select(nodes: seq<NodeId>, outcomes: seq<Outcome>, o: Outcome): (r: seq<NodeId>)
    requires |nodes| == |outcomes|
    ensures forall n :: n in r <==> exists i :: 0 <= i < |nodes| && nodes[i] == n && outcomes[i] == o
  {
    if nodes == [] then []
    else
      var k := |nodes| - 1;
      var r := Select(nodes[..k], outcomes[..k], o);
      assert nodes == nodes[..k] + [nodes[k]] && outcomes == outcomes[..k] + [outcomes[k]];
      if outcomes[k] == o then r + [nodes[k]] else r
  }

  function Partition(nodes: seq<NodeId>, outcomes: seq<Outcome>): RouteResult
    requires |nodes| == |outcomes|
  {
    RouteResult(|Select(nodes, outcomes, Delivered)|, Select(nodes, outcomes, Refused),
                Select(nodes, outcomes, Missing), Select(nodes, outcomes, Fallback))
  }

  /** The four lists together hold every target node exactly as often as it was targeted. */
  lemma {:induction false} PartitionConserves(nodes: seq<NodeId>, outcomes: seq<Outcome>)
    requires |nodes| == |outcomes|
    ensures multiset(Select(nodes, outcomes, Delivered)) + multiset(Select(nodes, outcomes, Refused))
            + multiset(Select(nodes, outcomes, Missing)) + multiset(Select(nodes, outcomes, Fallback))
                == multiset(nodes)
  {
    if nodes != [] {
      var k := |nodes| - 1;
      PartitionConserves(nodes[..k], outcomes[..k]);
      assert nodes == nodes[..k] + [nodes[k]];
    }
  }

  /** How many workers' nodes took the message, and how many workers panicked. */
  function Taken(replies: seq<Reply>): nat {
    if replies == [] then 0
    else Taken(replies[..|replies| - 1]) + if replies[|replies| - 1] == Replied(Delivered) then 1 else 0
  }

  function Crashed(replies: seq<Reply>): nat {
    if replies == [] then 0 else Crashed(replies[..|replies| - 1]) + if replies[|replies| - 1] == Panicked then 1 else 0
  }

  /** What is recorded as delivered was taken, or its worker panicked. */
  lemma {:induction false} DeliveredSplits(nodes: seq<NodeId>, replies: seq<Reply>, outcomes: seq<Outcome>)
    requires |nodes| == |replies| == |outcomes|
    requires forall i :: 0 <= i < |replies| ==> outcomes[i] == Recorded(replies[i])
    ensures |Select(nodes, outcomes, Delivered)| == Taken(replies) + Crashed(replies)
    decreases |nodes|
  {
    if nodes != [] {
      var k := |nodes| - 1;
      DeliveredSplits(nodes[..k], replies[..k], outcomes[..k]);
    }
  }

  /**
   * What one routing did besides its own dispatch: whether a reroute reported success, how often nodes
   * took or publications carried the message on reroutes, and whether, and when, the message was published.
   */
  datatype Account = Account(again: bool, taken: nat, published: bool, at: nat)

  predicate EndsWith(acts: seq<Act>, last: seq<Act>) {
    |last| <= |acts| && acts[|acts| - |last|..] == last
  }

  function RemoteOf(self: NodeId, nodes: seq<NodeId>): (r: seq<NodeId>)
    ensures forall n :: n in r <==> n in nodes && IsRemote(self, n)
  {
    if nodes == [] then []
    else
      var k := |nodes| - 1;
      assert nodes == nodes[..k] + [nodes[k]];
      RemoteOf(self, nodes[..k]) + (if IsRemote(self, nodes[k]) then [nodes[k]] else [])
  }

  ghost predicate AllRemote(self: NodeId, nodes: seq<NodeId>) {
    forall n :: n in nodes ==> IsRemote(self, n)
  }

  /**
   * How many more nodes the guard can still be made to try: the nodes not attempted yet and, while
   * the entry is point-to-point, all nodes once more, since its one deletion forgets them.
   */
  function Slack(universe: set<NodeId>, g: Guard): nat {
    match g
    case NoEntry => |universe|
    case Entry(attempted, _, p2p) => |universe - attempted| + (if p2p then |universe| else 0)
  }

  /** How many nodes a decision sends the message to. */
  function Cost(self: NodeId, d: Decision): nat {
    if d.Reroute? then |Remote(self, d.targets)| else 0
  }

  lemma SlackOfDecision(universe: set<NodeId>, self: NodeId, g: Guard, node: NodeId, answer: IndexAnswer)
    requires answer.Nodes? ==> forall n :: n in answer.ids ==> n in universe
    ensures var (g', d) := Decide(self, g, node, answer);
            && Slack(universe, g') + Cost(self, d) <= Slack(universe, g)
            && (d.Reroute? ==> d.targets != [] && AllRemote(self, d.targets) && 0 < Cost(self, d))
  {
    var e := MarkRejected(self, g, node);
    assert g.NoEntry? ==> universe - {} == universe;
    if answer.Nodes? && Candidates(self, e, answer.ids) != [] {
      SlackOfTargets(universe, self, e, answer.ids);
    }
  }

  /** New targets take as much slack as there are nodes among them. */
  lemma SlackOfTargets(universe: set<NodeId>, self: NodeId, e: Guard, ids: seq<NodeId>)
    requires e.Entry? && Candidates(self, e, ids) != [] && forall n :: n in ids ==> n in universe
    ensures var targets := Candidates(self, e, ids);
            && |universe - (e.attempted + Remote(self, targets))| + |Remote(self, targets)| == |universe - e.attempted|
            && AllRemote(self, targets) && 0 < |Remote(self, targets)|
  {
    var targets := Candidates(self, e, ids);
    var r := Remote(self, targets);
    assert targets[0] in targets && targets[0] in r;
    assert r !! e.attempted && r <= universe;
    assert universe - e.attempted == (universe - (e.attempted + r)) + r;
  }

  lemma SlackBound(universe: set<NodeId>, g: Guard)
    ensures Slack(universe, g) <= 2 * |universe|
  {
  }

  /** What the ACK timeouts still to come can add: each makes the guard forget every node once more. */
  function Forgetting(universe: set<NodeId>, timeouts: seq<bool>, tick: nat): nat
    decreases |timeouts| - tick
  {
    if tick >= |timeouts| then 0
    else (if timeouts[tick] then |universe| else 0) + Forgetting(universe, timeouts, tick + 1)
  }

  predicate TimesOut(timeouts: seq<bool>, tick: nat) {
    tick < |timeouts| && timeouts[tick]
  }

  function Potential(universe: set<NodeId>, timeouts: seq<bool>, g: Guard, tick: nat): nat {
    Slack(universe, g) + Forgetting(universe, timeouts, tick)
  }

  lemma {:induction false} PotentialLater(universe: set<NodeId>, timeouts: seq<bool>, g: Guard, tick: nat, later: nat)
    requires tick <= later
    ensures Potential(universe, timeouts, g, later) <= Potential(universe, timeouts, g, tick)
    decreases later - tick
  {
    if tick < later {
      PotentialLater(universe, timeouts, g, tick + 1, later);
    }
  }

  /** Runs compose: the guard and the stores of a run are those of its parts. */
  lemma {:induction false} RunsCompose(self: NodeId, g: Guard, a: seq<Event>, b: seq<Event>)
    ensures After(self, g, a + b) == After(self, After(self, g, a), b)
    ensures Stores(self, g, a + b) == Stores(self, g, a) + Stores(self, After(self, g, a), b)
    decreases |b|
  {
    if b == [] {
      assert a + b == a;
    } else {
      var k := |b| - 1;
      RunsCompose(self, g, a, b[..k]);
      var ab := a + b;
      assert ab[..|ab| - 1] == a + b[..k] && ab[|ab| - 1] == b[k];
    }
  }

  lemma AfterAppend(self: NodeId, events: seq<Event>, e: Event)
    ensures After(self, NoEntry, events + [e]) == Next(self, After(self, NoEntry, events), e).0
  {
  }

  /** Only a rejection can make the all-rejected rule store. */
  lemma StoresQuiet(self: NodeId, events: seq<Event>, e: Event)
    requires !e.UserMiss?
    ensures Stores(self, NoEntry, events + [e]) == Stores(self, NoEntry, events)
  {
    assert (events + [e])[..|events|] == events;
  }

  lemma StoresDecided(self: NodeId, events: seq<Event>, g: Guard, d: Decision, node: NodeId, answer: IndexAnswer)
    requires (g, d) == Decide(self, After(self, NoEntry, events), node, answer)
    ensures Stores(self, NoEntry, events + [UserMiss(node, answer)])
            == Stores(self, NoEntry, events) + if d.StoreOffline? then 1 else 0
  {
    assert (events + [UserMiss(node, answer)])[..|events|] == events;
  }

  /** What may store the message offline besides the all-rejected rule. */
  datatype Act =
    | Dispatched(now: nat, targets: seq<NodeId>, result: RouteResult)   // a gRPC dispatch
    | Checked(now: nat, dead: seq<NodeId>)                              // a check for dead nodes

  /** The rejections of these nodes are in the history, in this order. */
  ghost predicate MissesInOrder(history: seq<Event>, nodes: seq<NodeId>)
    decreases |nodes|
  {
    nodes == [] || exists k :: 0 <= k < |history| && MissAt(history, k, nodes[|nodes| - 1])
                               && MissesInOrder(history[..k], nodes[..|nodes| - 1])
  }

  predicate MissAt(history: seq<Event>, k: nat, node: NodeId)
    requires k < |history|
  {
    history[k].UserMiss? && history[k].node == node
  }

  lemma MissesLater(history: seq<Event>, later: seq<Event>, nodes: seq<NodeId>)
    requires MissesInOrder(history, nodes) && history <= later
    ensures MissesInOrder(later, nodes)
  {
    if nodes != [] {
      var k :| 0 <= k < |history| && MissAt(history, k, nodes[|nodes| - 1])
               && MissesInOrder(history[..k], nodes[..|nodes| - 1]);
      assert later[..k] == history[..k] && MissAt(later, k, nodes[|nodes| - 1]);
    }
  }

  /** One more rejection, somewhere in what the history gained. */
  lemma MissesOneMore(history: seq<Event>, later: seq<Event>, nodes: seq<NodeId>, i: nat, k: nat)
    requires i < |nodes| && MissesInOrder(history, nodes[..i]) && history <= later
    requires |history| <= k < |later| && MissAt(later, k, nodes[i])
    ensures MissesInOrder(later, nodes[..i + 1])
  {
    assert nodes[..i + 1][..i] == nodes[..i];
    assert history <= later[..k];
    MissesLater(history, later[..k], nodes[..i]);
  }

  class MessageRouting {
    const self: NodeId
    const hasPubSub: bool
    const hasGrpc: bool
    const hasIndex: bool
    const env: Environment
    const timeouts: seq<bool>   // at which ticks an ACK timeout deletes the guard entry; at none after these
    ghost const universe: set<NodeId>

    var guard: Guard
    var tick: nat
    var offline: nat   // StoreOfflineOnDeliveryFailure calls
    ghost var took: nat           // nodes that took the message over gRPC, and publications
    ghost var crashed: nat        // workers that panicked and were recorded as delivered
    ghost var rerouted: nat       // nodes rerouted to
    ghost var events: seq<Event>  // what the guard has seen
    ghost var trace: seq<Act>     // dispatches and checks for dead nodes
    ghost var left: nat           // bounds the reroutes still possible

    constructor (self: NodeId, hasPubSub: bool, hasGrpc: bool, hasIndex: bool, env: Environment,
                 timeouts: seq<bool>, ghost universe: set<NodeId>)
      requires forall t: nat, n :: env.index(t).Nodes? && n in env.index(t).ids ==> n in universe
      ensures Valid() && guard == NoEntry && events == [] && left == Potential(universe, timeouts, NoEntry, 0)
      ensures this.self == self && this.env == env && this.timeouts == timeouts && this.universe == universe
      ensures this.hasPubSub == hasPubSub && this.hasGrpc == hasGrpc && this.hasIndex == hasIndex
      ensures tick == 0 && offline == 0 && took == 0 && crashed == 0 && rerouted == 0 && trace == []
    {
      this.self, this.hasPubSub, this.hasGrpc, this.hasIndex := self, hasPubSub, hasGrpc, hasIndex;
      this.env, this.timeouts, this.universe := env, timeouts, universe;
      guard, tick, offline := NoEntry, 0, 0;
      took, crashed, rerouted, events, trace := 0, 0, 0, [], [];
      left := Potential(universe, timeouts, NoEntry, 0);
    }

    ghost predicate Valid()
      reads this
    {
      && (forall t: nat, n :: env.index(t).Nodes? && n in env.index(t).ids ==> n in universe)
      && guard == After(self, NoEntry, events)
      && Potential(universe, timeouts, guard, tick) <= left
    }

    ghost predicate Standalone()
      reads this
    {
      !hasPubSub && !hasGrpc
    }

    /** What every routing step keeps: one more history, no new point-to-point attempt, no lost slack. */
    twostate predicate Progress()
      reads this
    {
      && old(events) <= events && old(trace) <= trace
      && (forall k :: |old(events)| <= k < |events| && events[k].Attempted? ==> !events[k].p2p)
      && old(took) <= took && old(crashed) <= crashed && old(rerouted) <= rerouted && old(offline) <= offline
      && old(tick) <= tick
      && left + rerouted <= old(left) + old(rerouted)
    }

    /** The act stores the message offline: a targeted dispatch that is partly refused, a user without a live node. */
    ghost predicate ActStores(a: Act) {
      match a
      case Dispatched(_, targets, result) => targets != [] && result.delivered > 0 && result.refused != []
      case Checked(now, dead) => hasIndex && AllNodesDead(self, env.index(now), dead)
    }

    ghost function ActStoresCount(acts: seq<Act>): nat {
      if acts == [] then 0
      else ActStoresCount(acts[..|acts| - 1]) + if ActStores(acts[|acts| - 1]) then 1 else 0
    }

    lemma CountAppend(acts: seq<Act>, a: Act)
      ensures ActStoresCount(acts + [a]) == ActStoresCount(acts) + if ActStores(a) then 1 else 0
    {
      assert (acts + [a])[..|acts|] == acts;
    }

    ghost method Note(a: Act)
      modifies this`trace
      ensures trace == old(trace) + [a] && ByRule() == old(ByRule()) - if ActStores(a) then 1 else 0
    {
      CountAppend(trace, a);
      trace := trace + [a];
    }

    /**
     * The offline stores that nothing accounts for: neither a decision of the all-rejected rule, nor a
     * partly refused dispatch, nor a check for dead nodes. Routing leaves none.
     */
    ghost function Unaccounted(): int
      reads this
    {
      ByRule() - Stores(self, NoEntry, events)
    }

    /** The offline stores but those of dispatches and checks. */
    ghost function ByRule(): int
      reads this
    {
      offline - ActStoresCount(trace)
    }

    /** markRerouteAttempted. */
    method MarkAttempted(targets: seq<NodeId>, p2p: bool)
      requires Valid()
      modifies this`guard, this`events, this`left
      ensures Valid() && events == old(events) + [Attempted(targets, p2p)] && Unaccounted() == old(Unaccounted())
      ensures left == Potential(universe, timeouts, guard, tick) && offline == old(offline) && tick == old(tick)
    {
      guard := MarkOnEntry(self, guard, targets, p2p);
      AfterAppend(self, events, Attempted(targets, p2p));
      StoresQuiet(self, events, Attempted(targets, p2p));
      events := events + [Attempted(targets, p2p)];
      left := Potential(universe, timeouts, guard, tick);
    }

    /**
     * The locked part of decideUserNotFoundReroute: record the rejection, choose, record the choice. A
     * reroute uses up slack for every node it goes to.
     */
    method DecideStep(node: NodeId, answer: IndexAnswer) returns (d: Decision)
      requires Valid() && (answer.Nodes? ==> forall n :: n in answer.ids ==> n in universe)
      modifies this`guard, this`events, this`rerouted, this`left
      ensures Valid() && events == old(events) + [UserMiss(node, answer)]
      ensures (guard, d) == Decide(self, old(guard), node, answer)
      ensures Unaccounted() == old(Unaccounted()) - if d.StoreOffline? then 1 else 0
      ensures d.Reroute? ==> d.targets != [] && AllRemote(self, d.targets)
      ensures rerouted == old(rerouted) + Cost(self, d)
      ensures d.Reroute? ==> rerouted > old(rerouted)
      ensures left + rerouted == old(left) + old(rerouted)
    {
      SlackOfDecision(universe, self, guard, node, answer);
      AfterAppend(self, events, UserMiss(node, answer));
      guard, d := DecideOnEntry(self, guard, node, answer);
      StoresDecided(self, events, guard, d, node, answer);
      events := events + [UserMiss(node, answer)];
      rerouted, left := rerouted + Cost(self, d), left - Cost(self, d);
    }

    /** The guard that a decision finds: none if the ACK timeout falls here. */
    ghost function GuardAt(now: nat, g: Guard): Guard {
      if TimesOut(timeouts, now) then NoEntry else g
    }

    ghost function Timeout(now: nat): seq<Event> {
      if TimesOut(timeouts, now) then [AckTimeout] else []
    }

    /** The ACK timeout, if it falls here: the callback deletes the entry. */
    method LetTimeOut()
      requires Valid()
      modifies this`guard, this`tick, this`events
      ensures Valid() && tick == old(tick) + 1 && Unaccounted() == old(Unaccounted())
      ensures events == old(events) + Timeout(old(tick)) && guard == GuardAt(old(tick), old(guard))
    {
      if TimesOut(timeouts, tick) {
        AfterAppend(self, events, AckTimeout);
        StoresQuiet(self, events, AckTimeout);
        guard, events := NoEntry, events + [AckTimeout];
      } else {
        PotentialLater(universe, timeouts, guard, tick, tick + 1);
      }
      tick := tick + 1;
    }

    /** What the guard sees at a rejection: the ACK timeout, if it falls here, and the rejection. */
    ghost function Seen(now: nat, node: NodeId): seq<Event> {
      Timeout(now) + [UserMiss(node, env.index(now))]
    }

    lemma SeenAfter(before: seq<Event>, now: nat, node: NodeId)
      ensures before + Timeout(now) + [UserMiss(node, env.index(now))] == before + Seen(now, node)
      ensures forall k :: |before| <= k < |before + Seen(now, node)| ==> !(before + Seen(now, node))[k].Attempted?
    {
    }

    /** Ask the online index and decide. */
    method ConsultIndex(node: NodeId) returns (d: Decision)
      requires Valid()
      modifies this`guard, this`tick, this`events, this`rerouted, this`left
      ensures Valid() && Progress() && tick == old(tick) + 1
      ensures events == old(events) + Seen(old(tick), node)
      ensures d == Decide(self, GuardAt(old(tick), old(guard)), node, env.index(old(tick))).1
      ensures Unaccounted() == old(Unaccounted()) - if d.StoreOffline? then 1 else 0
      ensures d.Reroute? ==> d.targets != [] && AllRemote(self, d.targets) && rerouted > old(rerouted)
      ensures left + rerouted == old(left) + old(rerouted)
    {
      var answer := env.index(tick);
      SeenAfter(events, tick, node);
      LetTimeOut();
      d := DecideStep(node, answer);
    }

    /** decideUserNotFoundReroute: true when the message was rerouted to new nodes. */
    method DecideUserNotFound(node: NodeId) returns (ok: bool)
      requires Valid()
      modifies this
      ensures Valid() && Progress()
      ensures ok && !Standalone() ==> took > old(took) || crashed > old(crashed)
      ensures ok ==> rerouted > old(rerouted)
      ensures Unaccounted() == old(Unaccounted())
      ensures !hasIndex ==> !ok && events == old(events) && trace == old(trace) && offline == old(offline)
      ensures hasIndex ==> old(events) + Seen(old(tick), node) <= events
      ensures hasIndex ==> Decided(Decide(self, GuardAt(old(tick), old(guard)), node, env.index(old(tick))).1,
                                   old(tick) + 1, old(events) + Seen(old(tick), node), |old(trace)|,
                                   offline - old(offline), ok)
      decreases left, 1
    {
      if !hasIndex {
        return false;
      }
      var d := ConsultIndex(node);
      ok := Follow(d);
    }

    /** What a dispatch without reroutes, or with a delivery, makes of the routing's success. */
    ghost predicate OkBy(r: RouteResult, now: nat, ok: bool) {
      && (r.delivered > 0 ==> ok)
      && (r.delivered == 0 && r.refused != [] ==> !ok)
      && (r.delivered == 0 && r.refused == [] && r.missing == []
          ==> (ok <==> hasPubSub && !env.publish(now).failed))
    }

    /** The act is the dispatch to these targets, with its result. */
    ghost predicate IsDispatch(a: Act, now: nat, targets: seq<NodeId>) {
      a == Dispatched(now, targets, DispatchResult(now, targets))
    }

    /**
     * What follows a decision: a reroute dispatches to the chosen nodes; a store is one more offline store
     * and nothing else; otherwise nothing happens.
     */
    ghost predicate Decided(d: Decision, now: nat, seen: seq<Event>, n: nat, stored: int, ok: bool)
      reads this
    {
      match d
      case Reroute(targets) =>
        if Standalone() then ok
        else n < |trace| && IsDispatch(trace[n], now, targets) && OkBy(DispatchResult(now, targets), now + 1, ok)
      case StoreOffline => !ok && stored == 1 && events == seen && |trace| == n
      case Wait => !ok && stored == 0 && events == seen && |trace| == n
    }

    /** The part of decideUserNotFoundReroute after the lock. */
    method Follow(d: Decision) returns (ok: bool)
      requires Valid() && (d.Reroute? ==> AllRemote(self, d.targets))
      modifies this
      ensures Valid() && Progress()
      ensures ok ==> d.Reroute? && (Standalone() || took > old(took) || crashed > old(crashed))
      ensures Unaccounted() == old(Unaccounted()) + if d.StoreOffline? then 1 else 0
      ensures Decided(d, old(tick), old(events), |old(trace)|, offline - old(offline), ok)
      decreases left + if d.Reroute? then 1 else 0, 0
    {
      match d
      case Reroute(targets) =>
        ok := RouteOn(targets);
      case StoreOffline =>
        offline := offline + 1;
        ok := false;
      case Wait =>
        ok := false;
    }

    /** Routing again, to the nodes a decision chose. */
    method RouteOn(targets: seq<NodeId>) returns (ok: bool)
      requires Valid() && AllRemote(self, targets)
      modifies this
      ensures Valid() && Progress()
      ensures ok && !Standalone() ==> took > old(took) || crashed > old(crashed)
      ensures Unaccounted() == old(Unaccounted())
      ensures Standalone() || Routed(old(tick), targets, |old(trace)|, events[|old(events)|..])
      ensures if Standalone() then ok else OkBy(DispatchResult(old(tick), targets), old(tick) + 1, ok)
      decreases left, 7
    {
      ghost var account;
      ok, account := RouteToCluster(targets);
    }

    ghost function Targets(now: nat, targets: seq<NodeId>): seq<NodeId> {
      if targets != [] then targets else RemoteOf(self, env.nodes(now))
    }

    /** What happened to the workers of one dispatch. */
    ghost function Replies(now: nat, targets: seq<NodeId>): seq<Reply> {
      if !hasGrpc || !env.marshals(now) then []
      else seq(|Targets(now, targets)|, i requires 0 <= i => env.reply(now, i))
    }

    lemma DispatchSplits(now: nat, targets: seq<NodeId>)
      ensures DispatchResult(now, targets).delivered == Taken(Replies(now, targets)) + Crashed(Replies(now, targets))
    {
      if hasGrpc && env.marshals(now) {
        var nodes := Targets(now, targets);
        DeliveredSplits(nodes, Replies(now, targets), seq(|nodes|, i requires 0 <= i => Recorded(env.reply(now, i))));
      }
    }

    /**
     * A dispatch without reroute that is reported a success although nobody took the message: something
     * was recorded as delivered, each of those workers panicked, and nothing was published.
     */
    ghost predicate Hollow(r: RouteResult, taken: nat, now: nat) {
      r.delivered > 0 && taken == 0 && !(hasPubSub && r.fallback != [] && !env.publish(now).failed)
    }

    /**
     * routeToCluster for a message to one user. Termination is the claim of the decreases clauses:
     * whatever the nodes answer, whatever the index lists and wherever the ACK timeouts fall, the
     * recursion with DecideUserNotFound ends. On success some node took the message or it was
     * published, or a worker panicked; and exactly when it is a success that nobody took.
     */
    method RouteToCluster(targets: seq<NodeId>) returns (ok: bool, ghost account: Account)
      requires Valid() && AllRemote(self, targets)
      modifies this
      ensures Valid() && Progress() && Unaccounted() == old(Unaccounted())
      ensures ok && !Standalone() ==> took > old(took) || crashed > old(crashed)
      ensures Standalone() ==> ok && events == old(events) && trace == old(trace) && offline == old(offline)
      ensures Standalone() || Routed(old(tick), targets, |old(trace)|, events[|old(events)|..])
      ensures Standalone() || Explained(DispatchResult(old(tick), targets), Taken(Replies(old(tick), targets)),
                                        targets != [], old(tick) + 1, ok, account, took - old(took),
                                        guard == old(guard), offline - old(offline))
      ensures Standalone() || (account.again ==>
                rerouted > old(rerouted)
                && (account.taken > 0 || crashed > old(crashed) + Crashed(Replies(old(tick), targets))))
      ensures Standalone() || (account.published ==>
                EndsWith(trace, Checks(account.at, DispatchResult(old(tick), targets).fallback != [])))
      decreases left, 6
    {
      account := Account(false, 0, false, 0);
      if !hasPubSub && !hasGrpc {
        return true, account;
      }
      ok, account := RouteOnline(targets);
    }

    method RouteOnline(targets: seq<NodeId>) returns (ok: bool, ghost account: Account)
      requires Valid() && AllRemote(self, targets) && !Standalone()
      modifies this
      ensures Valid() && Progress() && Unaccounted() == old(Unaccounted())
      ensures ok ==> took > old(took) || crashed > old(crashed)
      ensures Routed(old(tick), targets, |old(trace)|, events[|old(events)|..])
      ensures Explained(DispatchResult(old(tick), targets), Taken(Replies(old(tick), targets)), targets != [],
                        old(tick) + 1, ok, account, took - old(took), guard == old(guard), offline - old(offline))
      ensures account.again ==>
                rerouted > old(rerouted)
                && (account.taken > 0 || crashed > old(crashed) + Crashed(Replies(old(tick), targets)))
      ensures account.published ==>
                EndsWith(trace, Checks(account.at, DispatchResult(old(tick), targets).fallback != []))
      decreases left, 5
    {
      var r := Dispatch(targets);
      ghost var replies := Replies(old(tick), targets);
      ok, account := Conclude(r, |targets| > 0, Taken(replies), Crashed(replies));
    }

    /** The dispatch, entered into the trace. */
    method Dispatch(targets: seq<NodeId>) returns (r: RouteResult)
      requires Valid() && AllRemote(self, targets)
      modifies this`tick, this`trace
      ensures Valid() && tick == old(tick) + 1 && trace == old(trace) + [Dispatched(old(tick), targets, r)]
      ensures r == DispatchResult(old(tick), targets)
      ensures r.delivered == Taken(Replies(old(tick), targets)) + Crashed(Replies(old(tick), targets))
      ensures ByRule() == old(ByRule()) - if targets != [] && r.delivered > 0 && r.refused != [] then 1 else 0
    {
      r := DispatchViaGrpc(targets);
      DispatchSplits(old(tick), targets);
      Note(Dispatched(old(tick), targets, r));
    }

    /** Unless every target refused, each node that answered "user not here" gets its decision, in order. */
    ghost predicate AllAsked(r: RouteResult, history: seq<Event>) {
      hasIndex && (r.delivered > 0 || r.refused == []) ==> MissesInOrder(history, r.missing)
    }

    /**
     * When routing succeeds, fails and stores offline, by the result of its dispatch; what took the message;
     * and exactly when it is a success that nobody took, with reroutes and without.
     */
    ghost predicate Explained(r: RouteResult, taken: nat, targeted: bool, now: nat, ok: bool, account: Account,
                              gain: int, sameGuard: bool, stored: int)
    {
      && OkBy(r, now, ok)
      && (r.delivered > 0 && r.refused != [] && targeted ==> stored > 0)
      && (r.delivered == 0 && r.refused != [] ==> sameGuard && stored == 0)
      && gain == taken + account.taken + (if account.published then 1 else 0)
      && (ok && gain == 0 <==> HollowWith(r, taken, account))
      && (r.missing == [] ==> (ok && gain == 0 <==> Hollow(r, taken, now)))
    }

    /**
     * The same with reroutes: besides, no reroute took it, and either something was recorded as delivered
     * or a reroute, itself such a success, was all there was.
     */
    ghost predicate HollowWith(r: RouteResult, taken: nat, account: Account) {
      && taken == 0 && account.taken == 0 && !account.published
      && (r.delivered > 0 || (r.refused == [] && RerouteAlone(r, account)))
    }

    /** A reroute that reported success, with nothing left to publish or no way to. */
    ghost predicate RerouteAlone(r: RouteResult, account: Account) {
      account.again && (!hasPubSub || r.fallback == [])
    }

    /** routeToCluster after the dispatch, of whose recorded deliveries some were taken and the rest panicked. */
    method Conclude(r: RouteResult, targeted: bool, ghost taken: nat, ghost panicked: nat)
      returns (ok: bool, ghost account: Account)
      requires Valid() && !Standalone() && r.delivered == taken + panicked
      modifies this
      ensures Valid() && Progress()
      ensures ok ==> took > old(took) || crashed > old(crashed)
      ensures Unaccounted()
              == old(Unaccounted()) + if targeted && r.delivered > 0 && r.refused != [] then 1 else 0
      ensures AllAsked(r, events[|old(events)|..])
      ensures r.missing == [] ==> events == old(events)
      ensures account.published ==> EndsWith(trace, Checks(account.at, r.fallback != []))
      ensures Explained(r, taken, targeted, old(tick), ok, account, took - old(took), guard == old(guard),
                        offline - old(offline))
      ensures account.again ==> rerouted > old(rerouted) && (account.taken > 0 || crashed > old(crashed) + panicked)
      decreases left, 4
    {
      account := Account(false, 0, false, 0);
      if |r.refused| > 0 {
        if r.delivered == 0 {
          return false, account;
        }
        if targeted {
          offline := offline + 1;
        }
      }
      ok, account := RerouteAndFinish(r, taken, panicked);
    }

    /** The reroutes for the nodes that miss the user, then what is left. */
    method RerouteAndFinish(r: RouteResult, ghost taken: nat, ghost panicked: nat)
      returns (ok: bool, ghost account: Account)
      requires Valid() && !Standalone() && r.delivered == taken + panicked
      modifies this
      ensures Valid() && Progress() && Unaccounted() == old(Unaccounted())
      ensures hasIndex ==> MissesInOrder(events[|old(events)|..], r.missing)
      ensures Finished(r, old(tick), ok, account, taken, took - old(took))
      ensures account.again ==> rerouted > old(rerouted) && (account.taken > 0 || crashed > old(crashed) + panicked)
      ensures crashed >= old(crashed) + panicked && (r.missing == [] ==> events == old(events))
      ensures account.published ==> EndsWith(trace, Checks(account.at, r.fallback != []))
      decreases left, 3
    {
      took, crashed := took + taken, crashed + panicked;
      ghost var before := took;
      ghost var oks;
      var rerouting;
      rerouting, oks := DecideAll(r.missing);
      ghost var taken', published := took - before, false;
      ghost var now := tick;
      ok, published := Finish(r, rerouting);
      PotentialLater(universe, timeouts, guard, now, tick);
      account := Account(rerouting, taken', published, now);
    }

    /** When it succeeds, what was taken, and when it publishes. */
    ghost predicate Finished(r: RouteResult, now: nat, ok: bool, account: Account, taken: int, gain: int) {
      && gain == taken + account.taken + (if account.published then 1 else 0)
      && (ok <==> r.delivered > 0 || account.published || RerouteAlone(r, account))
      && (account.published <==> && hasPubSub && !env.publish(account.at).failed
                                 && (r.fallback != [] || (r.delivered == 0 && !account.again)))
      && (r.missing == [] ==> !account.again && account.taken == 0 && account.at == now)
    }

    /** A targeted publication that reached some nodes nobody listens on is followed by the check. */
    ghost function Checks(now: nat, published: bool): seq<Act> {
      if published && env.publish(now).dead != [] then [Checked(now + 1, env.publish(now).dead)] else []
    }

    /** What gRPC left: nothing, a publication, or no way to publish. */
    method Finish(r: RouteResult, rerouting: bool) returns (ok: bool, ghost published: bool)
      modifies this`tick, this`offline, this`took, this`trace
      ensures ByRule() == old(ByRule())
      ensures trace == old(trace) + Checks(old(tick), published && r.fallback != [])
      ensures old(tick) <= tick && old(offline) <= offline && took == old(took) + if published then 1 else 0
      ensures published <==> && hasPubSub && !env.publish(old(tick)).failed
                             && (r.fallback != [] || (r.delivered == 0 && !rerouting))
      ensures ok <==> r.delivered > 0 || published || (rerouting && (!hasPubSub || r.fallback == []))
    {
      if |r.fallback| == 0 && r.delivered > 0 {
        return true, false;
      }
      if hasPubSub {
        ok, published := FallBackToPubSub(r.delivered, r.fallback, rerouting);
        return;
      }
      return r.delivered > 0 || rerouting, false;
    }

    /** The loop over the nodes that answered "user not here". */
    method DecideAll(missing: seq<NodeId>) returns (rerouting: bool, ghost oks: seq<bool>)
      requires Valid()
      modifies this
      ensures Valid() && Progress()
      ensures rerouting && !Standalone() ==> took > old(took) || crashed > old(crashed)
      ensures rerouting ==> rerouted > old(rerouted)
      ensures missing == [] ==> !rerouting && tick == old(tick) && took == old(took) && events == old(events)
      ensures Unaccounted() == old(Unaccounted())
      ensures hasIndex ==> MissesInOrder(events[|old(events)|..], missing)
      ensures |oks| == |missing| && (rerouting <==> true in oks)
      decreases left, 2
    {
      rerouting, oks := false, [];
      for i := 0 to |missing|
        invariant |oks| == i && (rerouting <==> true in oks)
        invariant Valid() && Progress()
        invariant rerouting && !Standalone() ==> took > old(took) || crashed > old(crashed)
        invariant rerouting ==> rerouted > old(rerouted)
        invariant missing == [] ==> !rerouting && tick == old(tick) && took == old(took) && events == old(events)
        invariant Unaccounted() == old(Unaccounted())
        invariant hasIndex ==> MissesInOrder(events[|old(events)|..], missing[..i])
      {
        ghost var before, seen := events, Seen(tick, missing[i]);
        var again := DecideUserNotFound(missing[i]);
        if hasIndex {
          MissGained(old(events), before, events, seen, missing, i);
        }
        rerouting, oks := rerouting || again, oks + [again];
      }
      assert missing[..|missing|] == missing;
    }

    lemma MissGained(start: seq<Event>, before: seq<Event>, after: seq<Event>, seen: seq<Event>,
                     missing: seq<NodeId>, i: nat)
      requires start <= before && before + seen <= after && i < |missing|
      requires seen != [] && MissAt(seen, |seen| - 1, missing[i])
      requires MissesInOrder(before[|start|..], missing[..i])
      ensures MissesInOrder(after[|start|..], missing[..i + 1])
    {
      var k := |before| + |seen| - 1 - |start|;
      assert after[|start|..][k] == (before + seen)[|before| + |seen| - 1];
      assert before[|start|..] <= after[|start|..] by {
        assert before <= before + seen;
      }
      MissesOneMore(before[|start|..], after[|start|..], missing, i, k);
    }

    /**
     * The PubSub branch: targeted publication to the nodes gRPC could not serve, a broadcast when
     * there are none and nothing was rerouted, and the check for nodes nobody listens on.
     */
    method FallBackToPubSub(delivered: nat, fallback: seq<NodeId>, rerouting: bool)
      returns (ok: bool, ghost published: bool)
      requires delivered == 0 || fallback != []
      modifies this`tick, this`offline, this`took, this`trace
      ensures ByRule() == old(ByRule())
      ensures trace == old(trace) + Checks(old(tick), published && fallback != [])
      ensures old(tick) <= tick && old(offline) <= offline && took == old(took) + if published then 1 else 0
      ensures published <==> (fallback != [] || !rerouting) && !env.publish(old(tick)).failed
      ensures ok <==> delivered > 0 || (fallback == [] && rerouting) || published
    {
      var p := Publication(false, []);
      published := false;
      if delivered > 0 || |fallback| > 0 {
        p := env.publish(tick);
        tick := tick + 1;
        published := !p.failed;
      } else if !rerouting {
        p := Publication(env.publish(tick).failed, []);
        tick := tick + 1;
        published := !p.failed;
      }
      took := took + if published then 1 else 0;
      if p.failed {
        return delivered > 0, published;
      }
      if |p.dead| > 0 {
        HandleDeadNodes(p.dead);
      }
      return true, published;
    }

    /**
     * The result of one dispatch: without gRPC everything falls back, without a serialised message
     * all other nodes do, and otherwise each target goes where its recorded outcome sends it.
     */
    ghost function DispatchResult(now: nat, targets: seq<NodeId>): RouteResult {
      var nodes := Targets(now, targets);
      if !hasGrpc then RouteResult(0, [], [], nodes)
      else if !env.marshals(now) then RouteResult(0, [], [], RemoteOf(self, env.nodes(now)))
      else Partition(nodes, seq(|nodes|, i requires 0 <= i => Recorded(env.reply(now, i))))
    }

    /** The workers' outcome slots, each filled by its own worker. */
    method CollectOutcomes(now: nat, n: nat) returns (r: seq<Outcome>)
      ensures r == seq(n, i requires 0 <= i => Recorded(env.reply(now, i)))
    {
      var outcomes := new Outcome[n];
      for i := 0 to n
        invariant forall j :: 0 <= j < i ==> outcomes[j] == Recorded(env.reply(now, j))
      {
        outcomes[i] := Recorded(env.reply(now, i));
      }
      r := outcomes[..];
    }

    /** dispatchViaGRPC: send to every target and sort the targets by outcome. */
    method DispatchViaGrpc(targets: seq<NodeId>) returns (r: RouteResult)
      requires Valid() && AllRemote(self, targets)
      modifies this`tick
      ensures Valid() && tick == old(tick) + 1 && r == DispatchResult(old(tick), targets)
      ensures AllRemote(self, r.refused + r.missing + r.fallback)
      ensures !hasGrpc ==> r.delivered == 0 && r.refused == r.missing == [] && r.fallback == Targets(old(tick), targets)
      ensures hasGrpc && !env.marshals(old(tick)) ==>
                r.delivered == 0 && r.refused == r.missing == [] && r.fallback == RemoteOf(self, env.nodes(old(tick)))
      ensures hasGrpc && env.marshals(old(tick)) ==>
                && Lists(old(tick), targets, r.missing, Replied(Missing), Replied(Missing))
                && Lists(old(tick), targets, r.refused, Replied(Refused), Replied(Refused))
                && Lists(old(tick), targets, r.fallback, Replied(Fallback), NoAddress)
    {
      var now := tick;
      PotentialLater(universe, timeouts, guard, tick, tick + 1);
      tick := tick + 1;
      var others := RemoteOf(self, env.nodes(now));
      if !hasGrpc {
        return RouteResult(0, [], [], if targets != [] then targets else others);
      }
      if !env.marshals(now) {
        return RouteResult(0, [], [], others);
      }
      var nodes := if targets != [] then targets else others;
      r := SendToAll(now, nodes, targets);
    }

    /** The list of a kind holds the nodes whose workers came to one of two things. */
    ghost predicate Lists(now: nat, targets: seq<NodeId>, nodes: seq<NodeId>, a: Reply, b: Reply) {
      forall n :: n in nodes <==> Answered(now, targets, n, a) || Answered(now, targets, n, b)
    }

    /** One worker per target, then the sorting. */
    method SendToAll(now: nat, nodes: seq<NodeId>, ghost targets: seq<NodeId>) returns (r: RouteResult)
      requires nodes == Targets(now, targets)
      ensures r == Partition(nodes, seq(|nodes|, i requires 0 <= i => Recorded(env.reply(now, i))))
      ensures Lists(now, targets, r.missing, Replied(Missing), Replied(Missing))
      ensures Lists(now, targets, r.refused, Replied(Refused), Replied(Refused))
      ensures Lists(now, targets, r.fallback, Replied(Fallback), NoAddress)
      ensures AllRemote(self, nodes) ==> AllRemote(self, r.refused + r.missing + r.fallback)
    {
      var outcomes := CollectOutcomes(now, |nodes|);
      r := SortByOutcome(nodes, outcomes);
      forall n
        ensures n in r.missing <==> Answered(now, targets, n, Replied(Missing))
        ensures n in r.refused <==> Answered(now, targets, n, Replied(Refused))
        ensures n in r.fallback
                <==> Answered(now, targets, n, Replied(Fallback)) || Answered(now, targets, n, NoAddress)
      {
        RepliesSorted(now, nodes, outcomes, targets, n);
      }
    }

    /** One of the workers for node n came to this. */
    ghost predicate Answered(now: nat, targets: seq<NodeId>, n: NodeId, reply: Reply) {
      exists i: nat :: i < |Targets(now, targets)| && Targets(now, targets)[i] == n && env.reply(now, i) == reply
    }

    lemma RepliesSorted(now: nat, nodes: seq<NodeId>, outcomes: seq<Outcome>, targets: seq<NodeId>, n: NodeId)
      requires nodes == Targets(now, targets) && |outcomes| == |nodes|
      requires forall i :: 0 <= i < |nodes| ==> outcomes[i] == Recorded(env.reply(now, i))
      ensures n in Select(nodes, outcomes, Missing) <==> Answered(now, targets, n, Replied(Missing))
      ensures n in Select(nodes, outcomes, Refused) <==> Answered(now, targets, n, Replied(Refused))
      ensures n in Select(nodes, outcomes, Fallback)
              <==> Answered(now, targets, n, Replied(Fallback)) || Answered(now, targets, n, NoAddress)
    {
    }

    /** handleDeadNodesForP2P: store offline unless the user still has a remote node that is alive. */
    method HandleDeadNodes(dead: seq<NodeId>)
      modifies this`tick, this`offline, this`trace
      ensures trace == old(trace) + [Checked(old(tick), dead)] && ByRule() == old(ByRule())
      ensures old(tick) <= tick
      ensures offline == old(offline) + if hasIndex && AllNodesDead(self, env.index(old(tick)), dead) then 1 else 0
    {
      var now := tick;
      var gone := NobodyLeft(dead);
      Note(Checked(now, dead));
      if gone {
        offline := offline + 1;
      }
    }

    method NobodyLeft(dead: seq<NodeId>) returns (gone: bool)
      modifies this`tick
      ensures old(tick) <= tick && (gone <==> hasIndex && AllNodesDead(self, env.index(old(tick)), dead))
    {
      if !hasIndex {
        return false;
      }
      gone := AllDead(self, env.index(tick), dead);
      tick := tick + 1;
    }

    /**
     * checkAndRouteToNode, with the node list it looked up: record the attempt, then route. Over
     * the whole recursion the all-rejected rule stores the message offline at most once, and at
     * most 2 * |universe| nodes are rerouted to, and |universe| more for each ACK timeout.
     */
    method CheckAndRouteToNode(lookup: IndexAnswer) returns (routed: bool, targets: seq<NodeId>, failed: bool)
      requires Valid()
      modifies this
      ensures Valid()
      ensures routed ==> took > old(took) || crashed > old(crashed)
      ensures lookup.Nodes? && (routed || failed) ==>
                Attempts(RemoteOf(self, lookup.ids), old(events), old(tick), |old(trace)|, routed)
      ensures !(routed && failed) && (failed ==> !Standalone() && hasIndex)
      ensures routed ==> targets != [] && lookup.Nodes? && targets == RemoteOf(self, lookup.ids)
      ensures !routed && !failed ==>
                && guard == old(guard) && took == old(took) && offline == old(offline)
                && (Standalone() || !hasIndex || (lookup.Nodes? && Remote(self, lookup.ids) == {}))
      ensures Stores(self, NoEntry, events) <= Stores(self, NoEntry, old(events)) + 1
      ensures Unaccounted() == old(Unaccounted())
      ensures rerouted <= old(rerouted) + 2 * |universe| + Forgetting(universe, timeouts, old(tick))
    {
      if (!hasPubSub && !hasGrpc) || !hasIndex {
        return false, [], false;
      }
      if lookup.QueryFailed? {
        return false, [], true;
      }
      var others := FilterRemote(self, lookup.ids);
      if others == [] {
        return false, [], false;
      }
      var ok := AttemptAndRoute(others);
      if !ok {
        return false, [], true;
      }
      return true, others, false;
    }

    method AttemptAndRoute(targets: seq<NodeId>) returns (ok: bool)
      requires Valid() && AllRemote(self, targets)
      modifies this
      ensures Valid() && (ok && !Standalone() ==> took > old(took) || crashed > old(crashed))
      ensures Standalone() || Attempts(targets, old(events), old(tick), |old(trace)|, ok)
      ensures Stores(self, NoEntry, events) <= Stores(self, NoEntry, old(events)) + 1
      ensures Unaccounted() == old(Unaccounted())
      ensures rerouted <= old(rerouted) + 2 * |universe| + Forgetting(universe, timeouts, old(tick))
    {
      ghost var before := events;
      ok := RecordAndRoute(targets);
      OneStoreSince(before, targets, events);
    }

    method RecordAndRoute(targets: seq<NodeId>) returns (ok: bool)
      requires Valid() && AllRemote(self, targets)
      modifies this
      ensures Valid() && (ok && !Standalone() ==> took > old(took) || crashed > old(crashed))
      ensures Standalone() || Attempts(targets, old(events), old(tick), |old(trace)|, ok)
      ensures old(events) + [Attempted(targets, true)] <= events
      ensures forall k :: |old(events)| + 1 <= k < |events| && events[k].Attempted? ==> !events[k].p2p
      ensures Unaccounted() == old(Unaccounted())
      ensures rerouted <= old(rerouted) + 2 * |universe| + Forgetting(universe, timeouts, old(tick))
    {
      MarkAttempted(targets, true);
      SlackBound(universe, guard);
      ghost var n := |events|;
      assert n == |old(events)| + 1;
      ok := RouteOn(targets);
      assert Standalone() || Routed(old(tick), targets, |old(trace)|, events[n..]);
    }

    /** The same for any history that goes on from the attempt. */
    lemma OneStoreSince(before: seq<Event>, targets: seq<NodeId>, history: seq<Event>)
      requires before + [Attempted(targets, true)] <= history
      requires forall k :: |before| + 1 <= k < |history| && history[k].Attempted? ==> !history[k].p2p
      ensures Stores(self, NoEntry, history) <= Stores(self, NoEntry, before) + 1
    {
      var n := |before| + 1;
      assert history == before + [Attempted(targets, true)] + history[n..];
      OneStore(before, targets, history[n..]);
    }

    /** The attempt was recorded, the targets routed to, and the success is that of the routing. */
    ghost predicate Attempts(targets: seq<NodeId>, before: seq<Event>, now: nat, n: nat, ok: bool)
      reads this
    {
      && before + [Attempted(targets, true)] <= events
      && Routed(now, targets, n, events[|before| + 1..])
      && OkBy(DispatchResult(now, targets), now + 1, ok)
    }

    /** The targets were dispatched to, and those that miss the user were asked about. */
    ghost predicate Routed(now: nat, targets: seq<NodeId>, n: nat, history: seq<Event>)
      reads this
    {
      n < |trace| && IsDispatch(trace[n], now, targets) && AllAsked(DispatchResult(now, targets), history)
    }

    lemma OneStore(before: seq<Event>, targets: seq<NodeId>, rest: seq<Event>)
      requires NoNewP2P(rest)
      ensures Stores(self, NoEntry, before + [Attempted(targets, true)] + rest) <= Stores(self, NoEntry, before) + 1
    {
      var marked := before + [Attempted(targets, true)];
      RunsCompose(self, NoEntry, marked, rest);
      AtMostOneStore(self, After(self, NoEntry, marked), rest);
      assert marked[..|before|] == before;
    }
  }

  /** One target, whose worker panics, and no PubSub: a success that nobody took. */
  method PanicCountsAsDelivered(self: NodeId, target: NodeId, env: Environment, timeouts: seq<bool>,
                                ghost universe: set<NodeId>)
    returns (ok: bool, ghost took: nat, ghost crashed: nat)
    requires IsRemote(self, target) && env.marshals(0) && env.reply(0, 0) == Panicked
    requires forall t: nat, n :: env.index(t).Nodes? && n in env.index(t).ids ==> n in universe
    ensures ok && took == 0 && crashed > 0
  {
    var routing := new MessageRouting(self, false, true, true, env, timeouts, universe);
    ghost var account;
    var replies: seq<Reply> := [Panicked];
    assert routing.Replies(0, [target]) == replies && replies[..0] == [];
    assert Taken(replies) == 0 && Crashed(replies) == 1;
    routing.DispatchSplits(0, [target]);
    assert routing.DispatchResult(0, [target]) == Partition([target], [Delivered]);
    assert Select([target], [Delivered], Missing) == [] by {
      assert [target][..0] == [] && [Delivered][..0] == [];
    }
    assert routing.Hollow(routing.DispatchResult(0, [target]), 0, 1);
    ok, account := routing.RouteToCluster([target]);
    took, crashed := routing.took, routing.crashed;
  }

  /** A message sent to one node that misses the user, whom the index no longer lists, is stored offline. */
  method AllRejectedIsStored(self: NodeId, target: NodeId, env: Environment, ghost universe: set<NodeId>)
    returns (stored: nat)
    requires IsRemote(self, target) && env.index(0) == Nodes([])
    requires forall t: nat, n :: env.index(t).Nodes? && n in env.index(t).ids ==> n in universe
    ensures stored == 1
  {
    var routing := new MessageRouting(self, false, true, true, env, [], universe);
    routing.MarkAttempted([target], true);
    assert Remote(self, [target]) == {target};
    assert routing.guard == Entry({target}, {}, true) by {
      AfterAppend(self, [], Attempted([target], true));
      assert [] + [Attempted([target], true)] == [Attempted([target], true)];
    }
    assert Decide(self, routing.guard, target, Nodes([])).1 == StoreOffline;
    var ok := routing.DecideUserNotFound(target);
    stored := routing.offline;
  }

  /** The loop that sorts the targets of one dispatch by outcome. */
  method SortByOutcome(nodes: seq<NodeId>, outcomes: seq<Outcome>) returns (r: RouteResult)
    requires |nodes| == |outcomes|
    ensures r == Partition(nodes, outcomes)
  {
    r := RouteResult(0, [], [], []);
    for i := 0 to |nodes|
      invariant r == Partition(nodes[..i], outcomes[..i])
    {
      assert nodes[..i + 1][..i] == nodes[..i] && outcomes[..i + 1][..i] == outcomes[..i];
      match outcomes[i]
      case Delivered => r := r.(delivered := r.delivered + 1);
      case Refused => r := r.(refused := r.refused + [nodes[i]]);
      case Missing => r := r.(missing := r.missing + [nodes[i]]);
      case Fallback => r := r.(fallback := r.fallback + [nodes[i]]);
    }
    assert nodes[..|nodes|] == nodes && outcomes[..|nodes|] == outcomes;
  }

  /** markRerouteAttempted on the entry: create it if there is none, raise its flag, record the nodes. */
  method MarkOnEntry(self: NodeId, g: Guard, targets: seq<NodeId>, p2p: bool) returns (g': Guard)
    ensures g' == MarkAttempted(self, g, targets, p2p)
  {
    var attempted, rejected, flag := {}, {}, p2p;
    if g.Entry? {
      attempted, rejected, flag := g.attempted, g.rejected, g.p2p || p2p;
    }
    attempted := Record(self, attempted, targets);
    g' := Entry(attempted, rejected, flag);
  }

  /** decideUserNotFoundReroute on the entry: record the rejection, choose, record the choice. */
  method DecideOnEntry(self: NodeId, g: Guard, node: NodeId, answer: IndexAnswer) returns (g': Guard, d: Decision)
    ensures (g', d) == Decide(self, g, node, answer)
  {
    g' := if g.NoEntry? then Entry({}, {}, false) else g;
    if IsRemote(self, node) {
      g' := g'.(rejected := g'.rejected + {node});
    }
    assert g' == MarkRejected(self, g, node);
    if answer.QueryFailed? {
      return g', Wait;
    }
    var targets := CollectCandidates(self, g', answer.ids);
    var allRejected := HasRejectedAll(g'.attempted, g'.rejected);
    if targets != [] {
      var attempted := Record(self, g'.attempted, targets);
      return g'.(attempted := attempted), Reroute(targets);
    }
    if allRejected && g'.p2p {
      return NoEntry, StoreOffline;
    }
    return g', Wait;
  }

  /** The loop that drops the local node from a node list. */
  method FilterRemote(self: NodeId, nodes: seq<NodeId>) returns (r: seq<NodeId>)
    ensures r == RemoteOf(self, nodes)
  {
    r := [];
    for i := 0 to |nodes|
      invariant r == RemoteOf(self, nodes[..i])
    {
      assert nodes[..i + 1][..i] == nodes[..i];
      if IsRemote(self, nodes[i]) {
        r := r + [nodes[i]];
      }
    }
    assert nodes[..|nodes|] == nodes;
  }

  /** The loop that enters remote nodes into the attempted set. */
  method Record(self: NodeId, attempted: set<NodeId>, targets: seq<NodeId>) returns (r: set<NodeId>)
    ensures r == attempted + Remote(self, targets)
  {
    r := attempted;
    for i := 0 to |targets|
      invariant r == attempted + Remote(self, targets[..i])
    {
      assert targets[..i + 1] == targets[..i] + [targets[i]];
      if IsRemote(self, targets[i]) {
        r := r + {targets[i]};
      }
    }
    assert targets[..|targets|] == targets;
  }

  /** The loop that keeps the nodes of the index that were never tried and never rejected. */
  method CollectCandidates(self: NodeId, g: Guard, ids: seq<NodeId>) returns (targets: seq<NodeId>)
    requires g.Entry?
    ensures targets == Candidates(self, g, ids)
  {
    targets := [];
    for i := 0 to |ids|
      invariant targets == Candidates(self, g, ids[..i])
    {
      assert ids[..i + 1][..i] == ids[..i];
      if IsCandidate(self, g, ids[i]) {
        targets := targets + [ids[i]];
      }
    }
    assert ids[..|ids|] == ids;
  }

  /** Every remote node of the list is dead. */
  predicate NoneAlive(self: NodeId, ids: seq<NodeId>, dead: seq<NodeId>)
    ensures NoneAlive(self, ids, dead) <==> forall i :: 0 <= i < |ids| && IsRemote(self, ids[i]) ==> ids[i] in dead
  {
    ids == []
    || (NoneAlive(self, ids[..|ids| - 1], dead) && (IsRemote(self, ids[|ids| - 1]) ==> ids[|ids| - 1] in dead))
  }

  /** The index lists nodes of the user, and every other node among them is dead. */
  predicate AllNodesDead(self: NodeId, answer: IndexAnswer, dead: seq<NodeId>) {
    answer.Nodes? && answer.ids != [] && NoneAlive(self, answer.ids, dead)
  }

  /** The loop that stops at the first remote node that is alive. */
  method AllDead(self: NodeId, answer: IndexAnswer, dead: seq<NodeId>) returns (all: bool)
    ensures all <==> AllNodesDead(self, answer, dead)
  {
    if answer.QueryFailed? || answer.ids == [] {
      return false;
    }
    for i := 0 to |answer.ids|
      invariant forall j :: 0 <= j < i && IsRemote(self, answer.ids[j]) ==> answer.ids[j] in dead
    {
      if IsRemote(self, answer.ids[i]) && answer.ids[i] !in dead {
        return false;
      }
    }
    return true;
  }

  /** The loop over the attempted nodes that stops at the first one not rejected. */
  method HasRejectedAll(attempted: set<NodeId>, rejected: set<NodeId>) returns (all: bool)
    ensures all <==> attempted != {} && attempted <= rejected
  {
    all := |attempted| > 0;
    var rest := attempted;
    while rest != {}
      invariant rest <= attempted && all == (attempted != {})
      invariant attempted - rest <= rejected
      decreases rest
    {
      var n :| n in rest;
      if n !in rejected {
        return false;
      }
      rest := rest - {n};
    }
  }
}
