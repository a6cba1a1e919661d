/**
 * The reroute guard of one message: which nodes it was sent to, which answered that the user is
 * not there, and whether it is a point-to-point message (whose offline copy is not stored yet).
 *
 * A decision on a "user not found" answer is one atomic step here; RerouteGuardSteps takes it apart.
 * The online index that decisions consult is adversarial: it answers any list of nodes, or fails. The
 * ACK timeout and the expiry of the entry may come at any time.
 */
module RerouteGuard {

  type NodeId = string

  datatype Guard =
    | NoEntry
    | Entry(attempted: set<NodeId>, rejected: set<NodeId>, p2p: bool)

  datatype IndexAnswer = Nodes(ids: seq<NodeId>) | QueryFailed

  datatype Event =
    | Attempted(targets: seq<NodeId>, p2p: bool)    // markRerouteAttempted
    | UserMiss(node: NodeId, answer: IndexAnswer)   // decideUserNotFoundReroute
    | AckTimeout                                    // the timer's callback deletes the entry
    | Expired                                       // swept, or reset by the next access

  datatype Decision = Reroute(targets: seq<NodeId>) | StoreOffline | Wait

  predicate IsRemote(self: NodeId, n: NodeId) {
    n != "" && n != self
  }

  function Remote(self: NodeId, nodes: seq<NodeId>): set<NodeId> {
    set n | n in nodes && IsRemote(self, n)
  }

  /** LoadOrStore creates the entry with the caller's flag; an existing flag is only ever raised. */
  function MarkAttempted(self: NodeId, g: Guard, targets: seq<NodeId>, p2p: bool): Guard {
    match g
    case NoEntry => Entry(Remote(self, targets), {}, p2p)
    case Entry(attempted, rejected, flag) => Entry(attempted + Remote(self, targets), rejected, flag || p2p)
  }

  /** A missing entry is created as not point-to-point: it never turns the message offline. */
  function MarkRejected(self: NodeId, g: Guard, node: NodeId): (r: Guard)
    ensures r.Entry?
  {
    match g
    case NoEntry => Entry({}, Remote(self, [node]), false)
    case Entry(attempted, rejected, flag) => Entry(attempted, rejected + Remote(self, [node]), flag)
  }

  predicate IsCandidate(self: NodeId, g: Guard, n: NodeId)
    requires g.Entry?
  {
    IsRemote(self, n) && n !in g.attempted && n !in g.rejected
  }

  /** Nodes of the index that were never tried and never rejected, in index order. */
  function Candidates(self: NodeId, g: Guard, ids: seq<NodeId>): (r: seq<NodeId>)
    requires g.Entry?
    ensures forall n :: n in r <==> n in ids && IsCandidate(self, g, n)
  {
    if ids == [] then []
    else
      var r := Candidates(self, g, ids[..|ids| - 1]);
      var last := ids[|ids| - 1];
      assert ids == ids[..|ids| - 1] + [last];
      if IsCandidate(self, g, last) then r + [last] else r
  }

  predicate AllRejected(g: Guard)
    requires g.Entry?
  {
    g.attempted != {} && g.attempted <= g.rejected
  }

  function Decide(self: NodeId, g: Guard, node: NodeId, answer: IndexAnswer): (Guard, Decision) {
    var e := MarkRejected(self, g, node);
    match answer
    case QueryFailed => (e, Wait)
    case Nodes(ids) =>
      var targets := Candidates(self, e, ids);
      if targets != [] then (e.(attempted := e.attempted + Remote(self, targets)), Reroute(targets))
      else if AllRejected(e) && e.p2p then (NoEntry, StoreOffline)
      else (e, Wait)
  }

  function Next(self: NodeId, g: Guard, e: Event): (Guard, Decision) {
    match e
    case Attempted(targets, p2p) => (MarkAttempted(self, g, targets, p2p), Wait)
    case UserMiss(node, answer) => Decide(self, g, node, answer)
    case AckTimeout => (NoEntry, Wait)
    case Expired => (NoEntry, Wait)
  }

  /** The guard after a run of events, and the decision taken at event k of it. */
  function After(self: NodeId, g: Guard, events: seq<Event>): Guard {
    if events == [] then g
    else Next(self, After(self, g, events[..|events| - 1]), events[|events| - 1]).0
  }

  function DecisionAt(self: NodeId, g: Guard, events: seq<Event>, k: nat): Decision
    requires k < |events|
  {
    Next(self, After(self, g, events[..k]), events[k]).1
  }

  /** Offline stores caused by the all-rejected rule over a run. */
  function Stores(self: NodeId, g: Guard, events: seq<Event>): nat {
    if events == [] then 0
    else
      Stores(self, g, events[..|events| - 1])
      + (if Next(self, After(self, g, events[..|events| - 1]), events[|events| - 1]).1.StoreOffline? then 1 else 0)
  }

  lemma AfterStep(self: NodeId, g: Guard, events: seq<Event>, k: nat)
    requires k < |events|
    ensures After(self, g, events[..k + 1]) == Next(self, After(self, g, events[..k]), events[k]).0
    ensures Stores(self, g, events[..k + 1])
            == Stores(self, g, events[..k]) + (if DecisionAt(self, g, events, k).StoreOffline? then 1 else 0)
  {
    assert events[..k + 1][..k] == events[..k];
  }

  // ---------------------------------------------------------------------------------------------
  // Reroute safety
  // ---------------------------------------------------------------------------------------------

  /** The entry remembers that `n` was attempted (or rejected). */
  predicate Knows(g: Guard, n: NodeId) {
    g.Entry? && (n in g.attempted || n in g.rejected)
  }

  /** The event ends the lifetime of the entry: a terminal store, an ACK timeout or the expiry. */
  predicate Ends(self: NodeId, g: Guard, e: Event) {
    e.AckTimeout? || e.Expired? || Next(self, g, e).1.StoreOffline?
  }

  /** The event sends the message to `n`, by the initial attempt or by a reroute. */
  predicate Sends(self: NodeId, g: Guard, e: Event, n: NodeId) {
    || (e.Attempted? && n in Remote(self, e.targets))
    || (Next(self, g, e).1.Reroute? && n in Next(self, g, e).1.targets)
  }

  predicate EndsAt(self: NodeId, g: Guard, events: seq<Event>, k: nat)
    requires k < |events|
  {
    Ends(self, After(self, g, events[..k]), events[k])
  }

  predicate SentAt(self: NodeId, g: Guard, events: seq<Event>, k: nat, n: NodeId)
    requires k < |events|
  {
    Sends(self, After(self, g, events[..k]), events[k], n)
  }

  predicate RejectedAt(self: NodeId, events: seq<Event>, k: nat, n: NodeId)
    requires k < |events|
  {
    events[k].UserMiss? && events[k].node == n && IsRemote(self, n)
  }

  /** A node is known after an event exactly if the entry lives on and it was known, sent to or rejected. */
  lemma KnowledgeStep(self: NodeId, g: Guard, e: Event, n: NodeId)
    ensures Knows(Next(self, g, e).0, n)
            <==> !Ends(self, g, e)
                 && (Knows(g, n) || Sends(self, g, e, n) || (e.UserMiss? && e.node == n && IsRemote(self, n)))
  {
    if e.UserMiss? {
      assert n in Remote(self, [e.node]) <==> n == e.node && IsRemote(self, n);
    }
  }

  /** Nothing but a terminal store, an ACK timeout or the expiry makes the guard forget a node. */
  lemma {:induction false} KnowledgeKept(self: NodeId, g: Guard, events: seq<Event>, i: nat, j: nat, n: NodeId)
    requires i <= j <= |events|
    requires Knows(After(self, g, events[..i]), n)
    requires forall k :: i <= k < j ==> !EndsAt(self, g, events, k)
    ensures Knows(After(self, g, events[..j]), n)
    decreases j - i
  {
    if i < j {
      KnowledgeKept(self, g, events, i, j - 1, n);
      AfterStep(self, g, events, j - 1);
      assert !EndsAt(self, g, events, j - 1);
      KnowledgeStep(self, After(self, g, events[..j - 1]), events[j - 1], n);
    }
  }

  /** Within one lifetime of the guard entry, no node is a reroute target twice. */
  lemma RerouteTargetsDisjoint(self: NodeId, g: Guard, events: seq<Event>, i: nat, j: nat)
    requires i < j < |events|
    requires DecisionAt(self, g, events, i).Reroute? && DecisionAt(self, g, events, j).Reroute?
    requires forall k :: i < k < j ==> !EndsAt(self, g, events, k)
    ensures forall n :: n in DecisionAt(self, g, events, i).targets ==> n !in DecisionAt(self, g, events, j).targets
  {
    forall n | n in DecisionAt(self, g, events, i).targets
      ensures n !in DecisionAt(self, g, events, j).targets
    {
      AfterStep(self, g, events, i);
      KnowledgeKept(self, g, events, i + 1, j, n);
    }
  }

  /** A reroute never goes to the local node, nor to a node that rejected in this lifetime. */
  lemma RerouteAvoidsRejecters(self: NodeId, g: Guard, events: seq<Event>, i: nat, j: nat)
    requires i <= j < |events| && events[i].UserMiss?
    requires DecisionAt(self, g, events, j).Reroute?
    requires forall k :: i <= k < j ==> !EndsAt(self, g, events, k)
    ensures events[i].node !in DecisionAt(self, g, events, j).targets
    ensures self !in DecisionAt(self, g, events, j).targets && "" !in DecisionAt(self, g, events, j).targets
  {
    var n := events[i].node;
    if i < j && IsRemote(self, n) {
      assert !EndsAt(self, g, events, i);
      AfterStep(self, g, events, i);
      KnowledgeStep(self, After(self, g, events[..i]), events[i], n);
      KnowledgeKept(self, g, events, i + 1, j, n);
    }
  }

  /**
   * Over any run, a node that was sent the message is rerouted to again only after the entry ended in
   * between: by the terminal offline store, an ACK timeout or the expiry.
   */
  lemma ResentOnlyAfterEnd(self: NodeId, g: Guard, events: seq<Event>, i: nat, j: nat, n: NodeId)
    requires i < j < |events| && SentAt(self, g, events, i, n)
    requires DecisionAt(self, g, events, j).Reroute? && n in DecisionAt(self, g, events, j).targets
    ensures exists k :: i < k < j && EndsAt(self, g, events, k)
  {
    if forall k :: i < k < j ==> !EndsAt(self, g, events, k) {
      AfterStep(self, g, events, i);
      KnowledgeStep(self, After(self, g, events[..i]), events[i], n);
      KnowledgeKept(self, g, events, i + 1, j, n);
    }
  }

  // ---------------------------------------------------------------------------------------------
  // The offline store happens once
  // ---------------------------------------------------------------------------------------------

  ghost predicate NoNewP2P(events: seq<Event>) {
    forall k :: 0 <= k < |events| && events[k].Attempted? ==> !events[k].p2p
  }

  /** Only a point-to-point entry can store, and storing deletes it: at most one store per attempt. */
  lemma {:induction false} AtMostOneStore(self: NodeId, g: Guard, events: seq<Event>)
    requires NoNewP2P(events)
    ensures Stores(self, g, events) + (if IsP2P(After(self, g, events)) then 1 else 0) <= if IsP2P(g) then 1 else 0
    decreases |events|
  {
    if events != [] {
      AtMostOneStore(self, g, events[..|events| - 1]);
      assert !(events[|events| - 1].Attempted? && events[|events| - 1].p2p);
    }
  }

  predicate IsP2P(g: Guard) {
    g.Entry? && g.p2p
  }

  /** Event m was a point-to-point attempt, and the entry has lived since. */
  ghost predicate RaisedAt(self: NodeId, events: seq<Event>, m: nat, j: nat)
    requires m < j <= |events|
  {
    && events[m].Attempted? && events[m].p2p
    && forall k :: m <= k < j ==> !EndsAt(self, NoEntry, events, k)
  }

  lemma FlagStep(self: NodeId, g: Guard, e: Event)
    ensures IsP2P(Next(self, g, e).0) <==> !Ends(self, g, e) && (IsP2P(g) || (e.Attempted? && e.p2p))
  {
  }

  /** The guard is point-to-point exactly if an attempt since the entry last ended was. */
  lemma {:induction false} P2PExactly(self: NodeId, events: seq<Event>, j: nat)
    requires j <= |events|
    ensures IsP2P(After(self, NoEntry, events[..j])) <==> exists m: nat :: m < j && RaisedAt(self, events, m, j)
    decreases j
  {
    if j > 0 {
      var i := j - 1;
      P2PExactly(self, events, i);
      AfterStep(self, NoEntry, events, i);
      FlagStep(self, After(self, NoEntry, events[..i]), events[i]);
      if IsP2P(After(self, NoEntry, events[..j])) {
        if m: nat :| m < i && RaisedAt(self, events, m, i) {
          assert RaisedAt(self, events, m, j);
        } else {
          assert RaisedAt(self, events, i, j);
        }
      }
      if m: nat :| m < j && RaisedAt(self, events, m, j) {
        assert !EndsAt(self, NoEntry, events, i);
        if m < i {
          assert RaisedAt(self, events, m, i);
        }
      }
    }
  }

  function Missed(events: seq<Event>): set<NodeId> {
    set k | 0 <= k < |events| && events[k].UserMiss? :: events[k].node
  }

  /** Every event is a rejection by an attempted node, with an index that knows no other node. */
  ghost predicate OnlyRejections(self: NodeId, attempted: set<NodeId>, events: seq<Event>) {
    forall k :: 0 <= k < |events| ==>
      && events[k].UserMiss? && events[k].node in attempted && events[k].answer.Nodes?
      && Remote(self, events[k].answer.ids) <= attempted
  }

  lemma {:induction false} NoCandidates(self: NodeId, g: Guard, ids: seq<NodeId>)
    requires g.Entry? && forall n :: n in ids ==> !IsCandidate(self, g, n)
    ensures Candidates(self, g, ids) == []
  {
    if ids != [] {
      NoCandidates(self, g, ids[..|ids| - 1]);
    }
  }

  lemma MissedLast(events: seq<Event>)
    requires events != [] && events[|events| - 1].UserMiss?
    ensures Missed(events) == Missed(events[..|events| - 1]) + {events[|events| - 1].node}
  {
    assert events == events[..|events| - 1] + [events[|events| - 1]];
  }

  lemma {:induction false} RejectionRun(self: NodeId, attempted: set<NodeId>, events: seq<Event>)
    requires attempted != {} && self !in attempted && "" !in attempted
    requires OnlyRejections(self, attempted, events)
    ensures var g := Entry(attempted, {}, true);
            var covered := attempted <= Missed(events);
            && (!covered ==> After(self, g, events) == Entry(attempted, Missed(events), true))
            && (covered ==> !IsP2P(After(self, g, events)))
            && Stores(self, g, events) == if covered then 1 else 0
    decreases |events|
  {
    if events != [] {
      var init, last := events[..|events| - 1], events[|events| - 1];
      RejectionRun(self, attempted, init);
      MissedLast(events);
      if attempted <= Missed(init) {
        NotP2PStays(self, After(self, Entry(attempted, {}, true), init), last);
      } else {
        RejectionStep(self, attempted, Missed(init), last);
      }
    }
  }

  lemma RejectionStep(self: NodeId, attempted: set<NodeId>, missed: set<NodeId>, e: Event)
    requires self !in attempted && "" !in attempted && attempted != {}
    requires e.UserMiss? && e.node in attempted && e.answer.Nodes? && Remote(self, e.answer.ids) <= attempted
    ensures Next(self, Entry(attempted, missed, true), e)
            == if attempted <= missed + {e.node} then (NoEntry, StoreOffline)
               else (Entry(attempted, missed + {e.node}, true), Wait)
  {
    assert Remote(self, [e.node]) == {e.node};
    var g := Entry(attempted, missed + {e.node}, true);
    forall n | n in e.answer.ids ensures !IsCandidate(self, g, n) {
      assert IsRemote(self, n) ==> n in Remote(self, e.answer.ids);
    }
    NoCandidates(self, g, e.answer.ids);
  }

  lemma NotP2PStays(self: NodeId, g: Guard, e: Event)
    requires !IsP2P(g) && e.UserMiss?
    ensures !IsP2P(Next(self, g, e).0) && !Next(self, g, e).1.StoreOffline?
  {
  }

  /**
   * A point-to-point message sent to `attempted`, with no other node in the index: every order and
   * duplication of rejections stores it offline exactly once, at the last distinct rejection.
   */
  lemma OfflineStoredExactlyOnce(self: NodeId, attempted: set<NodeId>, events: seq<Event>)
    requires attempted != {} && self !in attempted && "" !in attempted
    requires OnlyRejections(self, attempted, events)
    ensures Stores(self, Entry(attempted, {}, true), events) == if attempted <= Missed(events) then 1 else 0
    ensures forall k :: 0 <= k < |events| ==>
              (DecisionAt(self, Entry(attempted, {}, true), events, k).StoreOffline?
               <==> attempted <= Missed(events[..k + 1]) && !(attempted <= Missed(events[..k])))
  {
    RejectionRun(self, attempted, events);
    forall k | 0 <= k < |events|
      ensures DecisionAt(self, Entry(attempted, {}, true), events, k).StoreOffline?
              <==> attempted <= Missed(events[..k + 1]) && !(attempted <= Missed(events[..k]))
    {
      StoreAtLastRejection(self, attempted, events, k);
    }
  }

  lemma StoreAtLastRejection(self: NodeId, attempted: set<NodeId>, events: seq<Event>, k: nat)
    requires attempted != {} && self !in attempted && "" !in attempted
    requires OnlyRejections(self, attempted, events) && k < |events|
    ensures DecisionAt(self, Entry(attempted, {}, true), events, k).StoreOffline?
            <==> attempted <= Missed(events[..k + 1]) && !(attempted <= Missed(events[..k]))
  {
    AfterStep(self, Entry(attempted, {}, true), events, k);
    RejectionRun(self, attempted, events[..k + 1]);
    RejectionRun(self, attempted, events[..k]);
    assert Missed(events[..k]) <= Missed(events[..k + 1]) by {
      forall i | 0 <= i < k ensures events[..k][i] == events[..k + 1][i] {}
    }
  }

  // ---------------------------------------------------------------------------------------------
  // What the guard forgets
  // ---------------------------------------------------------------------------------------------

  /** A late duplicate rejection finds no entry, and the message goes to a node that already had it. */
  lemma LateDuplicateResends()
    ensures var g := Entry({"n1", "n2"}, {}, true);
            var events := [UserMiss("n1", Nodes([])), UserMiss("n2", Nodes([])), UserMiss("n1", Nodes(["n2"]))];
            && DecisionAt("n0", g, events, 1) == StoreOffline
            && DecisionAt("n0", g, events, 2) == Reroute(["n2"])
  {
  }

  /** After an ACK timeout a late rejection sends the message to a node that has it, without any store. */
  lemma TimeoutResends()
    ensures var events := [Attempted(["n1", "n2"], true), AckTimeout, UserMiss("n1", Nodes(["n2"]))];
            && SentAt("n0", NoEntry, events, 0, "n2")
            && DecisionAt("n0", NoEntry, events, 2) == Reroute(["n2"])
            && Stores("n0", NoEntry, events) == 0
  {
    var events := [Attempted(["n1", "n2"], true), AckTimeout, UserMiss("n1", Nodes(["n2"]))];
    assert events[..2][..1] == events[..1] && events[..3] == events;
    AfterStep("n0", NoEntry, events, 0);
    AfterStep("n0", NoEntry, events, 1);
    AfterStep("n0", NoEntry, events, 2);
    FreshEntryResends("n0", "n1", "n2");
  }

  /** Without an entry, whatever other node the index lists is sent the message. */
  lemma FreshEntryResends(self: NodeId, node: NodeId, n: NodeId)
    requires IsRemote(self, n) && n != node
    ensures Decide(self, NoEntry, node, Nodes([n])).1 == Reroute([n])
  {
    var e := MarkRejected(self, NoEntry, node);
    assert [n][..0] == [];
    assert n !in e.rejected;
    assert Candidates(self, e, [n]) == [n];
  }

  /**
   * Exactly when a decision can send the message again to one of the nodes in `ever`: when the
   * entry, with the rejecting node added, does not know all of them.
   */
  lemma ResendPossibleIff(self: NodeId, g: Guard, node: NodeId, ever: set<NodeId>)
    requires self !in ever && "" !in ever
    ensures (exists answer, n :: n in ever && DecisionSendsTo(self, g, node, answer, n))
            <==> exists n :: n in ever && n != node && !Knows(g, n)
  {
    if n :| n in ever && n != node && !Knows(g, n) {
      var e := MarkRejected(self, g, node);
      assert n in Candidates(self, e, [n]);
      assert DecisionSendsTo(self, g, node, Nodes([n]), n);
    }
  }

  predicate DecisionSendsTo(self: NodeId, g: Guard, node: NodeId, answer: IndexAnswer, n: NodeId) {
    var d := Decide(self, g, node, answer).1;
    d.Reroute? && n in d.targets
  }

  /** Event m sent the message to `n` or rejected it there, and the entry has lived since. */
  ghost predicate RecordedAt(self: NodeId, events: seq<Event>, m: nat, j: nat, n: NodeId)
    requires m < j <= |events|
  {
    && (SentAt(self, NoEntry, events, m, n) || RejectedAt(self, events, m, n))
    && forall k :: m <= k < j ==> !EndsAt(self, NoEntry, events, k)
  }

  /** What the guard knows, by the history alone. */
  lemma {:induction false} KnowsExactly(self: NodeId, events: seq<Event>, j: nat, n: NodeId)
    requires j <= |events|
    ensures Knows(After(self, NoEntry, events[..j]), n) <==> exists m: nat :: m < j && RecordedAt(self, events, m, j, n)
    decreases j
  {
    if j > 0 {
      var i := j - 1;
      KnowsExactly(self, events, i, n);
      AfterStep(self, NoEntry, events, i);
      KnowledgeStep(self, After(self, NoEntry, events[..i]), events[i], n);
      if Knows(After(self, NoEntry, events[..j]), n) {
        if m: nat :| m < i && RecordedAt(self, events, m, i, n) {
          assert RecordedAt(self, events, m, j, n);
        } else {
          assert RecordedAt(self, events, i, j, n);
        }
      }
      if m: nat :| m < j && RecordedAt(self, events, m, j, n) {
        assert !EndsAt(self, NoEntry, events, i);
        if m < i {
          assert RecordedAt(self, events, m, i, n);
        }
      }
    }
  }

  /**
   * Exactly when, after any run, a rejection by `node` can send the message to `n`, for some answer of
   * the index: when every earlier send to `n` and every rejection by it lies before an end of the entry.
   */
  lemma ResendPossibleOverRuns(self: NodeId, events: seq<Event>, node: NodeId, n: NodeId)
    requires IsRemote(self, n)
    ensures (exists answer :: DecisionSendsTo(self, After(self, NoEntry, events), node, answer, n))
            <==> n != node && forall m: nat :: m < |events| ==> !RecordedAt(self, events, m, |events|, n)
  {
    var g := After(self, NoEntry, events);
    assert events[..|events|] == events;
    KnowsExactly(self, events, |events|, n);
    ResendPossibleIff(self, g, node, {n});
    if answer :| DecisionSendsTo(self, g, node, answer, n) {
      assert n in {n} && DecisionSendsTo(self, g, node, answer, n);
    }
  }
}
