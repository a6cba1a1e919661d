/**
 * The reroute guard at the granularity of its locks. Loading or creating the entry, each locked section,
 * the offline store and the deletion are separate steps, of any number of calls at a time, and the ACK
 * timeout may come between any two. A call keeps working on the entry it loaded after the map has lost it.
 */
module RerouteGuardSteps {
  import opened Options
  import opened RerouteGuard

  type CallId = nat

  type Live = g: Guard | g.Entry? witness Entry({}, {}, false)

  /** A call that has loaded an entry, by what it does next. */
  datatype Call =
    | Marking(entry: nat, targets: seq<NodeId>, p2p: bool)   // lock in markRerouteAttempted
    | Rejecting(entry: nat, node: NodeId)                    // lock in markRerouteRejected
    | Consulting(entry: nat)                                 // ask the index, lock again and choose
    | Storing(entry: nat)                                    // store the message offline
    | Deleting(entry: nat)                                   // delete whatever the map then holds

  datatype State = State(entries: seq<Live>, slot: Option<nat>, calls: map<CallId, Call>, stores: nat)

  const Start: State := State([], None, map[], 0)

  datatype Action =
    | Attempt(c: CallId, targets: seq<NodeId>, p2p: bool)
    | Miss(c: CallId, node: NodeId)
    | Mark(c: CallId)
    | Reject(c: CallId)
    | Choose(c: CallId, answer: IndexAnswer)
    | Store(c: CallId)
    | Delete(c: CallId)
    | TimeOut

  predicate At(s: State, c: CallId) {
    c in s.calls && s.calls[c].entry < |s.entries|
  }

  /** LoadOrStore: the entry in the map, or a new one. */
  function Load(s: State, p2p: bool): State {
    if s.slot.Some? then s else s.(entries := s.entries + [Entry({}, {}, p2p)], slot := Some(|s.entries|))
  }

  function Loaded(s: State): nat {
    if s.slot.Some? then s.slot.value else |s.entries|
  }

  /** What the second locked section decides on the entry. */
  function Verdict(self: NodeId, g: Live, answer: IndexAnswer): Decision {
    if answer.QueryFailed? then Wait
    else if Candidates(self, g, answer.ids) != [] then Reroute(Candidates(self, g, answer.ids))
    else if AllRejected(g) && g.p2p then StoreOffline
    else Wait
  }

  function Chosen(self: NodeId, s: State, c: CallId, answer: IndexAnswer): State
    requires At(s, c)
  {
    var e := s.calls[c].entry;
    match Verdict(self, s.entries[e], answer)
    case Reroute(targets) =>
      s.(entries := s.entries[e := MarkAttempted(self, s.entries[e], targets, false)], calls := s.calls - {c})
    case StoreOffline => s.(calls := s.calls[c := Storing(e)])
    case Wait => s.(calls := s.calls - {c})
  }

  /** One step; an action that is not enabled changes nothing. */
  function Apply(self: NodeId, s: State, a: Action): State {
    match a
    case Attempt(c, targets, p2p) =>
      if c in s.calls then s else Load(s, p2p).(calls := s.calls[c := Marking(Loaded(s), targets, p2p)])
    case Miss(c, node) =>
      if c in s.calls then s else Load(s, false).(calls := s.calls[c := Rejecting(Loaded(s), node)])
    case Mark(c) =>
      if At(s, c) && s.calls[c].Marking? then
        var m := s.calls[c];
        s.(entries := s.entries[m.entry := MarkAttempted(self, s.entries[m.entry], m.targets, m.p2p)],
           calls := s.calls - {c})
      else s
    case Reject(c) =>
      if At(s, c) && s.calls[c].Rejecting? then
        var m := s.calls[c];
        s.(entries := s.entries[m.entry := MarkRejected(self, s.entries[m.entry], m.node)],
           calls := s.calls[c := Consulting(m.entry)])
      else s
    case Choose(c, answer) => if At(s, c) && s.calls[c].Consulting? then Chosen(self, s, c, answer) else s
    case Store(c) =>
      if At(s, c) && s.calls[c].Storing? then
        s.(calls := s.calls[c := Deleting(s.calls[c].entry)], stores := s.stores + 1)
      else s
    case Delete(c) => if At(s, c) && s.calls[c].Deleting? then s.(slot := None, calls := s.calls - {c}) else s
    case TimeOut => s.(slot := None)
  }

  function Run(self: NodeId, s: State, actions: seq<Action>): State
    decreases |actions|
  {
    if actions == [] then s
    else Apply(self, Run(self, s, actions[..|actions| - 1]), actions[|actions| - 1])
  }

  /** The state before action k of a run from the start. */
  function Before(self: NodeId, actions: seq<Action>, k: nat): State
    requires k <= |actions|
  {
    Run(self, Start, actions[..k])
  }

  lemma RunStep(self: NodeId, s: State, actions: seq<Action>, k: nat)
    requires k < |actions|
    ensures Run(self, s, actions[..k + 1]) == Apply(self, Run(self, s, actions[..k]), actions[k])
  {
    assert actions[..k + 1][..k] == actions[..k];
  }

  lemma BeforeStep(self: NodeId, actions: seq<Action>, k: nat)
    requires k < |actions|
    ensures Before(self, actions, k + 1) == Apply(self, Before(self, actions, k), actions[k])
  {
    RunStep(self, Start, actions, k);
  }

  // ---------------------------------------------------------------------------------------------
  // An uninterrupted decision is the atomic one
  // ---------------------------------------------------------------------------------------------

  function Current(s: State): Guard {
    if s.slot.Some? && s.slot.value < |s.entries| then s.entries[s.slot.value] else NoEntry
  }

  predicate SlotValid(s: State) {
    s.slot.Some? ==> s.slot.value < |s.entries|
  }

  /** The steps of one decision, nothing between them, act on the guard as the atomic decision does. */
  lemma DecideIsItsSteps(self: NodeId, s: State, c: CallId, node: NodeId, answer: IndexAnswer)
    requires c !in s.calls && SlotValid(s)
    ensures var t := Run(self, s, [Miss(c, node), Reject(c), Choose(c, answer), Store(c), Delete(c)]);
            var (g, d) := Decide(self, Current(s), node, answer);
            && Current(t) == g && t.calls == s.calls
            && t.stores == s.stores + if d.StoreOffline? then 1 else 0
  {
    var m := Apply(self, s, Miss(c, node));
    var r := Apply(self, m, Reject(c));
    assert Current(r) == MarkRejected(self, Current(s), node);
    FiveSteps(self, s, Miss(c, node), Reject(c), Choose(c, answer), Store(c), Delete(c));
    assert s.calls[c := Rejecting(Loaded(s), node)] - {c} == s.calls;
    ChosenAlone(self, s, r, c, node, answer);
  }

  /** A decision after an ACK timeout finds no entry, whatever the entry before it knew. */
  lemma TimeoutForgets(self: NodeId, s: State, c: CallId, node: NodeId, answer: IndexAnswer)
    requires c !in s.calls && SlotValid(s)
    ensures Current(Run(self, Apply(self, s, TimeOut),
                        [Miss(c, node), Reject(c), Choose(c, answer), Store(c), Delete(c)]))
            == Decide(self, NoEntry, node, answer).0
  {
    DecideIsItsSteps(self, Apply(self, s, TimeOut), c, node, answer);
  }

  lemma ChosenAlone(self: NodeId, s: State, r: State, c: CallId, node: NodeId, answer: IndexAnswer)
    requires c !in s.calls && At(r, c) && r.slot == Some(r.calls[c].entry) && r.calls[c].Consulting?
    requires r.calls == s.calls[c := r.calls[c]] && r.stores == s.stores
    requires Current(r) == MarkRejected(self, Current(s), node)
    ensures var t := Apply(self, Apply(self, Apply(self, r, Choose(c, answer)), Store(c)), Delete(c));
            var (g, d) := Decide(self, Current(s), node, answer);
            && Current(t) == g && t.calls == s.calls
            && t.stores == s.stores + if d.StoreOffline? then 1 else 0
  {
    var e := r.entries[r.calls[c].entry];
    assert r.calls - {c} == s.calls;
    var d := Decide(self, Current(s), node, answer).1;
    assert d == Verdict(self, e, answer);
    if d.Reroute? {
      assert e.(attempted := e.attempted + Remote(self, d.targets)) == MarkAttempted(self, e, d.targets, false);
    } else if d.StoreOffline? {
      assert r.calls[c := Storing(r.calls[c].entry)][c := Deleting(r.calls[c].entry)] - {c} == s.calls;
    }
  }

  lemma FiveSteps(self: NodeId, s: State, a: Action, b: Action, c: Action, d: Action, e: Action)
    ensures Run(self, s, [a, b, c, d, e])
            == Apply(self, Apply(self, Apply(self, Apply(self, Apply(self, s, a), b), c), d), e)
  {
    var actions := [a, b, c, d, e];
    RunStep(self, s, actions, 0);
    RunStep(self, s, actions, 1);
    RunStep(self, s, actions, 2);
    RunStep(self, s, actions, 3);
    RunStep(self, s, actions, 4);
    assert actions[..5] == actions;
  }

  // ---------------------------------------------------------------------------------------------
  // What an entry holds, by the history of its locked sections
  // ---------------------------------------------------------------------------------------------

  /** The step is the first locked section of an attempt on entry e. */
  predicate MarksOn(s: State, a: Action, e: nat) {
    a.Mark? && At(s, a.c) && s.calls[a.c].Marking? && s.calls[a.c].entry == e
  }

  predicate RejectsOn(s: State, a: Action, e: nat) {
    a.Reject? && At(s, a.c) && s.calls[a.c].Rejecting? && s.calls[a.c].entry == e
  }

  predicate ChoosesOn(s: State, a: Action, e: nat) {
    a.Choose? && At(s, a.c) && s.calls[a.c] == Consulting(e)
  }

  predicate Reroutes(self: NodeId, s: State, a: Action, e: nat, n: NodeId) {
    ChoosesOn(s, a, e)
    && Verdict(self, s.entries[e], a.answer).Reroute? && n in Verdict(self, s.entries[e], a.answer).targets
  }

  /** The step records on entry e that the message goes to n. */
  predicate Routes(self: NodeId, s: State, a: Action, e: nat, n: NodeId) {
    || (MarksOn(s, a, e) && n in Remote(self, s.calls[a.c].targets))
    || Reroutes(self, s, a, e, n)
  }

  predicate Rejects(self: NodeId, s: State, a: Action, e: nat, n: NodeId) {
    RejectsOn(s, a, e) && s.calls[a.c].node == n && IsRemote(self, n)
  }

  predicate StoresOn(self: NodeId, s: State, a: Action, e: nat) {
    ChoosesOn(s, a, e) && Verdict(self, s.entries[e], a.answer).StoreOffline?
  }

  /** The step decides to store the message offline. */
  predicate Stores(self: NodeId, s: State, a: Action) {
    a.Choose? && At(s, a.c) && StoresOn(self, s, a, s.calls[a.c].entry)
  }

  /** The step makes entry e point-to-point, or creates it so. */
  predicate Raises(s: State, a: Action, e: nat) {
    || (MarksOn(s, a, e) && s.calls[a.c].p2p)
    || (a.Attempt? && a.p2p && a.c !in s.calls && s.slot.None? && e == |s.entries|)
  }

  /** A step adds to an entry exactly what it records there, and takes nothing away. */
  lemma EntryStep(self: NodeId, s: State, a: Action, e: nat, n: NodeId)
    requires e < |s.entries|
    ensures var t := Apply(self, s, a);
            && e < |t.entries|
            && (n in t.entries[e].attempted <==> n in s.entries[e].attempted || Routes(self, s, a, e, n))
            && (n in t.entries[e].rejected <==> n in s.entries[e].rejected || Rejects(self, s, a, e, n))
            && (t.entries[e].p2p <==> s.entries[e].p2p || Raises(s, a, e))
  {
    if a.Reject? && At(s, a.c) && s.calls[a.c].Rejecting? {
      assert n in Remote(self, [s.calls[a.c].node]) <==> n == s.calls[a.c].node && IsRemote(self, n);
    }
  }

  lemma NewEntryEmpty(self: NodeId, s: State, a: Action)
    ensures var t := Apply(self, s, a);
            && |s.entries| <= |t.entries| <= |s.entries| + 1
            && (|s.entries| < |t.entries| ==>
                  && t.entries[|s.entries|].attempted == {} == t.entries[|s.entries|].rejected
                  && (t.entries[|s.entries|].p2p <==> Raises(s, a, |s.entries|)))
  {
  }

  ghost predicate RoutedBefore(self: NodeId, actions: seq<Action>, k: nat, e: nat, n: NodeId)
    requires k <= |actions|
  {
    exists m: nat :: m < k && Routes(self, Before(self, actions, m), actions[m], e, n)
  }

  ghost predicate RejectedBefore(self: NodeId, actions: seq<Action>, k: nat, e: nat, n: NodeId)
    requires k <= |actions|
  {
    exists m: nat :: m < k && Rejects(self, Before(self, actions, m), actions[m], e, n)
  }

  ghost predicate RaisedBefore(self: NodeId, actions: seq<Action>, k: nat, e: nat)
    requires k <= |actions|
  {
    exists m: nat :: m < k && Raises(Before(self, actions, m), actions[m], e)
  }

  lemma RoutedGrows(self: NodeId, actions: seq<Action>, j: nat, e: nat, n: NodeId)
    requires j < |actions|
    ensures RoutedBefore(self, actions, j + 1, e, n)
            <==> RoutedBefore(self, actions, j, e, n) || Routes(self, Before(self, actions, j), actions[j], e, n)
  {
  }

  lemma RejectedGrows(self: NodeId, actions: seq<Action>, j: nat, e: nat, n: NodeId)
    requires j < |actions|
    ensures RejectedBefore(self, actions, j + 1, e, n)
            <==> RejectedBefore(self, actions, j, e, n) || Rejects(self, Before(self, actions, j), actions[j], e, n)
  {
  }

  lemma RaisedGrows(self: NodeId, actions: seq<Action>, j: nat, e: nat)
    requires j < |actions|
    ensures RaisedBefore(self, actions, j + 1, e)
            <==> RaisedBefore(self, actions, j, e) || Raises(Before(self, actions, j), actions[j], e)
  {
  }

  /**
   * Over every interleaving an entry holds exactly the nodes routed to and rejected on it, and is
   * point-to-point exactly if an attempt made it so.
   */
  lemma {:induction false} EntryExactly(self: NodeId, actions: seq<Action>, k: nat, e: nat, n: NodeId)
    requires k <= |actions| && e < |Before(self, actions, k).entries|
    ensures n in Before(self, actions, k).entries[e].attempted <==> RoutedBefore(self, actions, k, e, n)
    ensures n in Before(self, actions, k).entries[e].rejected <==> RejectedBefore(self, actions, k, e, n)
    ensures Before(self, actions, k).entries[e].p2p <==> RaisedBefore(self, actions, k, e)
    decreases k
  {
    var j := k - 1;
    var s := Before(self, actions, j);
    BeforeStep(self, actions, j);
    RoutedGrows(self, actions, j, e, n);
    RejectedGrows(self, actions, j, e, n);
    RaisedGrows(self, actions, j, e);
    EntriesStep(self, s, actions[j]);
    if e < |s.entries| {
      EntryExactly(self, actions, j, e, n);
      EntryStep(self, s, actions[j], e, n);
    } else {
      NewEntryEmpty(self, s, actions[j]);
      NothingBefore(self, actions, j, e, n);
      NothingNew(self, s, actions[j], e, n);
    }
  }

  /** Nothing is routed or rejected on an entry that does not exist yet. */
  lemma NothingNew(self: NodeId, s: State, a: Action, e: nat, n: NodeId)
    requires |s.entries| <= e
    ensures !Routes(self, s, a, e, n) && !Rejects(self, s, a, e, n)
    ensures Raises(s, a, e) ==> e < |Apply(self, s, a).entries|
  {
  }

  lemma NothingBefore(self: NodeId, actions: seq<Action>, k: nat, e: nat, n: NodeId)
    requires k <= |actions| && |Before(self, actions, k).entries| <= e
    ensures !RoutedBefore(self, actions, k, e, n) && !RejectedBefore(self, actions, k, e, n)
    ensures !RaisedBefore(self, actions, k, e)
  {
    forall m: nat | m < k
      ensures !Routes(self, Before(self, actions, m), actions[m], e, n)
      ensures !Rejects(self, Before(self, actions, m), actions[m], e, n)
      ensures !Raises(Before(self, actions, m), actions[m], e)
    {
      EntriesGrow(self, actions, m, k);
      EntriesGrow(self, actions, m + 1, k);
      BeforeStep(self, actions, m);
      NothingNew(self, Before(self, actions, m), actions[m], e, n);
    }
  }

  lemma EntriesStep(self: NodeId, s: State, a: Action)
    ensures |s.entries| <= |Apply(self, s, a).entries|
  {
  }

  lemma {:induction false} EntriesGrow(self: NodeId, actions: seq<Action>, i: nat, j: nat)
    requires i <= j <= |actions|
    ensures |Before(self, actions, i).entries| <= |Before(self, actions, j).entries|
    decreases j - i
  {
    if i < j {
      var k := j - 1;
      EntriesGrow(self, actions, i, k);
      BeforeStep(self, actions, k);
      EntriesStep(self, Before(self, actions, k), actions[k]);
    }
  }

  // ---------------------------------------------------------------------------------------------
  // Reroutes
  // ---------------------------------------------------------------------------------------------

  /** No decision reroutes to a node that was routed to, or rejected, on its entry, however the calls interleave. */
  lemma SentOncePerEntry(self: NodeId, actions: seq<Action>, i: nat, j: nat, e: nat, n: NodeId)
    requires i < j < |actions|
    requires Routes(self, Before(self, actions, i), actions[i], e, n)
             || Rejects(self, Before(self, actions, i), actions[i], e, n)
    ensures !Reroutes(self, Before(self, actions, j), actions[j], e, n)
  {
    assert RoutedBefore(self, actions, j, e, n) || RejectedBefore(self, actions, j, e, n);
    if Reroutes(self, Before(self, actions, j), actions[j], e, n) {
      EntryExactly(self, actions, j, e, n);
    }
  }

  /** The step takes the entry out of the map. */
  predicate Clears(s: State, a: Action) {
    a.TimeOut? || (a.Delete? && At(s, a.c) && s.calls[a.c].Deleting?)
  }

  /** As long as nothing was deleted there is one entry. */
  lemma {:induction false} OneEntry(self: NodeId, actions: seq<Action>, k: nat)
    requires k <= |actions|
    requires forall m: nat :: m < k ==> !Clears(Before(self, actions, m), actions[m])
    ensures |Before(self, actions, k).entries| <= if Before(self, actions, k).slot.Some? then 1 else 0
    decreases k
  {
    if k > 0 {
      OneEntry(self, actions, k - 1);
      BeforeStep(self, actions, k - 1);
      OneEntryStep(self, Before(self, actions, k - 1), actions[k - 1]);
    }
  }

  lemma OneEntryStep(self: NodeId, s: State, a: Action)
    requires !Clears(s, a) && |s.entries| <= if s.slot.Some? then 1 else 0
    ensures |Apply(self, s, a).entries| <= if Apply(self, s, a).slot.Some? then 1 else 0
  {
  }

  /** Over every interleaving, a node routed to is rerouted to again only if an entry was deleted before. */
  lemma ResentOnlyAfterDeletion(self: NodeId, actions: seq<Action>, i: nat, j: nat, e: nat, f: nat, n: NodeId)
    requires i < j < |actions|
    requires Routes(self, Before(self, actions, i), actions[i], e, n)
    requires Reroutes(self, Before(self, actions, j), actions[j], f, n)
    ensures e != f && exists k: nat :: k < j && Clears(Before(self, actions, k), actions[k])
  {
    if e == f {
      SentOncePerEntry(self, actions, i, j, f, n);
    }
    if forall k: nat :: k < j ==> !Clears(Before(self, actions, k), actions[k]) {
      OneEntry(self, actions, j);
      EntriesGrow(self, actions, i, j);
    }
  }

  // ---------------------------------------------------------------------------------------------
  // Offline stores
  // ---------------------------------------------------------------------------------------------

  lemma TwoSteps(self: NodeId, s: State, a: Action, b: Action)
    ensures Run(self, s, [a, b]) == Apply(self, Apply(self, s, a), b)
  {
    RunStep(self, s, [a, b], 0);
    RunStep(self, s, [a, b], 1);
    assert [a, b][..2] == [a, b] && [a, b][..0] == [];
  }

  /** Two calls are about to decide on the one entry of the message. */
  predicate TwoConsulting(s: State, g: Live) {
    && s.entries == [g] && s.stores == 0
    && 1 in s.calls && s.calls[1] == Consulting(0) && 2 in s.calls && s.calls[2] == Consulting(0)
  }

  lemma Sent(self: NodeId, n: NodeId, m: NodeId)
    requires IsRemote(self, n) && IsRemote(self, m)
    ensures Run(self, Start, [Attempt(0, [n, m], true), Mark(0)]) == State([Entry({n, m}, {}, true)], Some(0), map[], 0)
  {
    TwoSteps(self, Start, Attempt(0, [n, m], true), Mark(0));
    assert Remote(self, [n, m]) == {n, m};
    var g := Entry({n, m}, {}, true);
    var marking := Apply(self, Start, Attempt(0, [n, m], true));
    assert marking.entries == [Entry({}, {}, true)] && marking.entries[0 := g] == [g];
    assert MarkAttempted(self, Entry({}, {}, true), [n, m], true) == g;
    assert marking.calls - {0} == map[];
  }

  lemma BothReject(self: NodeId, s: State, g: Live, n: NodeId, m: NodeId)
    requires IsRemote(self, n) && IsRemote(self, m) && s == State([g], Some(0), map[], 0) && g.rejected == {}
    ensures TwoConsulting(Run(self, Run(self, s, [Miss(1, n), Miss(2, m)]), [Reject(1), Reject(2)]),
                          g.(rejected := {n, m}))
  {
    TwoSteps(self, s, Miss(1, n), Miss(2, m));
    var t := Run(self, s, [Miss(1, n), Miss(2, m)]);
    TwoSteps(self, t, Reject(1), Reject(2));
    assert t.entries == [g] && t.calls == map[1 := Rejecting(0, n), 2 := Rejecting(0, m)];
    assert Remote(self, [n]) == {n} && Remote(self, [m]) == {m};
    assert MarkRejected(self, g, n) == g.(rejected := {n});
    assert [g][0 := g.(rejected := {n})] == [g.(rejected := {n})];
    assert MarkRejected(self, g.(rejected := {n}), m) == g.(rejected := {n, m});
    assert [g.(rejected := {n})][0 := g.(rejected := {n, m})] == [g.(rejected := {n, m})];
  }

  lemma BothStore(self: NodeId, s: State, g: Live)
    requires TwoConsulting(s, g) && Settled(g)
    ensures Run(self, Run(self, s, [Choose(1, Nodes([])), Choose(2, Nodes([]))]), [Store(1), Store(2)]).stores == 2
  {
    TwoSteps(self, s, Choose(1, Nodes([])), Choose(2, Nodes([])));
    var t := Run(self, s, [Choose(1, Nodes([])), Choose(2, Nodes([]))]);
    assert t.entries == [g] && t.calls == s.calls[1 := Storing(0)][2 := Storing(0)];
    TwoSteps(self, t, Store(1), Store(2));
  }

  /** Two rejections in flight both see that all nodes rejected, and the message is stored twice. */
  lemma StoredTwice(self: NodeId, n: NodeId, m: NodeId)
    requires IsRemote(self, n) && IsRemote(self, m)
    ensures var sent := Run(self, Start, [Attempt(0, [n, m], true), Mark(0)]);
            var rejected := Run(self, Run(self, sent, [Miss(1, n), Miss(2, m)]), [Reject(1), Reject(2)]);
            var chosen := Run(self, rejected, [Choose(1, Nodes([])), Choose(2, Nodes([]))]);
            Run(self, chosen, [Store(1), Store(2)]).stores == 2
  {
    Sent(self, n, m);
    var g := Entry({n, m}, {}, true);
    var sent := State([g], Some(0), map[], 0);
    BothReject(self, sent, g, n, m);
    assert n in {n, m};
    BothStore(self, Run(self, Run(self, sent, [Miss(1, n), Miss(2, m)]), [Reject(1), Reject(2)]),
              g.(rejected := {n, m}));
  }

  /**
   * Exactly when a decision stores, by the history of its entry: the entry is point-to-point, somebody was
   * routed to on it, and all of them, and every other node the index lists, have rejected on it.
   */
  lemma StoresIff(self: NodeId, actions: seq<Action>, k: nat, e: nat)
    requires k < |actions| && ChoosesOn(Before(self, actions, k), actions[k], e) && actions[k].answer.Nodes?
    ensures StoresOn(self, Before(self, actions, k), actions[k], e)
            <==> && RaisedBefore(self, actions, k, e)
                 && (exists n :: RoutedBefore(self, actions, k, e, n))
                 && (forall n :: RoutedBefore(self, actions, k, e, n) ==> RejectedBefore(self, actions, k, e, n))
                 && (forall n :: n in Remote(self, actions[k].answer.ids) ==> RejectedBefore(self, actions, k, e, n))
  {
    var g, ids := Before(self, actions, k).entries[e], actions[k].answer.ids;
    EntryExactly(self, actions, k, e, "");
    forall n
      ensures n in g.attempted <==> RoutedBefore(self, actions, k, e, n)
      ensures n in g.rejected <==> RejectedBefore(self, actions, k, e, n)
    {
      EntryExactly(self, actions, k, e, n);
    }
    VerdictStores(self, g, ids);
  }

  lemma VerdictStores(self: NodeId, g: Live, ids: seq<NodeId>)
    ensures Verdict(self, g, Nodes(ids)).StoreOffline?
            <==> && g.p2p && (exists n :: n in g.attempted) && (forall n :: n in g.attempted ==> n in g.rejected)
                 && (forall n :: n in Remote(self, ids) ==> n in g.rejected)
  {
    if Candidates(self, g, ids) != [] {
      assert Candidates(self, g, ids)[0] in Candidates(self, g, ids);
    } else {
      forall n | n in Remote(self, ids) ensures n in g.attempted || n in g.rejected {
        assert n !in Candidates(self, g, ids);
      }
    }
  }

  /**
   * Exactly when an entry is stored again: after a decision to store, with nobody routed to on the entry
   * since, the next decision that the index answers on this entry stores too if and only if the index
   * lists nobody who has not rejected. So the store happens once if and only if no other call gets there.
   */
  lemma StoresAgainIff(self: NodeId, actions: seq<Action>, i: nat, j: nat, e: nat)
    requires i < j < |actions| && StoresOn(self, Before(self, actions, i), actions[i], e)
    requires ChoosesOn(Before(self, actions, j), actions[j], e) && actions[j].answer.Nodes?
    requires forall k: nat, n :: i < k < j ==> !Routes(self, Before(self, actions, k), actions[k], e, n)
    ensures StoresOn(self, Before(self, actions, j), actions[j], e)
            <==> forall n :: n in Remote(self, actions[j].answer.ids) ==> RejectedBefore(self, actions, j, e, n)
  {
    VerdictStores(self, Before(self, actions, i).entries[e], actions[i].answer.ids);
    SettledStays(self, actions, i, j, e);
    VerdictStores(self, Before(self, actions, j).entries[e], actions[j].answer.ids);
    forall n ensures n in Before(self, actions, j).entries[e].rejected <==> RejectedBefore(self, actions, j, e, n) {
      EntryExactly(self, actions, j, e, n);
    }
  }

  predicate Settled(g: Live) {
    g.p2p && AllRejected(g)
  }

  lemma {:induction false} SettledStays(self: NodeId, actions: seq<Action>, i: nat, j: nat, e: nat)
    requires i < j <= |actions|
    requires e < |Before(self, actions, i).entries| && Settled(Before(self, actions, i).entries[e])
    requires forall k: nat, n :: i <= k < j ==> !Routes(self, Before(self, actions, k), actions[k], e, n)
    ensures e < |Before(self, actions, j).entries| && Settled(Before(self, actions, j).entries[e])
    decreases j - i
  {
    if i + 1 < j {
      SettledStays(self, actions, i, j - 1, e);
    }
    var k: nat := j - 1;
    BeforeStep(self, actions, k);
    assert forall n :: !Routes(self, Before(self, actions, k), actions[k], e, n);
    SettledStep(self, Before(self, actions, k), actions[k], e);
  }

  lemma SettledStep(self: NodeId, s: State, a: Action, e: nat)
    requires e < |s.entries| && Settled(s.entries[e]) && forall n :: !Routes(self, s, a, e, n)
    ensures e < |Apply(self, s, a).entries| && Settled(Apply(self, s, a).entries[e])
  {
    EntryStep(self, s, a, e, "");
    var g, h := s.entries[e], Apply(self, s, a).entries[e];
    forall n ensures (n in h.attempted <==> n in g.attempted) && (n in g.rejected ==> n in h.rejected) {
      EntryStep(self, s, a, e, n);
    }
    assert h.attempted == g.attempted;
  }

  /** The entry has left the map and no call is still on its way to a decision on it. */
  ghost predicate Abandoned(s: State, e: nat) {
    && e < |s.entries| && s.slot != Some(e)
    && forall c :: c in s.calls && s.calls[c].entry == e ==> s.calls[c].Storing? || s.calls[c].Deleting?
  }

  /** An abandoned entry is never stored again, whatever happens. */
  lemma {:induction false} NoStoreOnceAbandoned(self: NodeId, s: State, actions: seq<Action>, e: nat)
    requires Abandoned(s, e)
    ensures Abandoned(Run(self, s, actions), e)
    ensures forall a :: !StoresOn(self, Run(self, s, actions), a, e)
    decreases |actions|
  {
    if actions != [] {
      NoStoreOnceAbandoned(self, s, actions[..|actions| - 1], e);
      AbandonedStep(self, Run(self, s, actions[..|actions| - 1]), actions[|actions| - 1], e);
    }
  }

  lemma AbandonedStep(self: NodeId, s: State, a: Action, e: nat)
    requires Abandoned(s, e)
    ensures Abandoned(Apply(self, s, a), e)
  {
    NewEntryEmpty(self, s, a);
  }

  /** The calls that have decided to store and have not stored yet. */
  function AboutToStore(calls: map<CallId, Call>): set<CallId> {
    set c | c in calls && calls[c].Storing?
  }

  /** How many decisions of a run were to store. */
  function Verdicts(self: NodeId, s: State, actions: seq<Action>): nat
    decreases |actions|
  {
    if actions == [] then 0
    else
      var before := actions[..|actions| - 1];
      Verdicts(self, s, before)
      + if Stores(self, Run(self, s, before), actions[|actions| - 1]) then 1 else 0
  }

  /** Every decision to store is carried out exactly once, or still under way. */
  lemma {:induction false} StoresCounted(self: NodeId, actions: seq<Action>)
    ensures var s := Run(self, Start, actions);
            s.stores + |AboutToStore(s.calls)| == Verdicts(self, Start, actions)
    decreases |actions|
  {
    if actions != [] {
      var before := actions[..|actions| - 1];
      StoresCounted(self, before);
      StoreStep(self, Run(self, Start, before), actions[|actions| - 1]);
    }
  }

  lemma AboutToStoreStep(calls: map<CallId, Call>, c: CallId, call: Call)
    ensures |AboutToStore(calls - {c})| + (if c in calls && calls[c].Storing? then 1 else 0) == |AboutToStore(calls)|
    ensures |AboutToStore(calls[c := call])| == |AboutToStore(calls - {c})| + if call.Storing? then 1 else 0
  {
    var rest := AboutToStore(calls - {c});
    assert AboutToStore(calls) == if c in calls && calls[c].Storing? then rest + {c} else rest;
    assert AboutToStore(calls[c := call]) == if call.Storing? then rest + {c} else rest;
  }

  lemma StoreStep(self: NodeId, s: State, a: Action)
    ensures var t := Apply(self, s, a);
            t.stores + |AboutToStore(t.calls)|
            == s.stores + |AboutToStore(s.calls)| + if Stores(self, s, a) then 1 else 0
  {
    if !a.TimeOut? {
      var t := Apply(self, s, a);
      if a.c in t.calls && t.calls == s.calls[a.c := t.calls[a.c]] {
        AboutToStoreStep(s.calls, a.c, t.calls[a.c]);
      } else if t.calls == s.calls - {a.c} {
        AboutToStoreStep(s.calls, a.c, Deleting(0));
      }
    }
  }
}
