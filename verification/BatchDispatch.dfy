/**
 * The micro-batch dispatcher: items for a node are collected for a short window, sent in one call, and
 * each caller gets the result at its own position.
 *
 * Steps are the critical sections of Submit, flush and Close, the firing of a timer, and the reply to
 * a batch. Flushes that somebody is committed to perform (a fired timer, a submitter that filled the
 * batch, Close) are tasks; they may run in any order and at any time.
 */
module BatchDispatch {
  import opened Options

  type Addr = string

  datatype Operation = SendMessage | KickUser | GroupBroadcast | GroupsBroadcast | ObserverNotify | OtherOperation
  datatype Outcome = Delivered | Fallback | UserMiss | Rejected

  /** A node's answer for one item; None is a missing entry. */
  datatype Result = Result(success: bool, userOnline: bool, error: string, count: int)
  datatype Reply = Failed | Answered(results: seq<Option<Result>>)

  /** classifyOutcome: a node's clear answer about the user comes before its error text. */
  function Classify(op: Operation, r: Option<Result>): (o: Outcome)
    ensures o == Rejected <==> op == SendMessage && r.Some? && !r.value.success && r.value.userOnline
    ensures o == UserMiss
            <==> r.Some? && ((op == SendMessage && !r.value.success && !r.value.userOnline)
                             || (op == KickUser && r.value.error == "" && r.value.count <= 0))
    ensures o == Delivered
            <==> r.Some? && r.value.error == "" && (op == SendMessage ==> r.value.success)
                 && (op == KickUser ==> r.value.count > 0)
    ensures o == Fallback <==> r.None? || (r.value.error != "" && (op == SendMessage ==> r.value.success))
  {
    if r.Some? && op == SendMessage && !r.value.success then
      if r.value.userOnline then Rejected else UserMiss
    else if r.None? || r.value.error != "" then Fallback
    else if op == KickUser then
      if r.value.count > 0 then Delivered else UserMiss
    else Delivered
  }

  /** What the item at position k of a batch gets. */
  function OutcomeAt(op: Operation, reply: Reply, k: nat): Outcome {
    if reply.Failed? || k >= |reply.results| then Fallback else Classify(op, reply.results[k])
  }

  // ---------------------------------------------------------------------------------------------
  // The dispatcher as a state machine
  // ---------------------------------------------------------------------------------------------

  datatype Item = Item(addr: Addr, op: Operation)
  datatype Batch = Batch(addr: Addr, items: seq<nat>, reply: Option<Reply>)

  /** Items are numbered as they are accepted; `inbox` holds what each caller's channel received. */
  datatype State = State(
    items: seq<Item>, buffers: map<Addr, seq<nat>>, armed: set<Addr>, tasks: multiset<Addr>, closed: bool,
    batches: seq<Batch>, inbox: map<nat, Outcome>, place: map<nat, Place>)

  /** Where an item is; a history variable. */
  datatype Place = Buffered(addr: Addr, pos: nat) | Sent(batch: nat, pos: nat)

  const Initial: State := State([], map[], {}, multiset{}, false, [], map[], map[])

  function Pending(s: State, addr: Addr): seq<nat> {
    if addr in s.buffers then s.buffers[addr] else []
  }

  /** Submit on an open dispatcher: the first item arms the timer, a full batch is flushed at once. */
  function Enqueue(s: State, item: Item, maxBatch: int): State {
    var x, before := |s.items|, Pending(s, item.addr);
    s.(items := s.items + [item],
       buffers := s.buffers[item.addr := before + [x]],
       armed := if before == [] then s.armed + {item.addr} else s.armed,
       tasks := if 0 < maxBatch <= |before| + 1 then s.tasks + multiset{item.addr} else s.tasks,
       place := s.place[x := Buffered(item.addr, |before|)])
  }

  function Relocated(place: map<nat, Place>, addr: Addr, b: nat): map<nat, Place> {
    map x | x in place :: if place[x].Buffered? && place[x].addr == addr then Sent(b, place[x].pos) else place[x]
  }

  /** The critical section of flush: take the buffer, stop its timer. */
  function Take(s: State, addr: Addr): State {
    if addr !in s.buffers then s
    else
      var b := |s.batches|;
      s.(buffers := s.buffers - {addr}, armed := s.armed - {addr},
         batches := s.batches + [Batch(addr, s.buffers[addr], None)],
         place := Relocated(s.place, addr, b))
  }

  function OpOf(items: seq<Item>, x: nat): Operation {
    if x < |items| then items[x].op else OtherOperation
  }

  /** sendAndResolve, after n results: written without blocking, a channel takes only the first. */
  function Resolve(inbox: map<nat, Outcome>, items: seq<Item>, xs: seq<nat>, reply: Reply, n: nat): map<nat, Outcome>
    requires n <= |xs|
  {
    if n == 0 then inbox
    else
      var m := Resolve(inbox, items, xs, reply, n - 1);
      if xs[n - 1] in m then m else m[xs[n - 1] := OutcomeAt(OpOf(items, xs[n - 1]), reply, n - 1)]
  }

  function Settle(s: State, b: nat, reply: Reply): State
    requires b < |s.batches|
  {
    var xs := s.batches[b].items;
    s.(batches := s.batches[b := s.batches[b].(reply := Some(reply))],
       inbox := Resolve(s.inbox, s.items, xs, reply, |xs|))
  }

  datatype Action =
    | Submit(item: Item)
    | Fire(addr: Addr)
    | Flush(addr: Addr)
    | Close
    | Answer(batch: nat, reply: Reply)

  function Apply(s: State, a: Action, maxBatch: int): State {
    match a
    case Submit(item) => if s.closed then s else Enqueue(s, item, maxBatch)
    case Fire(addr) => if addr in s.armed then s.(armed := s.armed - {addr}, tasks := s.tasks + multiset{addr}) else s
    case Flush(addr) => if addr in s.tasks then Take(s, addr).(tasks := s.tasks - multiset{addr}) else s
    case Close => if s.closed then s else s.(closed := true, tasks := s.tasks + multiset(s.buffers.Keys))
    case Answer(b, reply) =>
      if b < |s.batches| && s.batches[b].reply.None? then Settle(s, b, reply) else s
  }

  function Run(actions: seq<Action>, maxBatch: int): State
    decreases |actions|
  {
    if actions == [] then Initial else Apply(Run(actions[..|actions| - 1], maxBatch), actions[|actions| - 1], maxBatch)
  }

  // ---------------------------------------------------------------------------------------------
  // Invariants
  // ---------------------------------------------------------------------------------------------

  predicate InBuffer(s: State, x: nat, addr: Addr, pos: nat) {
    addr in s.buffers && pos < |s.buffers[addr]| && s.buffers[addr][pos] == x
  }

  predicate InBatch(s: State, x: nat, b: nat, pos: nat) {
    b < |s.batches| && pos < |s.batches[b].items| && s.batches[b].items[pos] == x
  }

  /**
   * The item is where its place says, with its own node, and its channel holds a result exactly when
   * its batch was answered: the one for its own position.
   */
  predicate Good(s: State, x: nat)
    requires x < |s.items|
  {
    x in s.place &&
    match s.place[x]
    case Buffered(addr, pos) => InBuffer(s, x, addr, pos) && s.items[x].addr == addr && x !in s.inbox
    case Sent(b, pos) =>
      && InBatch(s, x, b, pos) && s.items[x].addr == s.batches[b].addr
      && (if s.batches[b].reply.None? then x !in s.inbox
          else x in s.inbox && s.inbox[x] == OutcomeAt(s.items[x].op, s.batches[b].reply.value, pos))
  }

  ghost predicate AllGood(s: State) {
    && (forall x: nat :: x < |s.items| ==> Good(s, x))
    && (forall x :: x in s.place || x in s.inbox ==> x < |s.items|)
  }

  /** Whatever is at a position is placed there: no item is in two positions. */
  ghost predicate OnePlace(s: State) {
    && (forall x: nat, addr, pos: nat ::
          InBuffer(s, x, addr, pos) ==> x in s.place && s.place[x] == Buffered(addr, pos))
    && (forall x: nat, b: nat, pos: nat :: InBatch(s, x, b, pos) ==> x in s.place && s.place[x] == Sent(b, pos))
  }

  /** A buffer is never empty, an armed timer or a task will flush it, and a full one has a task. */
  ghost predicate Attended(s: State, maxBatch: int) {
    forall addr :: addr in s.buffers ==>
      && s.buffers[addr] != [] && (addr in s.armed || addr in s.tasks)
      && (0 < maxBatch <= |s.buffers[addr]| ==> addr in s.tasks)
  }

  ghost predicate Inv(s: State, maxBatch: int) {
    AllGood(s) && OnePlace(s) && Attended(s, maxBatch)
  }

  lemma EnqueueKeepsGood(s: State, item: Item, maxBatch: int)
    requires Inv(s, maxBatch)
    ensures AllGood(Enqueue(s, item, maxBatch))
  {
    var t := Enqueue(s, item, maxBatch);
    forall x: nat | x < |t.items| ensures Good(t, x) {
      if x < |s.items| {
        assert Good(s, x);
      }
    }
  }

  lemma EnqueueKeepsPlace(s: State, item: Item, maxBatch: int)
    requires Inv(s, maxBatch)
    ensures OnePlace(Enqueue(s, item, maxBatch))
  {
    var t := Enqueue(s, item, maxBatch);
    forall x: nat, addr, pos: nat | InBuffer(t, x, addr, pos)
      ensures x in t.place && t.place[x] == Buffered(addr, pos)
    {
      if addr != item.addr || pos < |Pending(s, addr)| {
        assert InBuffer(s, x, addr, pos);
      }
    }
    forall x: nat, b: nat, pos: nat | InBatch(t, x, b, pos) ensures x in t.place && t.place[x] == Sent(b, pos) {
      assert InBatch(s, x, b, pos);
    }
  }

  lemma TakeKeepsGood(s: State, addr: Addr)
    requires AllGood(s) && OnePlace(s)
    ensures AllGood(Take(s, addr))
  {
    var t := Take(s, addr);
    forall x: nat | x < |t.items| ensures Good(t, x) {
      assert Good(s, x);
    }
  }

  lemma TakeKeepsPlace(s: State, addr: Addr)
    requires AllGood(s) && OnePlace(s)
    ensures OnePlace(Take(s, addr))
  {
    var t := Take(s, addr);
    forall x: nat, a, pos: nat | InBuffer(t, x, a, pos) ensures x in t.place && t.place[x] == Buffered(a, pos) {
      assert InBuffer(s, x, a, pos);
    }
    forall x: nat, b: nat, pos: nat | InBatch(t, x, b, pos) ensures x in t.place && t.place[x] == Sent(b, pos) {
      if b < |s.batches| {
        assert InBatch(s, x, b, pos);
      } else {
        assert InBuffer(s, x, addr, pos);
      }
    }
  }

  lemma {:induction false} ResolveOther(inbox: map<nat, Outcome>, items: seq<Item>, xs: seq<nat>, reply: Reply,
                                        n: nat, y: nat)
    requires n <= |xs| && forall k :: 0 <= k < n ==> xs[k] != y
    ensures var m := Resolve(inbox, items, xs, reply, n); (y in m <==> y in inbox) && (y in inbox ==> m[y] == inbox[y])
    decreases n
  {
    if n > 0 {
      ResolveOther(inbox, items, xs, reply, n - 1, y);
    }
  }

  lemma {:induction false} ResolveOwn(inbox: map<nat, Outcome>, items: seq<Item>, xs: seq<nat>, reply: Reply,
                                      n: nat, pos: nat)
    requires pos < n <= |xs| && xs[pos] !in inbox && forall k :: 0 <= k < |xs| && xs[k] == xs[pos] ==> k == pos
    ensures var m := Resolve(inbox, items, xs, reply, n);
            xs[pos] in m && m[xs[pos]]
            == if reply.Failed? || pos >= |reply.results| then Fallback
               else Classify(OpOf(items, xs[pos]), reply.results[pos])
    decreases n
  {
    if n == pos + 1 {
      ResolveOther(inbox, items, xs, reply, pos, xs[pos]);
    } else {
      ResolveOwn(inbox, items, xs, reply, n - 1, pos);
    }
  }

  lemma SettleGood(s: State, b: nat, reply: Reply, x: nat)
    requires AllGood(s) && OnePlace(s) && b < |s.batches| && s.batches[b].reply.None? && x < |s.items|
    ensures Good(Settle(s, b, reply), x)
  {
    var xs := s.batches[b].items;
    assert Good(s, x);
    if s.place[x].Sent? && s.place[x].batch == b {
      var pos := s.place[x].pos;
      forall k: nat | k < |xs| && xs[k] == x ensures k == pos {
        assert InBatch(s, x, b, k);
      }
      ResolveOwn(s.inbox, s.items, xs, reply, |xs|, pos);
    } else {
      forall k: nat | k < |xs| ensures xs[k] != x {
        if xs[k] == x {
          assert InBatch(s, x, b, k);
        }
      }
      ResolveOther(s.inbox, s.items, xs, reply, |xs|, x);
    }
  }

  lemma SettleKeeps(s: State, b: nat, reply: Reply, maxBatch: int)
    requires Inv(s, maxBatch) && b < |s.batches| && s.batches[b].reply.None?
    ensures Inv(Settle(s, b, reply), maxBatch)
  {
    var t := Settle(s, b, reply);
    var xs := s.batches[b].items;
    forall x: nat | x < |t.items| ensures Good(t, x) {
      SettleGood(s, b, reply, x);
    }
    forall x | x in t.inbox ensures x < |s.items| {
      if x >= |s.items| {
        forall k: nat | k < |xs| ensures xs[k] != x {
          assert InBatch(s, xs[k], b, k);
        }
        ResolveOther(s.inbox, s.items, xs, reply, |xs|, x);
      }
    }
    forall x: nat, a, pos: nat | InBuffer(t, x, a, pos) ensures x in t.place && t.place[x] == Buffered(a, pos) {
      assert InBuffer(s, x, a, pos);
    }
    forall x: nat, c: nat, pos: nat | InBatch(t, x, c, pos) ensures x in t.place && t.place[x] == Sent(c, pos) {
      assert InBatch(s, x, c, pos);
    }
  }

  /** A change of timers, tasks and the closed flag alone. */
  lemma SameItems(s: State, t: State, maxBatch: int)
    requires AllGood(s) && OnePlace(s) && t == s.(armed := t.armed, tasks := t.tasks, closed := t.closed)
             && Attended(t, maxBatch)
    ensures Inv(t, maxBatch)
  {
    forall x: nat | x < |t.items| ensures Good(t, x) {
      assert Good(s, x);
    }
    forall x: nat, a, pos: nat | InBuffer(t, x, a, pos) ensures x in t.place && t.place[x] == Buffered(a, pos) {
      assert InBuffer(s, x, a, pos);
    }
    forall x: nat, b: nat, pos: nat | InBatch(t, x, b, pos) ensures x in t.place && t.place[x] == Sent(b, pos) {
      assert InBatch(s, x, b, pos);
    }
  }

  lemma TakeKeeps(s: State, addr: Addr, maxBatch: int)
    requires Inv(s, maxBatch) && addr in s.tasks
    ensures Inv(Take(s, addr).(tasks := s.tasks - multiset{addr}), maxBatch)
  {
    TakeKeepsGood(s, addr);
    TakeKeepsPlace(s, addr);
    var t := Take(s, addr);
    SameItems(t, t.(tasks := s.tasks - multiset{addr}), maxBatch);
  }

  lemma StepKeepsInv(s: State, a: Action, maxBatch: int)
    requires Inv(s, maxBatch)
    ensures Inv(Apply(s, a, maxBatch), maxBatch)
  {
    match a
    case Submit(item) =>
      if !s.closed {
        EnqueueKeepsGood(s, item, maxBatch);
        EnqueueKeepsPlace(s, item, maxBatch);
      }
    case Fire(addr) => SameItems(s, Apply(s, a, maxBatch), maxBatch);
    case Flush(addr) =>
      if addr in s.tasks {
        TakeKeeps(s, addr, maxBatch);
      }
    case Close => SameItems(s, Apply(s, a, maxBatch), maxBatch);
    case Answer(b, reply) =>
      if b < |s.batches| && s.batches[b].reply.None? {
        SettleKeeps(s, b, reply, maxBatch);
      }
  }

  lemma {:induction false} RunKeepsInv(actions: seq<Action>, maxBatch: int)
    ensures Inv(Run(actions, maxBatch), maxBatch)
    decreases |actions|
  {
    if actions != [] {
      RunKeepsInv(actions[..|actions| - 1], maxBatch);
      StepKeepsInv(Run(actions[..|actions| - 1], maxBatch), actions[|actions| - 1], maxBatch);
    }
  }

  // ---------------------------------------------------------------------------------------------
  // Main results
  // ---------------------------------------------------------------------------------------------

  ghost predicate Reachable(s: State, maxBatch: int) {
    exists actions: seq<Action> :: s == Run(actions, maxBatch)
  }

  lemma ReachableInv(s: State, maxBatch: int)
    requires Reachable(s, maxBatch)
    ensures Inv(s, maxBatch)
  {
    var actions: seq<Action> :| s == Run(actions, maxBatch);
    RunKeepsInv(actions, maxBatch);
  }

  /** An accepted item is in one buffer or one batch, of its own node, and at one position only. */
  lemma ExactlyOnePosition(s: State, maxBatch: int, x: nat)
    requires Reachable(s, maxBatch) && x < |s.items|
    ensures (exists pos: nat :: InBuffer(s, x, s.items[x].addr, pos))
            || exists b: nat, pos: nat :: InBatch(s, x, b, pos) && s.batches[b].addr == s.items[x].addr
    ensures forall a, b: nat, pos: nat, pos': nat :: InBuffer(s, x, a, pos) ==> !InBatch(s, x, b, pos')
    ensures forall b: nat, pos: nat, b': nat, pos': nat ::
        InBatch(s, x, b, pos) && InBatch(s, x, b', pos') ==> b == b' && pos == pos'
    ensures forall a, pos: nat, a', pos': nat ::
        InBuffer(s, x, a, pos) && InBuffer(s, x, a', pos') ==> a == a' && pos == pos'
  {
    ReachableInv(s, maxBatch);
    assert Good(s, x);
    match s.place[x] {
      case Buffered(addr, pos) => assert InBuffer(s, x, addr, pos);
      case Sent(b, pos) => assert InBatch(s, x, b, pos) && s.batches[b].addr == s.items[x].addr;
    }
  }

  /** A non-empty buffer has an armed timer or somebody about to flush it, a full one the latter. */
  lemma NoBufferForgotten(s: State, maxBatch: int, addr: Addr)
    requires Reachable(s, maxBatch) && Pending(s, addr) != []
    ensures addr in s.armed || addr in s.tasks
    ensures 0 < maxBatch <= |Pending(s, addr)| ==> addr in s.tasks
  {
    ReachableInv(s, maxBatch);
  }

  /**
   * Once timers, tasks and replies are through, every caller has the answer at its own position of the
   * reply to its batch, or the fallback if there is none.
   */
  lemma NoCallerStranded(s: State, maxBatch: int, x: nat)
    requires Reachable(s, maxBatch) && x < |s.items|
    requires s.armed == {} && s.tasks == multiset{} && forall b :: 0 <= b < |s.batches| ==> s.batches[b].reply.Some?
    ensures x in s.inbox && exists b: nat, pos: nat ::
              InBatch(s, x, b, pos) && s.inbox[x]
              == if s.batches[b].reply.value.Failed? || pos >= |s.batches[b].reply.value.results| then Fallback
                 else Classify(s.items[x].op, s.batches[b].reply.value.results[pos])
  {
    ReachableInv(s, maxBatch);
    assert Good(s, x);
    assert s.place[x].Sent?;
    assert InBatch(s, x, s.place[x].batch, s.place[x].pos);
  }

  /** A buffered item is one timer, one flush and one reply away from the answer at its own position. */
  lemma ServedAfterFlush(s: State, addr: Addr, reply: Reply, maxBatch: int, pos: nat)
    requires Reachable(s, maxBatch) && pos < |Pending(s, addr)|
    ensures var x := Pending(s, addr)[pos];
            var t := Apply(Apply(Apply(s, Fire(addr), maxBatch), Flush(addr), maxBatch),
                           Answer(|s.batches|, reply), maxBatch);
            x < |s.items| && x in t.inbox && t.inbox[x]
            == if reply.Failed? || pos >= |reply.results| then Fallback else Classify(s.items[x].op, reply.results[pos])
  {
    ReachableInv(s, maxBatch);
    var x := Pending(s, addr)[pos];
    assert InBuffer(s, x, addr, pos);
    assert Good(s, x);
    var fired := Apply(s, Fire(addr), maxBatch);
    StepKeepsInv(s, Fire(addr), maxBatch);
    var taken := Apply(fired, Flush(addr), maxBatch);
    StepKeepsInv(fired, Flush(addr), maxBatch);
    assert taken.batches == s.batches + [Batch(addr, s.buffers[addr], None)];
    AnswerGives(taken, |s.batches|, reply, maxBatch, pos);
  }

  /** The reply to a batch gives each of its callers the answer at the caller's own position. */
  lemma AnswerGives(s: State, b: nat, reply: Reply, maxBatch: int, pos: nat)
    requires Inv(s, maxBatch) && b < |s.batches| && s.batches[b].reply.None? && pos < |s.batches[b].items|
    ensures var x := s.batches[b].items[pos];
            var t := Apply(s, Answer(b, reply), maxBatch);
            x < |s.items| && x in t.inbox && t.inbox[x]
            == if reply.Failed? || pos >= |reply.results| then Fallback else Classify(s.items[x].op, reply.results[pos])
  {
    var xs := s.batches[b].items;
    var x := xs[pos];
    assert InBatch(s, x, b, pos);
    assert Good(s, x);
    forall k: nat | k < |xs| && xs[k] == x ensures k == pos {
      assert InBatch(s, x, b, k);
    }
    ResolveOwn(s.inbox, s.items, xs, reply, |xs|, pos);
  }

  /** Over any run: whoever is at a position when its batch is answered has that answer for good. */
  lemma AnswerIsKept(actions: seq<Action>, n: nat, maxBatch: int, pos: nat)
    requires n < |actions| && actions[n].Answer?
    requires var s := Run(actions[..n], maxBatch);
             && actions[n].batch < |s.batches| && s.batches[actions[n].batch].reply.None?
             && pos < |s.batches[actions[n].batch].items|
    ensures var s, t := Run(actions[..n], maxBatch), Run(actions, maxBatch);
            var x, reply := s.batches[actions[n].batch].items[pos], actions[n].reply;
            x < |s.items| && x in t.inbox && t.inbox[x]
            == if reply.Failed? || pos >= |reply.results| then Fallback else Classify(s.items[x].op, reply.results[pos])
  {
    var s := Run(actions[..n], maxBatch);
    RunKeepsInv(actions[..n], maxBatch);
    AnswerGives(s, actions[n].batch, actions[n].reply, maxBatch, pos);
    assert actions[..n + 1][..n] == actions[..n] && actions[..n + 1][n] == actions[n];
    ResolvedOnce(actions, n + 1, maxBatch, s.batches[actions[n].batch].items[pos]);
  }

  lemma StepKeepsResult(s: State, a: Action, maxBatch: int, x: nat)
    requires Inv(s, maxBatch) && x in s.inbox
    ensures x in Apply(s, a, maxBatch).inbox && Apply(s, a, maxBatch).inbox[x] == s.inbox[x]
  {
    if a.Answer? && a.batch < |s.batches| && s.batches[a.batch].reply.None? {
      var xs := s.batches[a.batch].items;
      assert Good(s, x);
      forall k: nat | k < |xs| ensures xs[k] != x {
        if xs[k] == x {
          assert InBatch(s, x, a.batch, k);
        }
      }
      ResolveOther(s.inbox, s.items, xs, a.reply, |xs|, x);
    }
  }

  /** A result, once given, is never given again or changed, whatever follows. */
  lemma {:induction false} ResolvedOnce(actions: seq<Action>, n: nat, maxBatch: int, x: nat)
    requires n <= |actions| && x in Run(actions[..n], maxBatch).inbox
    ensures x in Run(actions, maxBatch).inbox && Run(actions, maxBatch).inbox[x] == Run(actions[..n], maxBatch).inbox[x]
    decreases |actions|
  {
    if n == |actions| {
      assert actions[..n] == actions;
    } else {
      var init := actions[..|actions| - 1];
      assert init[..n] == actions[..n];
      ResolvedOnce(init, n, maxBatch, x);
      RunKeepsInv(init, maxBatch);
      StepKeepsResult(Run(init, maxBatch), actions[|actions| - 1], maxBatch, x);
    }
  }

  lemma ClosedStep(s: State, a: Action, maxBatch: int)
    requires s.closed
    ensures Apply(s, a, maxBatch).closed && Apply(s, a, maxBatch).items == s.items
  {
  }

  /** After Close nothing more is accepted. */
  lemma {:induction false} ClosedStaysShut(actions: seq<Action>, n: nat, maxBatch: int)
    requires n <= |actions| && Run(actions[..n], maxBatch).closed
    ensures Run(actions, maxBatch).closed && Run(actions, maxBatch).items == Run(actions[..n], maxBatch).items
    decreases |actions|
  {
    if n == |actions| {
      assert actions[..n] == actions;
    } else {
      var init := actions[..|actions| - 1];
      assert init[..n] == actions[..n];
      ClosedStaysShut(init, n, maxBatch);
      ClosedStep(Run(init, maxBatch), actions[|actions| - 1], maxBatch);
    }
  }

  // ---------------------------------------------------------------------------------------------
  // The critical sections in code
  // ---------------------------------------------------------------------------------------------

  /** sendAndResolve: one result per item, at the item's own index. */
  method SendAndResolve(inbox: map<nat, Outcome>, items: seq<Item>, pending: seq<nat>, reply: Reply)
    returns (channels: map<nat, Outcome>)
    ensures channels == Resolve(inbox, items, pending, reply, |pending|)
    ensures forall pos: nat :: pos < |pending| && Alone(pending, pos) && pending[pos] !in inbox ==>
              pending[pos] in channels && channels[pending[pos]]
              == if reply.Failed? || pos >= |reply.results| then Fallback
                 else Classify(OpOf(items, pending[pos]), reply.results[pos])
  {
    channels := inbox;
    var i := 0;
    while i < |pending|
      invariant 0 <= i <= |pending|
      invariant channels == Resolve(inbox, items, pending, reply, i)
    {
      var outcome := Fallback;
      if reply.Answered? && i < |reply.results| {
        outcome := Classify(OpOf(items, pending[i]), reply.results[i]);
      }
      if pending[i] !in channels {
        channels := channels[pending[i] := outcome];
      }
      i := i + 1;
    }
    forall pos: nat | pos < |pending| && Alone(pending, pos) && pending[pos] !in inbox
      ensures pending[pos] in channels && channels[pending[pos]]
              == if reply.Failed? || pos >= |reply.results| then Fallback
                 else Classify(OpOf(items, pending[pos]), reply.results[pos])
    {
      ResolveOwn(inbox, items, pending, reply, |pending|, pos);
    }
  }

  /** No other position of the list holds the same item. */
  ghost predicate Alone(xs: seq<nat>, pos: nat)
    requires pos < |xs|
  {
    forall k :: 0 <= k < |xs| && xs[k] == xs[pos] ==> k == pos
  }

  class Dispatcher {
    const maxBatch: int
    var buffers: map<Addr, seq<nat>>
    var armed: set<Addr>
    var closed: bool
    var items: seq<Item>
    var batches: seq<Batch>
    var inbox: map<nat, Outcome>
    ghost var tasks: multiset<Addr>
    ghost var place: map<nat, Place>

    ghost function Contents(): State
      reads this
    {
      State(items, buffers, armed, tasks, closed, batches, inbox, place)
    }

    /** The locked part of Submit; the caller flushes when told so. */
    method Submit(item: Item) returns (accepted: bool, flushNow: bool)
      modifies this
      ensures Contents() == Apply(old(Contents()), Action.Submit(item), maxBatch)
      ensures accepted == !old(closed)
      ensures accepted ==> items == old(items) + [item]
                           && Pending(Contents(), item.addr) == Pending(old(Contents()), item.addr) + [|old(items)|]
      ensures flushNow <==> accepted && 0 < maxBatch <= |Pending(Contents(), item.addr)|
    {
      if closed {
        return false, false;
      }
      var x := |items|;
      items := items + [item];
      var pending := if item.addr in buffers then buffers[item.addr] else [];
      pending := pending + [x];
      buffers := buffers[item.addr := pending];
      place := place[x := Buffered(item.addr, |pending| - 1)];
      flushNow := maxBatch > 0 && |pending| >= maxBatch;
      if |pending| == 1 {
        armed := armed + {item.addr};
      }
      if flushNow {
        tasks := tasks + multiset{item.addr};
      }
      return true, flushNow;
    }

    /** The locked part of flush. */
    method Flush(addr: Addr) returns (pending: seq<nat>)
      requires addr in tasks
      modifies this
      ensures Contents() == Apply(old(Contents()), Action.Flush(addr), maxBatch)
      ensures pending == Pending(old(Contents()), addr)
      ensures Pending(Contents(), addr) == []
      ensures addr in old(buffers) ==> batches == old(batches) + [Batch(addr, pending, None)]
    {
      tasks := tasks - multiset{addr};
      if addr !in buffers {
        return [];
      }
      pending := buffers[addr];
      armed := armed - {addr};
      buffers := buffers - {addr};
      place := Relocated(place, addr, |batches|);
      batches := batches + [Batch(addr, pending, None)];
    }

    /** The locked part of Close; every buffered node is then flushed. */
    method Close() returns (addrs: set<Addr>)
      modifies this
      ensures Contents() == Apply(old(Contents()), Action.Close, maxBatch)
      ensures addrs == if old(closed) then {} else old(buffers).Keys
      ensures closed && buffers == old(buffers) && (!old(closed) ==> forall addr :: addr in buffers ==> addr in tasks)
    {
      if closed {
        return {};
      }
      closed := true;
      addrs := buffers.Keys;
      tasks := tasks + multiset(addrs);
    }
  }
}
