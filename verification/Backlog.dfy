/**
 * The pending-write accounting of client connections.
 *
 * TrySend reserves a unit before it publishes a frame to the send channel; the write pump, the
 * slow-consumer eviction and MarkClosed settle units through CompletePendingWrites, a
 * compare-and-swap loop. No lock is held anywhere, so every atomic operation is one step here and
 * any number of goroutines over any number of clients interleave freely.
 */
module Backlog {

  // clientWriteBatchSize
  const WRITE_BATCH: nat := 64

  datatype Client = Client(closed: bool, pending: int, queued: nat, capacity: nat)

  /** Where a goroutine stands: the atomic operation it performs next. */
  datatype Pc =
    | SendCheck                             // TrySend: first IsClosed
    | SendReserve                           // TrySend: pendingWrites.Add(1)
    | SendPublish                           // TrySend: counter.Add(1)
    | SendRecheck                           // TrySend: second IsClosed
    | SendEnqueue                           // TrySend: the select on SendChan
    | PumpBatch(taken: nat)                 // write pump: frames received, not yet settled
    | EvictDrain(taken: nat)                // eviction: frames drained, not yet settled
    | CloseMark                             // MarkClosed: closed.Store(true)
    | CloseLoad                             // MarkClosed: pendingWrites.Load()
    | Settle(n: nat)                        // CompletePendingWrites: loop head and Load
    | SettleSwap(amount: nat, current: int) // CompletePendingWrites: CompareAndSwap
    | SettleCounter(take: int)              // CompletePendingWrites: counter.Add(-take)
    | Done

  /** `rollback` is what a deferred CompletePendingWrites still settles after the current one. */
  datatype Thread = Thread(client: nat, pc: Pc, rollback: nat)

  /** `hub` is the counter that all clients of one hub share. */
  datatype State = State(clients: seq<Client>, threads: seq<Thread>, hub: int)

  datatype Action =
    | Connect(capacity: nat)
    | StartSend(c: nat)
    | StartPump(c: nat)
    | StartEvict(c: nat)
    | StartClose(c: nat)
    | Step(thread: nat, alt: bool) // `alt` resolves the choices the code leaves to its environment

  function Init(): State {
    State([], [], 0)
  }

  function Spawn(s: State, c: nat, pc: Pc): State {
    s.(threads := s.threads + [Thread(c, pc, 0)])
  }

  function Min(a: int, b: int): int {
    if a < b then a else b
  }

  /** The pump is woken by the frame it receives, hence the test for a queued frame. */
  function Apply(s: State, a: Action): State {
    match a
    case Connect(capacity) => s.(clients := s.clients + [Client(false, 0, 0, capacity)])
    case StartSend(c) => if c < |s.clients| then Spawn(s, c, SendCheck) else s
    case StartPump(c) =>
      if c < |s.clients| && s.clients[c].queued > 0 then
        Spawn(s.(clients := s.clients[c := s.clients[c].(queued := s.clients[c].queued - 1)]), c, PumpBatch(1))
      else s
    case StartEvict(c) => if c < |s.clients| then Spawn(s, c, EvictDrain(0)) else s
    case StartClose(c) => if c < |s.clients| then Spawn(s, c, CloseMark) else s
    case Step(i, alt) =>
      if i < |s.threads| && s.threads[i].client < |s.clients| then
        var t := s.threads[i];
        var (k, t', d) := ThreadStep(s.clients[t.client], t, alt);
        State(s.clients[t.client := k], s.threads[i := t'], s.hub + d)
      else s
  }

  function Run(s: State, actions: seq<Action>): State
    decreases |actions|
  {
    if actions == [] then s else Run(Apply(s, actions[0]), actions[1..])
  }

  /** CompletePendingWrites returned: run the deferred one, if any. */
  function Finish(t: Thread): Thread {
    if t.rollback > 0 then t.(pc := Settle(t.rollback), rollback := 0) else t.(pc := Done)
  }

  /** One atomic operation of one goroutine: its client, the goroutine and the hub counter change. */
  function ThreadStep(k: Client, t: Thread, alt: bool): (Client, Thread, int) {
    match t.pc
    case SendCheck => (k, t.(pc := if k.closed then Done else SendReserve), 0)
    case SendReserve => (k.(pending := k.pending + 1), t.(pc := SendPublish), 0)
    case SendPublish => (k, t.(pc := SendRecheck), 1)
    case SendRecheck => (k, t.(pc := if k.closed then Settle(1) else SendEnqueue), 0)
    case SendEnqueue =>
      if alt then (k, t.(pc := CloseMark, rollback := t.rollback + 1), 0)  // the recovered panic
      else if k.queued < k.capacity then (k.(queued := k.queued + 1), t.(pc := Done), 0)
      else (k, t.(pc := Settle(1)), 0)
    case PumpBatch(taken) =>
      if !alt && taken < WRITE_BATCH && k.queued > 0 then
        (k.(queued := k.queued - 1), t.(pc := PumpBatch(taken + 1)), 0)
      else (k, t.(pc := Settle(taken)), 0)
    case EvictDrain(taken) =>
      if !alt && k.queued > 0 then (k.(queued := k.queued - 1), t.(pc := EvictDrain(taken + 1)), 0)
      else (k, t.(pc := Settle(taken)), 0)
    case CloseMark => (k.(closed := true), t.(pc := CloseLoad), 0)
    case CloseLoad => (k, t.(pc := Settle(if k.pending > 0 then k.pending else 0)), 0)
    case Settle(n) =>
      if n == 0 || k.pending == 0 then (k, Finish(t), 0)
      else (k, t.(pc := SettleSwap(n, k.pending)), 0)
    case SettleSwap(n, current) =>
      if k.pending == current then
        (k.(pending := current - Min(n, current)), t.(pc := SettleCounter(Min(n, current))), 0)
      else (k, t.(pc := Settle(n)), 0)
    case SettleCounter(take) => (k, Finish(t), -take)
    case Done => (k, t, 0)
  }

  // ---------------------------------------------------------------------------------------------
  // Weighted sums over goroutines
  // ---------------------------------------------------------------------------------------------

  /**
   * Owed(c): units goroutines of client c hold, reserved or taken from the queue and unsettled.
   * Committed(c): units they are bound to settle once c is closed; a sender past its second check
   *   may still enqueue, so it is bound to nothing.
   * HubLag: how far the hub counter is ahead of the sum of pending writes.
   */
  datatype Measure = Owed(c: nat) | Committed(c: nat) | HubLag

  function Held(pc: Pc): nat {
    match pc
    case SendPublish => 1
    case SendRecheck => 1
    case PumpBatch(taken) => taken
    case EvictDrain(taken) => taken
    case Settle(n) => n
    case SettleSwap(n, _) => n
    case _ => 0
  }

  function Weight(m: Measure, t: Thread): int {
    match m
    case Owed(c) => if t.client == c then Held(t.pc) + (if t.pc.SendEnqueue? then 1 else 0) + t.rollback else 0
    case Committed(c) => if t.client == c then Held(t.pc) + t.rollback else 0
    case HubLag =>
      match t.pc
      case SendPublish => -1
      case SettleCounter(take) => take
      case _ => 0
  }

  function Total(m: Measure, ts: seq<Thread>): int {
    if ts == [] then 0 else Weight(m, ts[0]) + Total(m, ts[1..])
  }

  function TotalPending(cs: seq<Client>): int {
    if cs == [] then 0 else cs[0].pending + TotalPending(cs[1..])
  }

  lemma {:induction false} TotalUpdate(m: Measure, ts: seq<Thread>, i: nat, t: Thread)
    requires i < |ts|
    ensures Total(m, ts[i := t]) == Total(m, ts) - Weight(m, ts[i]) + Weight(m, t)
  {
    if i > 0 {
      TotalUpdate(m, ts[1..], i - 1, t);
      assert ts[i := t][1..] == ts[1..][i - 1 := t];
    }
  }

  lemma {:induction false} TotalAppend(m: Measure, ts: seq<Thread>, t: Thread)
    ensures Total(m, ts + [t]) == Total(m, ts) + Weight(m, t)
  {
    if ts != [] {
      TotalAppend(m, ts[1..], t);
      assert (ts + [t])[1..] == ts[1..] + [t];
    }
  }

  lemma {:induction false} TotalAtLeast(m: Measure, ts: seq<Thread>, i: nat)
    requires !m.HubLag? && i < |ts|
    ensures 0 <= Weight(m, ts[i]) <= Total(m, ts)
    decreases |ts|
  {
    if |ts| > 1 {
      TotalAtLeast(m, ts[1..], if i > 0 then i - 1 else 0);
    }
  }

  lemma {:induction false} TotalZero(m: Measure, ts: seq<Thread>)
    requires forall i :: 0 <= i < |ts| ==> Weight(m, ts[i]) == 0
    ensures Total(m, ts) == 0
  {
    if ts != [] {
      TotalZero(m, ts[1..]);
    }
  }

  lemma {:induction false} PendingUpdate(cs: seq<Client>, c: nat, k: Client)
    requires c < |cs|
    ensures TotalPending(cs[c := k]) == TotalPending(cs) - cs[c].pending + k.pending
  {
    if c > 0 {
      PendingUpdate(cs[1..], c - 1, k);
      assert cs[c := k][1..] == cs[1..][c - 1 := k];
    }
  }

  lemma {:induction false} PendingAppend(cs: seq<Client>, k: Client)
    ensures TotalPending(cs + [k]) == TotalPending(cs) + k.pending
  {
    if cs != [] {
      PendingAppend(cs[1..], k);
      assert (cs + [k])[1..] == cs[1..] + [k];
    }
  }

  // ---------------------------------------------------------------------------------------------
  // The invariant
  // ---------------------------------------------------------------------------------------------

  /** Some goroutine has closed c and not yet read how much it must settle. */
  ghost predicate Closing(ts: seq<Thread>, c: nat) {
    exists i :: 0 <= i < |ts| && ts[i].client == c && ts[i].pc.CloseLoad?
  }

  ghost predicate SwapsCovered(ts: seq<Thread>, c: nat) {
    forall i :: 0 <= i < |ts| && ts[i].client == c && ts[i].pc.SettleSwap? ==> ts[i].pc.amount <= ts[i].pc.current
  }

  ghost predicate ClientInv(k: Client, c: nat, ts: seq<Thread>) {
    && k.pending >= 0
    && (!k.closed ==>
          && k.pending == Total(Owed(c), ts) + k.queued
          && !Closing(ts, c)
          && SwapsCovered(ts, c))
    && (k.closed ==> Closing(ts, c) || k.pending <= Total(Committed(c), ts))
  }

  ghost predicate Inv(s: State) {
    && (forall i :: 0 <= i < |s.threads| ==> s.threads[i].client < |s.clients|)
    && (forall c :: 0 <= c < |s.clients| ==> ClientInv(s.clients[c], c, s.threads))
    && s.hub == TotalPending(s.clients) + Total(HubLag, s.threads)
  }

  /** Adding a goroutine that owes what the queue gave up keeps every client's account. */
  lemma SpawnKeepsInv(s: State, c: nat, k: Client, pc: Pc)
    requires Inv(s) && c < |s.clients|
    requires pc.SendCheck? || pc.PumpBatch? || pc.EvictDrain? || pc.CloseMark?
    requires k == s.clients[c].(queued := k.queued) && k.queued + Held(pc) == s.clients[c].queued
    ensures Inv(Spawn(s.(clients := s.clients[c := k]), c, pc))
  {
    var t := Thread(c, pc, 0);
    var s' := Spawn(s.(clients := s.clients[c := k]), c, pc);
    TotalAppend(HubLag, s.threads, t);
    PendingUpdate(s.clients, c, k);
    forall d | 0 <= d < |s'.clients|
      ensures ClientInv(s'.clients[d], d, s'.threads)
    {
      TotalAppend(Owed(d), s.threads, t);
      TotalAppend(Committed(d), s.threads, t);
      ClosingKept(s.threads, s'.threads, d);
    }
  }

  lemma SpawnIdle(s: State, c: nat, pc: Pc)
    requires Inv(s) && c < |s.clients|
    requires pc.SendCheck? || pc == EvictDrain(0) || pc.CloseMark?
    ensures Inv(Spawn(s, c, pc))
  {
    assert s.clients[c := s.clients[c]] == s.clients;
    SpawnKeepsInv(s, c, s.clients[c], pc);
  }

  /** Goroutines that were closing and have not moved are still closing. */
  lemma ClosingKept(ts: seq<Thread>, ts': seq<Thread>, c: nat)
    requires |ts| <= |ts'|
    requires forall i :: 0 <= i < |ts| && ts[i].client == c && ts[i].pc.CloseLoad? ==> ts'[i] == ts[i]
    ensures Closing(ts, c) ==> Closing(ts', c)
  {
  }

  /** A step of a goroutine of another client leaves this client's account alone. */
  lemma OtherClientKept(k: Client, d: nat, ts: seq<Thread>, i: nat, t: Thread)
    requires i < |ts| && ts[i].client == t.client != d
    requires ClientInv(k, d, ts)
    ensures ClientInv(k, d, ts[i := t])
  {
    TotalUpdate(Owed(d), ts, i, t);
    TotalUpdate(Committed(d), ts, i, t);
    ClosingKept(ts, ts[i := t], d);
  }

  /** One operation on an open client moves a unit between pending, queue and goroutine, or none. */
  lemma OpenStep(k: Client, t: Thread, alt: bool)
    requires !k.closed && !t.pc.CloseLoad?
    requires Weight(Owed(t.client), t) + k.queued <= k.pending
    requires t.pc.SettleSwap? ==> t.pc.amount <= t.pc.current
    ensures var (k', t', d) := ThreadStep(k, t, alt);
            && t'.client == t.client && k'.pending >= 0
            && k'.closed == t'.pc.CloseLoad? == t.pc.CloseMark?
            && k'.pending - k'.queued - Weight(Owed(t.client), t') == k.pending - k.queued - Weight(Owed(t.client), t)
            && (t'.pc.SettleSwap? ==> t'.pc.amount <= t'.pc.current)
  {
  }

  /** One operation on a closed client never leaves more pending than goroutines are bound to settle. */
  lemma ClosedStep(k: Client, t: Thread, alt: bool)
    requires k.closed && k.pending >= 0
    ensures var (k', t', d) := ThreadStep(k, t, alt);
            && t'.client == t.client && k'.pending >= 0 && k'.closed
            && (t.pc.CloseMark? ==> t'.pc.CloseLoad?)
            && (t.pc.CloseLoad? ==> k'.pending <= Weight(Committed(t.client), t'))
            && (k'.pending <= 0
                || k'.pending - Weight(Committed(t.client), t') <= k.pending - Weight(Committed(t.client), t)
                || t'.pc.CloseLoad?)
  {
  }

  /** The account of the client a goroutine works on survives each of its atomic operations. */
  lemma OwnClientKept(k: Client, c: nat, ts: seq<Thread>, i: nat, alt: bool)
    requires i < |ts| && ts[i].client == c
    requires ClientInv(k, c, ts)
    ensures var (k', t', d) := ThreadStep(k, ts[i], alt); ClientInv(k', c, ts[i := t'])
  {
    var (k', t', d) := ThreadStep(k, ts[i], alt);
    var ts' := ts[i := t'];
    assert ts'[i] == t';
    TotalUpdate(Owed(c), ts, i, t');
    TotalUpdate(Committed(c), ts, i, t');
    TotalAtLeast(Owed(c), ts, i);
    if !k.closed {
      OpenStep(k, ts[i], alt);
    } else {
      ClosedStep(k, ts[i], alt);
      TotalAtLeast(Committed(c), ts', i);
      if !ts[i].pc.CloseLoad? { ClosingKept(ts, ts', c); }
    }
  }

  /** A step changes the hub counter as far as it does not leave that to a later one. */
  lemma HubStep(k: Client, t: Thread, alt: bool)
    ensures var (k', t', d) := ThreadStep(k, t, alt);
            t'.client == t.client && Weight(HubLag, t') - Weight(HubLag, t) == d - (k'.pending - k.pending)
  {
  }

  lemma ThreadStepKeepsInv(s: State, i: nat, alt: bool)
    requires Inv(s) && i < |s.threads|
    ensures Inv(Apply(s, Step(i, alt)))
  {
    var t := s.threads[i];
    var c := t.client;
    var (k, t', d) := ThreadStep(s.clients[c], t, alt);
    var s' := Apply(s, Step(i, alt));
    HubStep(s.clients[c], t, alt);
    TotalUpdate(HubLag, s.threads, i, t');
    PendingUpdate(s.clients, c, k);
    forall e | 0 <= e < |s.clients|
      ensures ClientInv(s'.clients[e], e, s'.threads)
    {
      if e == c {
        OwnClientKept(s.clients[c], c, s.threads, i, alt);
      } else {
        OtherClientKept(s.clients[e], e, s.threads, i, t');
      }
    }
  }

  lemma ConnectKeepsInv(s: State, capacity: nat)
    requires Inv(s)
    ensures Inv(Apply(s, Connect(capacity)))
  {
    PendingAppend(s.clients, Client(false, 0, 0, capacity));
    TotalZero(Owed(|s.clients|), s.threads);
  }

  lemma StepKeepsInv(s: State, a: Action)
    requires Inv(s)
    ensures Inv(Apply(s, a))
  {
    match a
    case Connect(capacity) => ConnectKeepsInv(s, capacity);
    case Step(i, alt) => if i < |s.threads| { ThreadStepKeepsInv(s, i, alt); }
    case StartPump(c) =>
      if c < |s.clients| && s.clients[c].queued > 0 {
        SpawnKeepsInv(s, c, s.clients[c].(queued := s.clients[c].queued - 1), PumpBatch(1));
      }
    case StartSend(c) => if c < |s.clients| { SpawnIdle(s, c, SendCheck); }
    case StartEvict(c) => if c < |s.clients| { SpawnIdle(s, c, EvictDrain(0)); }
    case StartClose(c) => if c < |s.clients| { SpawnIdle(s, c, CloseMark); }
  }

  lemma {:induction false} RunKeepsInv(s: State, actions: seq<Action>)
    requires Inv(s)
    ensures Inv(Run(s, actions))
    decreases |actions|
  {
    if actions != [] {
      StepKeepsInv(s, actions[0]);
      RunKeepsInv(Apply(s, actions[0]), actions[1..]);
    }
  }

  // ---------------------------------------------------------------------------------------------
  // Main results
  // ---------------------------------------------------------------------------------------------

  /** Some interleaving of connects, sends, pump batches, evictions and closes leads to `s`. */
  ghost predicate Reachable(s: State) {
    exists actions :: s == Run(Init(), actions)
  }

  /**
   * Over every interleaving: the hub counter is the sum of all pending writes up to operations
   * between their two updates, no pending count is negative, and an open client's pending writes
   * are exactly the reservations in flight, the queued frames and the frames taken but unsettled.
   */
  lemma BacklogConserved(s: State)
    requires Reachable(s)
    ensures s.hub == TotalPending(s.clients) + Total(HubLag, s.threads)
    ensures forall c :: 0 <= c < |s.clients| ==> s.clients[c].pending >= 0
    ensures forall c :: 0 <= c < |s.clients| && !s.clients[c].closed ==>
                          s.clients[c].pending == Total(Owed(c), s.threads) + s.clients[c].queued
  {
    var actions :| s == Run(Init(), actions);
    RunKeepsInv(Init(), actions);
  }

  ghost predicate Quiet(s: State, c: nat) {
    forall i :: 0 <= i < |s.threads| && s.threads[i].client == c ==> s.threads[i].pc.Done? && s.threads[i].rollback == 0
  }

  /**
   * Once a client is closed and its sends, pumps and settlements have all finished, nothing of it
   * is left pending, however senders raced with the close and took each other's reservations.
   */
  lemma CloseSettlesEverything(s: State, c: nat)
    requires Reachable(s) && c < |s.clients| && s.clients[c].closed && Quiet(s, c)
    ensures s.clients[c].pending == 0
  {
    var actions :| s == Run(Init(), actions);
    RunKeepsInv(Init(), actions);
    TotalZero(Committed(c), s.threads);
    assert ClientInv(s.clients[c], c, s.threads);
  }

  function OpenQueued(cs: seq<Client>): nat {
    if cs == [] then 0 else (if cs[0].closed then 0 else cs[0].queued) + OpenQueued(cs[1..])
  }

  lemma {:induction false} PendingIsQueued(cs: seq<Client>)
    requires forall c :: 0 <= c < |cs| ==> cs[c].pending == if cs[c].closed then 0 else cs[c].queued
    ensures TotalPending(cs) == OpenQueued(cs)
  {
    if cs != [] {
      PendingIsQueued(cs[1..]);
    }
  }

  /** With every goroutine finished, the hub counter counts exactly the frames in open queues. */
  lemma IdleHubCountsQueues(s: State)
    requires Reachable(s)
    requires forall i :: 0 <= i < |s.threads| ==> s.threads[i].pc.Done? && s.threads[i].rollback == 0
    ensures s.hub == OpenQueued(s.clients)
  {
    BacklogConserved(s);
    TotalZero(HubLag, s.threads);
    forall c | 0 <= c < |s.clients|
      ensures s.clients[c].pending == if s.clients[c].closed then 0 else s.clients[c].queued
    {
      if s.clients[c].closed {
        CloseSettlesEverything(s, c);
      } else {
        TotalZero(Owed(c), s.threads);
      }
    }
    PendingIsQueued(s.clients);
  }

  // ---------------------------------------------------------------------------------------------
  // Frames
  // ---------------------------------------------------------------------------------------------

  function QueuedOf(s: State, c: nat): nat {
    if c < |s.clients| then s.clients[c].queued else 0
  }

  /** The step is the select of a send on client c that finds room. */
  predicate Puts(s: State, a: Action, c: nat) {
    && a.Step? && a.thread < |s.threads| && c < |s.clients| && !a.alt
    && s.threads[a.thread].client == c && s.threads[a.thread].pc.SendEnqueue?
    && s.clients[c].queued < s.clients[c].capacity
  }

  /** The step receives a frame from client c's channel: the pump's first or a further one, or a drain's. */
  predicate Takes(s: State, a: Action, c: nat) {
    && c < |s.clients| && s.clients[c].queued > 0
    && match a {
         case StartPump(d) => c == d
         case Step(i, alt) =>
           && !alt && i < |s.threads| && s.threads[i].client == c
           && match s.threads[i].pc {
                case PumpBatch(taken) => taken < WRITE_BATCH
                case EvictDrain(_) => true
                case _ => false
              }
         case _ => false
       }
  }

  function FramesPut(s: State, actions: seq<Action>, c: nat): nat
    decreases |actions|
  {
    if actions == [] then 0
    else (if Puts(s, actions[0], c) then 1 else 0) + FramesPut(Apply(s, actions[0]), actions[1..], c)
  }

  function FramesTaken(s: State, actions: seq<Action>, c: nat): nat
    decreases |actions|
  {
    if actions == [] then 0
    else (if Takes(s, actions[0], c) then 1 else 0) + FramesTaken(Apply(s, actions[0]), actions[1..], c)
  }

  ghost predicate WithinCapacity(s: State) {
    forall c :: 0 <= c < |s.clients| ==> s.clients[c].queued <= s.clients[c].capacity
  }

  lemma FrameStep(s: State, a: Action, c: nat)
    requires WithinCapacity(s)
    ensures WithinCapacity(Apply(s, a))
    ensures QueuedOf(Apply(s, a), c) + (if Takes(s, a, c) then 1 else 0)
            == QueuedOf(s, c) + (if Puts(s, a, c) then 1 else 0)
  {
  }

  lemma {:induction false} FramesOfRun(s: State, actions: seq<Action>, c: nat)
    requires WithinCapacity(s)
    ensures WithinCapacity(Run(s, actions))
    ensures QueuedOf(Run(s, actions), c) + FramesTaken(s, actions, c) == QueuedOf(s, c) + FramesPut(s, actions, c)
    decreases |actions|
  {
    if actions != [] {
      FrameStep(s, actions[0], c);
      FramesOfRun(Apply(s, actions[0]), actions[1..], c);
    }
  }

  /**
   * Over every interleaving the frames put into a channel are those in it and those pumps and drains
   * took out, and a channel never holds more than its capacity.
   */
  lemma FramesConserved(actions: seq<Action>, c: nat)
    ensures FramesPut(Init(), actions, c) == QueuedOf(Run(Init(), actions), c) + FramesTaken(Init(), actions, c)
    ensures WithinCapacity(Run(Init(), actions))
  {
    FramesOfRun(Init(), actions, c);
  }

  // ---------------------------------------------------------------------------------------------
  // One goroutine with nothing between its steps
  // ---------------------------------------------------------------------------------------------

  /** The steps of goroutine i, n of them, none going the environment's way. */
  function Alone(s: State, i: nat, n: nat): State
    decreases n
  {
    if n == 0 then s else Alone(Apply(s, Step(i, false)), i, n - 1)
  }

  lemma {:induction false} AloneAdds(s: State, i: nat, m: nat, n: nat)
    ensures Alone(s, i, m + n) == Alone(Alone(s, i, m), i, n)
    decreases m
  {
    if m > 0 {
      AloneAdds(Apply(s, Step(i, false)), i, m - 1, n);
    }
  }

  /** A goroutine of client k at `pc` beside others, and nothing else changed in the hub but `hub`. */
  predicate Stands(s: State, ts: seq<Thread>, c: nat, cs: seq<Client>, k: Client, pc: Pc, hub: int) {
    c < |cs| && s == State(cs[c := k], ts + [Thread(c, pc, 0)], hub)
  }

  lemma StandsStep(s: State, ts: seq<Thread>, c: nat, cs: seq<Client>, k: Client, pc: Pc, hub: int)
    requires Stands(s, ts, c, cs, k, pc, hub)
    ensures var (k', t', d) := ThreadStep(k, Thread(c, pc, 0), false);
            t'.client == c && t'.rollback == 0
            && Stands(Apply(s, Step(|ts|, false)), ts, c, cs, k', t'.pc, hub + d)
  {
    var (k', t', d) := ThreadStep(k, Thread(c, pc, 0), false);
    assert cs[c := k][c := k'] == cs[c := k'];
    assert (ts + [Thread(c, pc, 0)])[|ts| := t'] == ts + [t'];
  }

  /** A settlement takes what it is asked for, or all there is, off both counters. */
  lemma SettleAlone(s: State, ts: seq<Thread>, c: nat, cs: seq<Client>, k: Client, n: nat, hub: int)
    requires Stands(s, ts, c, cs, k, Settle(n), hub) && k.pending >= 0
    ensures var take := if n <= k.pending then n else k.pending;
            Stands(Alone(s, |ts|, 3), ts, c, cs, k.(pending := k.pending - take), Done, hub - take)
  {
    StandsStep(s, ts, c, cs, k, Settle(n), hub);
    var s1 := Apply(s, Step(|ts|, false));
    var s2 := Apply(s1, Step(|ts|, false));
    assert Alone(s, |ts|, 3) == Apply(s2, Step(|ts|, false)) by {
      assert Alone(s2, |ts|, 1) == Alone(Apply(s2, Step(|ts|, false)), |ts|, 0);
    }
    if n == 0 || k.pending == 0 {
      StandsStep(s1, ts, c, cs, k, Done, hub);
      StandsStep(s2, ts, c, cs, k, Done, hub);
    } else {
      var take := Min(n, k.pending);
      StandsStep(s1, ts, c, cs, k, SettleSwap(n, k.pending), hub);
      StandsStep(s2, ts, c, cs, k.(pending := k.pending - take), SettleCounter(take), hub);
    }
  }

  lemma {:induction false} DoneStays(s: State, ts: seq<Thread>, c: nat, cs: seq<Client>, k: Client, hub: int, n: nat)
    requires Stands(s, ts, c, cs, k, Done, hub)
    ensures Alone(s, |ts|, n) == s
    decreases n
  {
    if n > 0 {
      StandsStep(s, ts, c, cs, k, Done, hub);
      DoneStays(s, ts, c, cs, k, hub, n - 1);
    }
  }

  lemma SpawnStands(s: State, c: nat, pc: Pc)
    requires c < |s.clients|
    ensures Stands(Spawn(s, c, pc), s.threads, c, s.clients, s.clients[c], pc, s.hub)
  {
    assert s.clients[c := s.clients[c]] == s.clients;
  }

  /** The reservation of a send on an open client, up to its select. */
  lemma ReserveAlone(s: State, ts: seq<Thread>, c: nat, cs: seq<Client>, k: Client, hub: int)
    requires Stands(s, ts, c, cs, k, SendCheck, hub) && !k.closed
    ensures Stands(Alone(s, |ts|, 4), ts, c, cs, k.(pending := k.pending + 1), SendEnqueue, hub + 1)
  {
    var s1 := Apply(s, Step(|ts|, false));
    var s2 := Apply(s1, Step(|ts|, false));
    var k' := k.(pending := k.pending + 1);
    StandsStep(s, ts, c, cs, k, SendCheck, hub);
    StandsStep(s1, ts, c, cs, k, SendReserve, hub);
    StandsStep(s2, ts, c, cs, k', SendPublish, hub);
    StandsStep(Apply(s2, Step(|ts|, false)), ts, c, cs, k', SendRecheck, hub + 1);
    AloneAdds(s, |ts|, 2, 2);
    assert Alone(s1, |ts|, 1) == s2;
    assert Alone(s2, |ts|, 2) == Apply(Apply(s2, Step(|ts|, false)), Step(|ts|, false)) by {
      assert Alone(Apply(s2, Step(|ts|, false)), |ts|, 1) == Apply(Apply(s2, Step(|ts|, false)), Step(|ts|, false));
    }
  }

  /**
   * TrySend, alone: with the client open and room in its channel one more frame is queued and counted
   * on both counters; otherwise nothing changes.
   */
  lemma SendAlone(s: State, c: nat)
    requires c < |s.clients| && s.clients[c].pending >= 0
    ensures var k := s.clients[c];
            var sent := !k.closed && k.queued < k.capacity;
            Alone(Apply(s, StartSend(c)), |s.threads|, 8)
            == State(s.clients[c := if sent then k.(queued := k.queued + 1, pending := k.pending + 1) else k],
                     s.threads + [Thread(c, Done, 0)], s.hub + if sent then 1 else 0)
  {
    var k, ts, cs, i := s.clients[c], s.threads, s.clients, |s.threads|;
    var s0 := Apply(s, StartSend(c));
    SpawnStands(s, c, SendCheck);
    if k.closed {
      StandsStep(s0, ts, c, cs, k, SendCheck, s.hub);
      DoneStays(Apply(s0, Step(i, false)), ts, c, cs, k, s.hub, 7);
    } else {
      ReserveAlone(s0, ts, c, cs, k, s.hub);
      AloneAdds(s0, i, 4, 4);
      SelectAlone(Alone(s0, i, 4), ts, c, cs, k.(pending := k.pending + 1), s.hub + 1);
      assert k.(pending := k.pending + 1).(pending := k.pending) == k;
    }
  }

  /** The select of a send, with its deferred settlement. */
  lemma SelectAlone(s: State, ts: seq<Thread>, c: nat, cs: seq<Client>, k: Client, hub: int)
    requires Stands(s, ts, c, cs, k, SendEnqueue, hub) && k.pending > 0
    ensures Stands(Alone(s, |ts|, 4), ts, c, cs,
                   if k.queued < k.capacity then k.(queued := k.queued + 1) else k.(pending := k.pending - 1), Done,
                   if k.queued < k.capacity then hub else hub - 1)
  {
    StandsStep(s, ts, c, cs, k, SendEnqueue, hub);
    var t := Apply(s, Step(|ts|, false));
    if k.queued < k.capacity {
      DoneStays(t, ts, c, cs, k.(queued := k.queued + 1), hub, 3);
    } else {
      SettleAlone(t, ts, c, cs, k, 1, hub);
    }
  }

  /** The pump goes on receiving until its batch is full or the channel is empty. */
  lemma {:induction false} FillBatch(s: State, ts: seq<Thread>, c: nat, cs: seq<Client>, k: Client, taken: nat,
                                     hub: int, m: nat)
    requires Stands(s, ts, c, cs, k, PumpBatch(taken), hub) && m <= k.queued && taken + m <= WRITE_BATCH
    ensures Stands(Alone(s, |ts|, m), ts, c, cs, k.(queued := k.queued - m), PumpBatch(taken + m), hub)
    decreases m
  {
    if m > 0 {
      StandsStep(s, ts, c, cs, k, PumpBatch(taken), hub);
      FillBatch(Apply(s, Step(|ts|, false)), ts, c, cs, k.(queued := k.queued - 1), taken + 1, hub, m - 1);
    }
  }

  /** The write pump, alone: it takes a full batch or all there is, and settles as much on both counters. */
  lemma PumpAlone(s: State, c: nat)
    requires c < |s.clients| && s.clients[c].queued > 0 && s.clients[c].pending >= 0
    ensures var k := s.clients[c];
            var batch := if k.queued < 64 then k.queued else 64;
            var take := if batch <= k.pending then batch else k.pending;
            Alone(Apply(s, StartPump(c)), |s.threads|, batch + 3)
            == State(s.clients[c := k.(queued := k.queued - batch, pending := k.pending - take)],
                     s.threads + [Thread(c, Done, 0)], s.hub - take)
  {
    var k, ts, cs, i := s.clients[c], s.threads, s.clients, |s.threads|;
    var batch := if k.queued < WRITE_BATCH then k.queued else WRITE_BATCH;
    var s0, k0 := Apply(s, StartPump(c)), k.(queued := k.queued - 1);
    assert Stands(s0, ts, c, cs, k0, PumpBatch(1), s.hub);
    FillBatch(s0, ts, c, cs, k0, 1, s.hub, batch - 1);
    SettleTaken(s0, ts, c, cs, k.(queued := k.queued - batch), PumpBatch(batch), s.hub, batch - 1, batch);
  }

  /** After taking `n` frames, with nothing more to take, they are settled. */
  lemma SettleTaken(s0: State, ts: seq<Thread>, c: nat, cs: seq<Client>, k: Client, pc: Pc, hub: int, m: nat, n: nat)
    requires Stands(Alone(s0, |ts|, m), ts, c, cs, k, pc, hub) && k.pending >= 0
    requires (pc == PumpBatch(n) && (n >= WRITE_BATCH || k.queued == 0)) || (pc == EvictDrain(n) && k.queued == 0)
    ensures var take := if n <= k.pending then n else k.pending;
            Stands(Alone(s0, |ts|, m + 4), ts, c, cs, k.(pending := k.pending - take), Done, hub - take)
  {
    var s1 := Alone(s0, |ts|, m);
    AloneAdds(s0, |ts|, m, 4);
    StandsStep(s1, ts, c, cs, k, pc, hub);
    SettleAlone(Apply(s1, Step(|ts|, false)), ts, c, cs, k, n, hub);
  }

  lemma {:induction false} DrainAll(s: State, ts: seq<Thread>, c: nat, cs: seq<Client>, k: Client, taken: nat,
                                    hub: int, m: nat)
    requires Stands(s, ts, c, cs, k, EvictDrain(taken), hub) && m <= k.queued
    ensures Stands(Alone(s, |ts|, m), ts, c, cs, k.(queued := k.queued - m), EvictDrain(taken + m), hub)
    decreases m
  {
    if m > 0 {
      StandsStep(s, ts, c, cs, k, EvictDrain(taken), hub);
      DrainAll(Apply(s, Step(|ts|, false)), ts, c, cs, k.(queued := k.queued - 1), taken + 1, hub, m - 1);
    }
  }

  /** The drain of an eviction, alone: the channel is empty, and what it held is settled. */
  lemma EvictAlone(s: State, c: nat)
    requires c < |s.clients| && s.clients[c].pending >= 0
    ensures var k := s.clients[c];
            var take := if k.queued <= k.pending then k.queued else k.pending;
            Alone(Apply(s, StartEvict(c)), |s.threads|, k.queued + 4)
            == State(s.clients[c := k.(queued := 0, pending := k.pending - take)],
                     s.threads + [Thread(c, Done, 0)], s.hub - take)
  {
    var k, ts, cs := s.clients[c], s.threads, s.clients;
    SpawnStands(s, c, EvictDrain(0));
    DrainAll(Apply(s, StartEvict(c)), ts, c, cs, k, 0, s.hub, k.queued);
    SettleTaken(Apply(s, StartEvict(c)), ts, c, cs, k.(queued := 0), EvictDrain(k.queued), s.hub, k.queued, k.queued);
  }

  /** The same for a goroutine with a deferred settlement, and for either way the environment goes. */
  predicate StandsAs(s: State, ts: seq<Thread>, cs: seq<Client>, k: Client, t: Thread, hub: int) {
    t.client < |cs| && s == State(cs[t.client := k], ts + [t], hub)
  }

  lemma StepAs(s: State, ts: seq<Thread>, cs: seq<Client>, k: Client, t: Thread, hub: int, alt: bool)
    requires StandsAs(s, ts, cs, k, t, hub)
    ensures var (k', t', d) := ThreadStep(k, t, alt);
            t'.client == t.client && StandsAs(Apply(s, Step(|ts|, alt)), ts, cs, k', t', hub + d)
  {
    var (k', t', d) := ThreadStep(k, t, alt);
    assert cs[t.client := k][t.client := k'] == cs[t.client := k'];
    assert (ts + [t])[|ts| := t'] == ts + [t'];
  }

  lemma AloneTwo(s: State, i: nat)
    ensures Alone(s, i, 2) == Apply(Apply(s, Step(i, false)), Step(i, false))
  {
    assert Alone(Apply(s, Step(i, false)), i, 1) == Apply(Apply(s, Step(i, false)), Step(i, false));
  }

  /** The close of a panicked send, up to what it has to settle. */
  lemma PanicCloses(s: State, ts: seq<Thread>, cs: seq<Client>, k: Client, c: nat, hub: int)
    requires k.pending > 0 && StandsAs(s, ts, cs, k, Thread(c, CloseMark, 1), hub)
    ensures StandsAs(Alone(s, |ts|, 2), ts, cs, k.(closed := true), Thread(c, Settle(k.pending), 1), hub)
  {
    AloneTwo(s, |ts|);
    StepAs(s, ts, cs, k, Thread(c, CloseMark, 1), hub, false);
    StepAs(Apply(s, Step(|ts|, false)), ts, cs, k.(closed := true), Thread(c, CloseLoad, 1), hub, false);
  }

  lemma PanicSwaps(s: State, ts: seq<Thread>, cs: seq<Client>, k: Client, c: nat, hub: int)
    requires k.pending > 0 && StandsAs(s, ts, cs, k, Thread(c, Settle(k.pending), 1), hub)
    ensures StandsAs(Alone(s, |ts|, 2), ts, cs, k.(pending := 0), Thread(c, SettleCounter(k.pending), 1), hub)
  {
    AloneTwo(s, |ts|);
    StepAs(s, ts, cs, k, Thread(c, Settle(k.pending), 1), hub, false);
    StepAs(Apply(s, Step(|ts|, false)), ts, cs, k, Thread(c, SettleSwap(k.pending, k.pending), 1), hub, false);
  }

  lemma PanicSettles(s: State, ts: seq<Thread>, cs: seq<Client>, k: Client, c: nat, hub: int, take: nat)
    requires k.pending == 0 && StandsAs(s, ts, cs, k, Thread(c, SettleCounter(take), 1), hub)
    ensures StandsAs(Alone(s, |ts|, 2), ts, cs, k, Thread(c, Done, 0), hub - take)
  {
    AloneTwo(s, |ts|);
    StepAs(s, ts, cs, k, Thread(c, SettleCounter(take), 1), hub, false);
    StepAs(Apply(s, Step(|ts|, false)), ts, cs, k, Thread(c, Settle(1), 0), hub - take, false);
  }

  /**
   * A send whose select panics, alone: the client is closed, all that was pending is settled, and the
   * deferred settlement of its own unit finds nothing left to take.
   */
  lemma PanicAlone(s: State, ts: seq<Thread>, cs: seq<Client>, k: Client, c: nat, hub: int)
    requires StandsAs(s, ts, cs, k, Thread(c, SendEnqueue, 0), hub) && k.pending > 0
    ensures Alone(Apply(s, Step(|ts|, true)), |ts|, 6)
            == State(cs[c := k.(closed := true, pending := 0)], ts + [Thread(c, Done, 0)], hub - k.pending)
  {
    StepAs(s, ts, cs, k, Thread(c, SendEnqueue, 0), hub, true);
    var s0, i, k' := Apply(s, Step(|ts|, true)), |ts|, k.(closed := true);
    PanicCloses(s0, ts, cs, k, c, hub);
    AloneAdds(s0, i, 2, 4);
    var s2 := Alone(s0, i, 2);
    PanicSwaps(s2, ts, cs, k', c, hub);
    AloneAdds(s2, i, 2, 2);
    PanicSettles(Alone(s2, i, 2), ts, cs, k'.(pending := 0), c, hub, k.pending);
  }

  /** MarkClosed, alone: the client is closed and all that was pending is settled. */
  lemma CloseAlone(s: State, c: nat)
    requires c < |s.clients| && s.clients[c].pending >= 0
    ensures var k := s.clients[c];
            Alone(Apply(s, StartClose(c)), |s.threads|, 5)
            == State(s.clients[c := k.(closed := true, pending := 0)], s.threads + [Thread(c, Done, 0)],
                     s.hub - k.pending)
  {
    var k, ts, cs, i := s.clients[c], s.threads, s.clients, |s.threads|;
    var s0, k' := Apply(s, StartClose(c)), k.(closed := true);
    SpawnStands(s, c, CloseMark);
    StandsStep(s0, ts, c, cs, k, CloseMark, s.hub);
    var s1 := Apply(s0, Step(i, false));
    StandsStep(s1, ts, c, cs, k', CloseLoad, s.hub);
    AloneAdds(s0, i, 2, 3);
    assert Alone(s1, i, 1) == Apply(s1, Step(i, false));
    SettleAlone(Apply(s1, Step(i, false)), ts, c, cs, k', k.pending, s.hub);
  }

  // ---------------------------------------------------------------------------------------------
  // The operations, each running alone
  // ---------------------------------------------------------------------------------------------

  function Sum(xs: seq<int>): int {
    if xs == [] then 0 else Sum(xs[..|xs| - 1]) + xs[|xs| - 1]
  }

  class Counter {
    var value: int
  }

  class Connection {
    var closed: bool
    var pendingWrites: int
    var queue: seq<seq<bv8>>
    const capacity: nat
    const hasChannel: bool
    const counter: Counter?   // the hub's, once bound

    /** What the hub's counter holds for everybody else. */
    ghost function Elsewhere(): int
      reads this, counter
    {
      if counter == null then 0 else counter.value - pendingWrites
    }

    /**
     * The compare-and-swap loop. Before its swap in turn i other goroutines may reserve or settle
     * `rivals[i]` units, on both counters, and then it tries again.
     */
    method CompletePendingWrites(n: int, rivals: seq<int>) returns (ghost taken: int, ghost turns: nat)
      requires forall k :: 0 <= k <= |rivals| ==> pendingWrites + Sum(rivals[..k]) >= 0
      modifies this`pendingWrites, counter
      ensures turns <= |rivals| && pendingWrites == old(pendingWrites) + Sum(rivals[..turns]) - taken
      ensures 0 <= taken <= (if n > 0 then n else 0) && (taken < n ==> pendingWrites == 0) && pendingWrites >= 0
      ensures Elsewhere() == old(Elsewhere())
    {
      taken, turns := 0, 0;
      assert pendingWrites + Sum(rivals[..0]) >= 0;
      var i := 0;
      while n > 0
        invariant 0 <= i == turns <= |rivals| && taken == 0 && Elsewhere() == old(Elsewhere())
        invariant pendingWrites == old(pendingWrites) + Sum(rivals[..i]) && pendingWrites >= 0
        decreases |rivals| - i
      {
        var current := pendingWrites;
        var take := if n < current then n else current;
        if take == 0 {
          return;
        }
        if i < |rivals| {
          assert rivals[..i + 1][..i] == rivals[..i];
          assert old(pendingWrites) + Sum(rivals[..i + 1]) >= 0;
          Change(rivals[i]);
          i, turns := i + 1, turns + 1;
        }
        if pendingWrites == current {
          Change(-take);
          taken := take;
          return;
        }
      }
    }

    /** Both counters move together. */
    method Change(units: int)
      modifies this`pendingWrites, counter
      ensures pendingWrites == old(pendingWrites) + units && Elsewhere() == old(Elsewhere())
    {
      pendingWrites := pendingWrites + units;
      if counter != null {
        counter.value := counter.value + units;
      }
    }

    method MarkClosed()
      requires pendingWrites >= 0
      modifies this`closed, this`pendingWrites, counter
      ensures closed && pendingWrites == 0 && Elsewhere() == old(Elsewhere())
    {
      closed := true;
      ghost var taken, turns := CompletePendingWrites(pendingWrites, []);
    }

    /** A frame is counted exactly when it is queued. */
    method TrySend(data: seq<bv8>) returns (sent: bool)
      requires pendingWrites >= 0
      modifies this`pendingWrites, this`queue, counter
      ensures sent <==> !closed && hasChannel && |old(queue)| < capacity
      ensures queue == if sent then old(queue) + [data] else old(queue)
      ensures pendingWrites == old(pendingWrites) + if sent then 1 else 0
      ensures Elsewhere() == old(Elsewhere())
    {
      if closed || !hasChannel {
        return false;
      }
      Change(1);
      sent := false;
      if !closed {
        if |queue| < capacity {
          queue := queue + [data];
          sent := true;
        }
      }
      if !sent {
        ghost var taken, turns := CompletePendingWrites(1, []);
      }
    }
  }
}
