/**
 * The bounded fan-out executor, whose workers draw indices from a shared cursor, and the counting of
 * its per-member results, by the workers themselves or after they are done.
 */
module Fanout {
  import opened Options

  /** A member's send result. */
  datatype Result = Result(success: bool, failed: bool, storedOffline: bool)

  /** What the send core promises of every result. */
  predicate Honest(r: Result) {
    (r.success <==> !r.failed) && (r.storedOffline ==> r.success)
  }

  /** What each member's call brings; None where it panics. */
  type Results = seq<Option<Result>>
  type Kind = Option<Result> -> bool

  predicate Panicked(r: Option<Result>) {
    r.None?
  }

  predicate Came(r: Option<Result>) {
    r.Some?
  }

  predicate WasOnline(r: Option<Result>) {
    r.Some? && !r.value.storedOffline
  }

  predicate WasOffline(r: Option<Result>) {
    r.Some? && r.value.storedOffline
  }

  predicate WasSent(r: Option<Result>) {
    WasOnline(r) && r.value.success
  }

  predicate WasStored(r: Option<Result>) {
    WasOffline(r) && r.value.success
  }

  predicate NotSent(r: Option<Result>) {
    r.Some? && !r.value.success
  }

  /** How many of the first k results are of a kind. */
  ghost function Number(rs: Results, k: nat, kind: Kind): nat
    requires k <= |rs|
  {
    |set i | 0 <= i < k && kind(rs[i])|
  }

  lemma NumberStep(rs: Results, k: nat, kind: Kind)
    requires k < |rs|
    ensures Number(rs, k + 1, kind) == Number(rs, k, kind) + if kind(rs[k]) then 1 else 0
  {
    var before, after := set i | 0 <= i < k && kind(rs[i]), set i | 0 <= i < k + 1 && kind(rs[i]);
    assert after == before + if kind(rs[k]) then {k} else {};
  }

  // ---------------------------------------------------------------------------------------------
  // The counters of a group broadcast
  // ---------------------------------------------------------------------------------------------

  datatype Counters = Counters(online: int, offline: int, sent: int, stored: int, failed: int)

  const ZERO := Counters(0, 0, 0, 0, 0)

  /** The first atomic add of a member's call. */
  function FirstAdd(c: Counters, r: Result): Counters {
    if r.storedOffline then c.(offline := c.offline + 1) else c.(online := c.online + 1)
  }

  /** The second one. */
  function SecondAdd(c: Counters, r: Result): Counters {
    if !r.success then c.(failed := c.failed + 1)
    else if r.storedOffline then c.(stored := c.stored + 1)
    else c.(sent := c.sent + 1)
  }

  /** Each counter counts its own kind among the first k results. */
  ghost predicate CountExactly(c: Counters, rs: Results, k: nat)
    requires k <= |rs|
  {
    && c.online == Number(rs, k, WasOnline) && c.offline == Number(rs, k, WasOffline)
    && c.sent == Number(rs, k, WasSent) && c.stored == Number(rs, k, WasStored) && c.failed == Number(rs, k, NotSent)
  }

  lemma {:induction false} SumsAgree(c: Counters, rs: Results, k: nat)
    requires k <= |rs| && CountExactly(c, rs, k)
    ensures c.online + c.offline == c.sent + c.stored + c.failed == k - Number(rs, k, Panicked)
    decreases k
  {
    if k > 0 {
      var n := k - 1;
      NumberStep(rs, n, WasOnline);
      NumberStep(rs, n, WasOffline);
      NumberStep(rs, n, WasSent);
      NumberStep(rs, n, WasStored);
      NumberStep(rs, n, NotSent);
      NumberStep(rs, n, Panicked);
      SumsAgree(Counters(Number(rs, n, WasOnline), Number(rs, n, WasOffline), Number(rs, n, WasSent),
                         Number(rs, n, WasStored), Number(rs, n, NotSent)), rs, n);
    }
  }

  /** The fan-out with one worker, a plain loop over the members. */
  method RunSerially(rs: Results) returns (c: Counters)
    ensures CountExactly(c, rs, |rs|)
    ensures c.online + c.offline == c.sent + c.stored + c.failed == |rs| - Number(rs, |rs|, Panicked)
  {
    c := ZERO;
    var i := 0;
    while i < |rs|
      invariant 0 <= i <= |rs| && CountExactly(c, rs, i)
    {
      NumberStep(rs, i, WasOnline);
      NumberStep(rs, i, WasOffline);
      NumberStep(rs, i, WasSent);
      NumberStep(rs, i, WasStored);
      NumberStep(rs, i, NotSent);
      if rs[i].Some? {
        c := FirstAdd(c, rs[i].value);
        c := SecondAdd(c, rs[i].value);
      }
      i := i + 1;
    }
    SumsAgree(c, rs, |rs|);
  }

  // ---------------------------------------------------------------------------------------------
  // The executor: every interleaving of the workers
  // ---------------------------------------------------------------------------------------------

  datatype Worker =
    | Drawing
    | Running(index: nat)
    | Returned(index: nat)  // the send has returned, nothing counted yet
    | Between(index: nat)   // between the two adds
    | Exited

  /** `ran` lists the indices whose call is over; `place` is a history variable. */
  datatype State = State(cursor: nat, workers: seq<Worker>, ran: seq<nat>, place: map<nat, Place>, counters: Counters)
  datatype Place = With(worker: nat) | Ran(at: nat)

  datatype Action = Draw(worker: nat) | Return(worker: nat) | AddFirst(worker: nat) | AddSecond(worker: nat)

  function Start(workers: nat): State {
    State(0, seq(workers, _ => Drawing), [], map[], ZERO)
  }

  /** cursor.Add(1) - 1, and whether there is anything left. */
  function DrawNext(s: State, w: nat, n: nat): State
    requires w < |s.workers|
  {
    var index := s.cursor;
    if index >= n then s.(cursor := s.cursor + 1, workers := s.workers[w := Exited])
    else s.(cursor := s.cursor + 1, workers := s.workers[w := Running(index)], place := s.place[index := With(w)])
  }

  /** The call is over, normally or by a recovered panic. */
  function Finish(s: State, w: nat, index: nat): State
    requires w < |s.workers|
  {
    s.(workers := s.workers[w := Drawing], ran := s.ran + [index], place := s.place[index := Ran(|s.ran|)])
  }

  function Advance(s: State, w: nat, worker: Worker, counters: Counters): State
    requires w < |s.workers|
  {
    s.(workers := s.workers[w := worker], counters := counters)
  }

  predicate Here(s: State, w: nat, rs: Results) {
    w < |s.workers| && Busy(s.workers[w]) && s.workers[w].index < |rs|
  }

  predicate Busy(worker: Worker) {
    worker.Running? || worker.Returned? || worker.Between?
  }

  function Apply(s: State, a: Action, rs: Results): State {
    var w := a.worker;
    if a.Draw? then
      if w < |s.workers| && s.workers[w] == Drawing then DrawNext(s, w, |rs|) else s
    else if !Here(s, w, rs) then s
    else
      var i := s.workers[w].index;
      match a
      case Draw(_) => s
      case Return(_) =>
        if !s.workers[w].Running? then s
        else if rs[i].None? then Finish(s, w, i)
        else Advance(s, w, Returned(i), s.counters)
      case AddFirst(_) =>
        if s.workers[w].Returned?
            && rs[i].Some? then Advance(s, w, Between(i), FirstAdd(s.counters, rs[i].value)) else s
      case AddSecond(_) =>
        if s.workers[w].Between? && rs[i].Some?
        then Finish(s.(counters := SecondAdd(s.counters, rs[i].value)), w, i)
        else s
  }

  function Run(actions: seq<Action>, workers: nat, rs: Results): State
    decreases |actions|
  {
    if actions == [] then Start(workers)
        else Apply(Run(actions[..|actions| - 1], workers, rs), actions[|actions| - 1], rs)
  }

  // ---------------------------------------------------------------------------------------------
  // Exactly once
  // ---------------------------------------------------------------------------------------------

  predicate AtWorker(s: State, i: nat, w: nat) {
    w < |s.workers| && Busy(s.workers[w]) && s.workers[w].index == i
  }

  predicate AtRan(s: State, i: nat, at: nat) {
    at < |s.ran| && s.ran[at] == i
  }

  predicate Good(s: State, i: nat)
    requires i in s.place
  {
    match s.place[i]
    case With(w) => AtWorker(s, i, w)
    case Ran(at) => AtRan(s, i, at)
  }

  /** Every index drawn so far is with one worker or has run once; workers stop only when none is left. */
  ghost predicate Placed(s: State, n: nat) {
    && (forall i: nat :: i in s.place <==> i < s.cursor && i < n)
    && (forall i: nat :: i in s.place ==> Good(s, i))
    && (forall i: nat, w: nat :: AtWorker(s, i, w) ==> i in s.place && s.place[i] == With(w))
    && (forall i: nat, at: nat :: AtRan(s, i, at) ==> i in s.place && s.place[i] == Ran(at))
    && (forall w :: 0 <= w < |s.workers| && s.workers[w] == Exited ==> s.cursor >= n)
  }

  lemma DrawPlaced(s: State, w: nat, n: nat)
    requires Placed(s, n) && w < |s.workers| && s.workers[w] == Drawing
    ensures Placed(DrawNext(s, w, n), n)
  {
    var t := DrawNext(s, w, n);
    forall i: nat | i in t.place ensures Good(t, i) {
      if i in s.place {
        assert Good(s, i);
      }
    }
    forall i: nat, v: nat | AtWorker(t, i, v) ensures i in t.place && t.place[i] == With(v) {
      if v != w {
        assert AtWorker(s, i, v);
      }
    }
    forall i: nat, at: nat | AtRan(t, i, at) ensures i in t.place && t.place[i] == Ran(at) {
      assert AtRan(s, i, at);
    }
  }

  lemma FinishPlaced(s: State, w: nat, n: nat)
    requires Placed(s, n) && w < |s.workers| && Busy(s.workers[w])
    ensures Placed(Finish(s, w, s.workers[w].index), n) && s.workers[w].index !in s.ran
  {
    var index := s.workers[w].index;
    var t := Finish(s, w, index);
    assert AtWorker(s, index, w);
    forall at: nat | at < |s.ran| ensures s.ran[at] != index {
      assert AtRan(s, s.ran[at], at);
    }
    forall i: nat | i in t.place ensures Good(t, i) {
      assert Good(s, i);
    }
    forall i: nat, v: nat | AtWorker(t, i, v) ensures i in t.place && t.place[i] == With(v) {
      assert AtWorker(s, i, v);
    }
    forall i: nat, at: nat | AtRan(t, i, at) ensures i in t.place && t.place[i] == Ran(at) {
      if at < |s.ran| {
        assert AtRan(s, i, at);
      }
    }
  }

  /** A worker that goes on with its index. */
  lemma AdvancePlaced(s: State, w: nat, worker: Worker, counters: Counters, n: nat)
    requires Placed(s, n) && w < |s.workers| && Busy(s.workers[w]) && Busy(worker) && worker.index == s.workers[w].index
    ensures Placed(Advance(s, w, worker, counters), n)
  {
    var t := Advance(s, w, worker, counters);
    forall i: nat | i in t.place ensures Good(t, i) {
      assert Good(s, i);
    }
    forall i: nat, v: nat | AtWorker(t, i, v) ensures i in t.place && t.place[i] == With(v) {
      assert AtWorker(s, i, v);
    }
    forall i: nat, at: nat | AtRan(t, i, at) ensures i in t.place && t.place[i] == Ran(at) {
      assert AtRan(s, i, at);
    }
  }

  // ---------------------------------------------------------------------------------------------
  // Counting while workers interleave
  // ---------------------------------------------------------------------------------------------

  /** How many workers are between their two adds for a result of a kind. */
  ghost function Amid(workers: seq<Worker>, rs: Results, kind: Kind): nat {
    if workers == [] then 0
    else Amid(workers[..|workers| - 1], rs, kind) + AmidOne(workers[|workers| - 1], rs, kind)
  }

  ghost function AmidOne(worker: Worker, rs: Results, kind: Kind): nat {
    if worker.Between? && worker.index < |rs| && kind(rs[worker.index]) then 1 else 0
  }

  lemma {:induction false} AmidUpdate(workers: seq<Worker>, w: nat, worker: Worker, rs: Results, kind: Kind)
    requires w < |workers|
    ensures Amid(workers[w := worker], rs, kind)
            == Amid(workers, rs, kind) - AmidOne(workers[w], rs, kind) + AmidOne(worker, rs, kind)
    decreases |workers|
  {
    var n := |workers| - 1;
    if w < n {
      AmidUpdate(workers[..n], w, worker, rs, kind);
      assert workers[w := worker][..n] == workers[..n][w := worker];
    } else {
      assert workers[w := worker][..n] == workers[..n];
    }
  }

  lemma {:induction false} NoneAmid(workers: seq<Worker>, rs: Results, kind: Kind)
    requires forall w :: 0 <= w < |workers| ==> !workers[w].Between?
    ensures Amid(workers, rs, kind) == 0
    decreases |workers|
  {
    if workers != [] {
      NoneAmid(workers[..|workers| - 1], rs, kind);
    }
  }

  /** How many of the calls that are over had a result of a kind. */
  ghost function Over(ran: seq<nat>, rs: Results, kind: Kind): nat {
    |set i | i in ran && i < |rs| && kind(rs[i])|
  }

  lemma OverAppend(ran: seq<nat>, i: nat, rs: Results, kind: Kind)
    requires i !in ran && i < |rs|
    ensures Over(ran + [i], rs, kind) == Over(ran, rs, kind) + if kind(rs[i]) then 1 else 0
  {
    var before, after := set k | k in ran && k < |rs| && kind(rs[k]), set k | k in ran + [i] && k < |rs| && kind(rs[k]);
    assert after == before + if kind(rs[i]) then {i} else {};
  }

  /** The first adds are ahead of the finished calls by the workers between their adds, the second ones are not. */
  ghost predicate Counted(s: State, rs: Results) {
    && s.counters.online == Over(s.ran, rs, WasOnline) + Amid(s.workers, rs, WasOnline)
    && s.counters.offline == Over(s.ran, rs, WasOffline) + Amid(s.workers, rs, WasOffline)
    && s.counters.sent == Over(s.ran, rs, WasSent)
    && s.counters.stored == Over(s.ran, rs, WasStored)
    && s.counters.failed == Over(s.ran, rs, NotSent)
    && s.counters.online + s.counters.offline
       == s.counters.sent + s.counters.stored + s.counters.failed + Amid(s.workers, rs, Came)
  }

  ghost predicate Inv(s: State, rs: Results) {
    Placed(s, |rs|) && Counted(s, rs)
  }

  lemma WorkerMoves(workers: seq<Worker>, w: nat, worker: Worker, rs: Results)
    requires w < |workers|
    ensures Amid(workers[w := worker], rs, WasOnline)
            == Amid(workers, rs, WasOnline) - AmidOne(workers[w], rs, WasOnline) + AmidOne(worker, rs, WasOnline)
    ensures Amid(workers[w := worker], rs, WasOffline)
            == Amid(workers, rs, WasOffline) - AmidOne(workers[w], rs, WasOffline) + AmidOne(worker, rs, WasOffline)
    ensures Amid(workers[w := worker], rs, Came)
            == Amid(workers, rs, Came) - AmidOne(workers[w], rs, Came) + AmidOne(worker, rs, Came)
  {
    AmidUpdate(workers, w, worker, rs, WasOnline);
    AmidUpdate(workers, w, worker, rs, WasOffline);
    AmidUpdate(workers, w, worker, rs, Came);
  }

  lemma CallOver(ran: seq<nat>, i: nat, rs: Results)
    requires i !in ran && i < |rs|
    ensures Over(ran + [i], rs, WasOnline) == Over(ran, rs, WasOnline) + if WasOnline(rs[i]) then 1 else 0
    ensures Over(ran + [i], rs, WasOffline) == Over(ran, rs, WasOffline) + if WasOffline(rs[i]) then 1 else 0
    ensures Over(ran + [i], rs, WasSent) == Over(ran, rs, WasSent) + if WasSent(rs[i]) then 1 else 0
    ensures Over(ran + [i], rs, WasStored) == Over(ran, rs, WasStored) + if WasStored(rs[i]) then 1 else 0
    ensures Over(ran + [i], rs, NotSent) == Over(ran, rs, NotSent) + if NotSent(rs[i]) then 1 else 0
  {
    OverAppend(ran, i, rs, WasOnline);
    OverAppend(ran, i, rs, WasOffline);
    OverAppend(ran, i, rs, WasSent);
    OverAppend(ran, i, rs, WasStored);
    OverAppend(ran, i, rs, NotSent);
  }

  lemma DrawKeeps(s: State, w: nat, rs: Results)
    requires Inv(s, rs) && w < |s.workers| && s.workers[w] == Drawing
    ensures Inv(DrawNext(s, w, |rs|), rs)
  {
    DrawPlaced(s, w, |rs|);
    WorkerMoves(s.workers, w, DrawNext(s, w, |rs|).workers[w], rs);
  }

  lemma ReturnKeeps(s: State, w: nat, rs: Results)
    requires Inv(s, rs) && Here(s, w, rs) && s.workers[w].Running?
    ensures Inv(Apply(s, Return(w), rs), rs)
  {
    var i := s.workers[w].index;
    if rs[i].None? {
      FinishPlaced(s, w, |rs|);
      CallOver(s.ran, i, rs);
      WorkerMoves(s.workers, w, Drawing, rs);
    } else {
      AdvancePlaced(s, w, Returned(i), s.counters, |rs|);
      WorkerMoves(s.workers, w, Returned(i), rs);
    }
  }

  lemma FirstKeeps(s: State, w: nat, rs: Results)
    requires Inv(s, rs) && Here(s, w, rs) && s.workers[w].Returned? && rs[s.workers[w].index].Some?
    ensures Inv(Apply(s, AddFirst(w), rs), rs)
  {
    var i := s.workers[w].index;
    AdvancePlaced(s, w, Between(i), FirstAdd(s.counters, rs[i].value), |rs|);
    WorkerMoves(s.workers, w, Between(i), rs);
  }

  lemma SecondKeeps(s: State, w: nat, rs: Results)
    requires Inv(s, rs) && Here(s, w, rs) && s.workers[w].Between? && rs[s.workers[w].index].Some?
    ensures Inv(Apply(s, AddSecond(w), rs), rs)
  {
    var i := s.workers[w].index;
    var counted := s.(counters := SecondAdd(s.counters, rs[i].value));
    AdvancePlaced(s, w, s.workers[w], counted.counters, |rs|);
    assert Advance(s, w, s.workers[w], counted.counters) == counted;
    FinishPlaced(counted, w, |rs|);
    CallOver(s.ran, i, rs);
    WorkerMoves(s.workers, w, Drawing, rs);
  }

  lemma StepKeepsInv(s: State, a: Action, rs: Results)
    requires Inv(s, rs)
    ensures Inv(Apply(s, a, rs), rs)
  {
    var w := a.worker;
    if a.Draw? {
      if w < |s.workers| && s.workers[w] == Drawing {
        DrawKeeps(s, w, rs);
      }
    } else if Here(s, w, rs) {
      if a.Return? && s.workers[w].Running? {
        ReturnKeeps(s, w, rs);
      } else if a.AddFirst? && s.workers[w].Returned? && rs[s.workers[w].index].Some? {
        FirstKeeps(s, w, rs);
      } else if a.AddSecond? && s.workers[w].Between? && rs[s.workers[w].index].Some? {
        SecondKeeps(s, w, rs);
      }
    }
  }

  lemma StartInv(workers: nat, rs: Results)
    ensures Inv(Start(workers), rs)
  {
    var s := Start(workers);
    NoneAmid(s.workers, rs, WasOnline);
    NoneAmid(s.workers, rs, WasOffline);
    NoneAmid(s.workers, rs, Came);
  }

  lemma {:induction false} RunKeepsInv(actions: seq<Action>, workers: nat, rs: Results)
    ensures Inv(Run(actions, workers, rs), rs) && |Run(actions, workers, rs).workers| == workers
    decreases |actions|
  {
    if actions == [] {
      StartInv(workers, rs);
    } else {
      RunKeepsInv(actions[..|actions| - 1], workers, rs);
      StepKeepsInv(Run(actions[..|actions| - 1], workers, rs), actions[|actions| - 1], rs);
    }
  }

  // ---------------------------------------------------------------------------------------------
  // Main results
  // ---------------------------------------------------------------------------------------------

  ghost predicate AllExited(s: State) {
    forall w :: 0 <= w < |s.workers| ==> s.workers[w] == Exited
  }

  /** What one worker does with k members, its calls over one after the other. */
  function OneByOne(rs: Results, k: nat): seq<Action>
    requires k <= |rs|
  {
    if k == 0 then []
    else OneByOne(rs, k - 1) + [Draw(0), Return(0)] + if rs[k - 1].Some? then [AddFirst(0), AddSecond(0)] else []
  }

  lemma RunAppend(actions: seq<Action>, a: Action, workers: nat, rs: Results)
    ensures Run(actions + [a], workers, rs) == Apply(Run(actions, workers, rs), a, rs)
  {
    assert (actions + [a])[..|actions|] == actions;
  }

  /** Where the only worker stands, what it has drawn and which calls are over. */
  ghost predicate Stands(actions: seq<Action>, rs: Results, worker: Worker, cursor: nat, ran: seq<nat>) {
    var s := Run(actions, 1, rs);
    s.workers == [worker] && s.cursor == cursor && s.ran == ran
  }

  lemma DrawOne(actions: seq<Action>, rs: Results, i: nat, ran: seq<nat>)
    requires i < |rs| && Stands(actions, rs, Drawing, i, ran)
    ensures Stands(actions + [Draw(0)], rs, Running(i), i + 1, ran)
  {
    RunAppend(actions, Draw(0), 1, rs);
  }

  lemma ReturnOne(actions: seq<Action>, rs: Results, i: nat, ran: seq<nat>)
    requires i < |rs| && Stands(actions, rs, Running(i), i + 1, ran)
    ensures if rs[i].Some? then Stands(actions + [Return(0)], rs, Returned(i), i + 1, ran)
            else Stands(actions + [Return(0)], rs, Drawing, i + 1, ran + [i])
  {
    RunAppend(actions, Return(0), 1, rs);
  }

  lemma AddOne(actions: seq<Action>, rs: Results, i: nat, ran: seq<nat>)
    requires i < |rs| && rs[i].Some? && Stands(actions, rs, Returned(i), i + 1, ran)
    ensures Stands(actions + [AddFirst(0)], rs, Between(i), i + 1, ran)
  {
    RunAppend(actions, AddFirst(0), 1, rs);
  }

  lemma AddOther(actions: seq<Action>, rs: Results, i: nat, ran: seq<nat>)
    requires i < |rs| && rs[i].Some? && Stands(actions, rs, Between(i), i + 1, ran)
    ensures Stands(actions + [AddSecond(0)], rs, Drawing, i + 1, ran + [i])
  {
    RunAppend(actions, AddSecond(0), 1, rs);
  }

  lemma {:induction false} OneByOneRuns(rs: Results, k: nat)
    requires k <= |rs|
    ensures Stands(OneByOne(rs, k), rs, Drawing, k, seq(k, i => i))
    decreases k
  {
    if k > 0 {
      OneByOneRuns(rs, k - 1);
      var before, i, ran := OneByOne(rs, k - 1), k - 1, seq(k - 1, j => j);
      DrawOne(before, rs, i, ran);
      ReturnOne(before + [Draw(0)], rs, i, ran);
      var both := before + [Draw(0)] + [Return(0)];
      assert seq(k, j => j) == ran + [i];
      if rs[i].Some? {
        AddOne(both, rs, i, ran);
        AddOther(both + [AddFirst(0)], rs, i, ran);
        assert both + [AddFirst(0)] + [AddSecond(0)] == OneByOne(rs, k);
      } else {
        assert both == OneByOne(rs, k);
      }
    }
  }

  /** One worker alone runs the members in order and exits, so the results about exits are not idle. */
  lemma OneWorkerExits(rs: Results)
    ensures var s := Run(OneByOne(rs, |rs|) + [Draw(0)], 1, rs); AllExited(s) && s.ran == seq(|rs|, i => i)
  {
    OneByOneRuns(rs, |rs|);
    RunAppend(OneByOne(rs, |rs|), Draw(0), 1, rs);
  }

  /** When all workers have exited, every index has run, and exactly once. */
  lemma EachIndexOnce(actions: seq<Action>, workers: nat, rs: Results, i: nat)
    requires workers > 0 && i < |rs| && AllExited(Run(actions, workers, rs))
    ensures exists at: nat :: AtRan(Run(actions, workers, rs), i, at)
    ensures forall at: nat, at': nat ::
              AtRan(Run(actions, workers, rs), i, at) && AtRan(Run(actions, workers, rs), i, at') ==> at == at'
  {
    RunKeepsInv(actions, workers, rs);
    var s := Run(actions, workers, rs);
    assert s.workers[0] == Exited;
    assert i in s.place && Good(s, i);
    assert s.place[i].Ran?;
    assert AtRan(s, i, s.place[i].at);
  }

  /** Only indices of the list are ever run, and never twice, at any moment. */
  lemma NeverTwice(actions: seq<Action>, workers: nat, rs: Results)
    ensures var ran := Run(actions, workers, rs).ran;
            && (forall a :: 0 <= a < |ran| ==> ran[a] < |rs|)
            && forall a, b :: 0 <= a < b < |ran| ==> ran[a] != ran[b]
  {
    RunKeepsInv(actions, workers, rs);
    var s := Run(actions, workers, rs);
    forall a: nat | a < |s.ran| ensures s.ran[a] in s.place && s.place[s.ran[a]] == Ran(a) {
      assert AtRan(s, s.ran[a], a);
    }
  }

  /** At every moment the two ways of counting agree up to the workers between their two adds. */
  lemma CountersConserved(actions: seq<Action>, workers: nat, rs: Results)
    ensures var s := Run(actions, workers, rs);
            s.counters.online + s.counters.offline
            == s.counters.sent + s.counters.stored + s.counters.failed + Amid(s.workers, rs, Came)
  {
    RunKeepsInv(actions, workers, rs);
  }

  lemma OverAll(actions: seq<Action>, workers: nat, rs: Results, kind: Kind)
    requires workers > 0 && AllExited(Run(actions, workers, rs))
    ensures Over(Run(actions, workers, rs).ran, rs, kind) == Number(rs, |rs|, kind)
  {
    var ran := Run(actions, workers, rs).ran;
    forall i: nat | i < |rs| ensures i in ran {
      EachIndexOnce(actions, workers, rs, i);
    }
    assert (set i | i in ran && i < |rs| && kind(rs[i])) == (set i | 0 <= i < |rs| && kind(rs[i]));
  }

  /**
   * When all workers have exited, each counter is the number of members of its kind, and both ways of
   * counting add up to the members whose call did not panic.
   */
  lemma CountersAtExit(actions: seq<Action>, workers: nat, rs: Results)
    requires workers > 0 && AllExited(Run(actions, workers, rs))
    ensures var c := Run(actions, workers, rs).counters;
            && CountExactly(c, rs, |rs|)
            && c.online + c.offline == c.sent + c.stored + c.failed == |rs| - Number(rs, |rs|, Panicked)
  {
    RunKeepsInv(actions, workers, rs);
    var s := Run(actions, workers, rs);
    NoneAmid(s.workers, rs, WasOnline);
    NoneAmid(s.workers, rs, WasOffline);
    OverAll(actions, workers, rs, WasOnline);
    OverAll(actions, workers, rs, WasOffline);
    OverAll(actions, workers, rs, WasSent);
    OverAll(actions, workers, rs, WasStored);
    OverAll(actions, workers, rs, NotSent);
    SumsAgree(s.counters, rs, |rs|);
  }

  // ---------------------------------------------------------------------------------------------
  // Summing up after the fan-out
  // ---------------------------------------------------------------------------------------------

  datatype MembersResult = MembersResult(
    total: int, success: int, offline: int, failed: int, offlineIds: seq<string>, failedIds: seq<string>)

  predicate Fails(r: Option<Result>) {
    Panicked(r) || r.value.failed
  }

  predicate GoesOffline(r: Option<Result>) {
    !Fails(r) && WasStored(r)
  }

  /** The ids at the positions of a kind, in order. */
  function Picked(ids: seq<string>, rs: Results, kind: Kind): seq<string>
    requires |ids| == |rs|
  {
    if ids == [] then []
    else
      var n := |ids| - 1;
      Picked(ids[..n], rs[..n], kind) + if kind(rs[n]) then [ids[n]] else []
  }

  /** SendToGroupMembers after the fan-out; a panicked member counts as failed. */
  method CountMembers(ids: seq<string>, rs: Results) returns (m: MembersResult)
    requires |ids| == |rs| && forall i :: 0 <= i < |rs| && rs[i].Some? ==> Honest(rs[i].value)
    ensures m.total == |ids| == m.success + m.offline + m.failed
    ensures m.failedIds == Picked(ids, rs, Fails) && m.failed == |m.failedIds|
    ensures m.offlineIds == Picked(ids, rs, GoesOffline) && m.offline == |m.offlineIds|
  {
    var success, offline, failed := 0, 0, 0;
    var offlineIds: seq<string>, failedIds: seq<string> := [], [];
    var i := 0;
    while i < |rs|
      invariant 0 <= i <= |rs| && i == success + offline + failed
      invariant failedIds == Picked(ids[..i], rs[..i], Fails) && failed == |failedIds|
      invariant offlineIds == Picked(ids[..i], rs[..i], GoesOffline) && offline == |offlineIds|
    {
      assert ids[..i + 1][..i] == ids[..i] && rs[..i + 1][..i] == rs[..i];
      if rs[i].None? {
        failed, failedIds := failed + 1, failedIds + [ids[i]];
      } else if rs[i].value.failed {
        failed, failedIds := failed + 1, failedIds + [ids[i]];
      } else if rs[i].value.success {
        if rs[i].value.storedOffline {
          offline, offlineIds := offline + 1, offlineIds + [ids[i]];
        } else {
          success := success + 1;
        }
      }
      i := i + 1;
    }
    assert ids[..|ids|] == ids && rs[..|rs|] == rs;
    m := MembersResult(|ids|, success, offline, failed, offlineIds, failedIds);
  }
}
