/**
 * The message record outbox: records wait in memory for a batched insert, and a status update for a
 * record that is still waiting is merged into it instead of being sent to the store.
 *
 * Steps are the locked sections of Submit, UpdateStatusIfPending and flush, and the calls between
 * them: the batch processor's queue and the insert. One flush runs at a time.
 */
module Outbox {
  import opened Options

  datatype Key = Key(message: string, receiver: string)
  datatype Status = Sending | Other(name: string)

  /** A status given to a record: at submission, or merged later; `late` after the flush took its copy. */
  datatype Event = Event(status: Status, late: bool)

  /** How a record ended: refused by the queue, inserted, or lost with a failed insert. */
  datatype Fate = Refused | Inserted | InsertFailed

  datatype Phase = Submitting | Dropping | Queued | Flushing | Gone(fate: Fate)

  /** Records are objects; here each one is its number. The last event holds the current status. */
  datatype Record = Record(key: Key, history: seq<Event>, phase: Phase)

  datatype Row = Row(record: nat, status: Status)

  datatype Flush =
    | Idle
    | Started(batch: seq<nat>)
    | Snapshot(batch: seq<nat>, rows: seq<Row>)
    | Attempted(batch: seq<nat>, ok: bool)

  datatype State = State(
    records: seq<Record>, pending: map<Key, nat>, queue: seq<nat>, flush: Flush, table: seq<Row>, called: seq<Key>)

  const Initial: State := State([], map[], [], Idle, [], [])

  datatype Action =
    | Submit(key: Key, status: Status)
    | Offer(r: nat, ok: bool)
    | Drop(r: nat)
    | Update(key: Key, status: Status)
    | StartFlush(n: nat)
    | TakeSnapshot
    | Insert(ok: bool)
    | CleanUp

  function StatusOf(r: Record): Status
    requires r.history != []
  {
    r.history[|r.history| - 1].status
  }

  function SetPhase(rs: seq<Record>, r: nat, phase: Phase): seq<Record>
    requires r < |rs|
  {
    rs[r := rs[r].(phase := phase)]
  }

  /** All of a batch changes phase. */
  function SetPhases(rs: seq<Record>, batch: seq<nat>, phase: Phase): seq<Record> {
    seq(|rs|, i requires 0 <= i < |rs| => if i in batch then rs[i].(phase := phase) else rs[i])
  }

  /** The rows copied from a batch under the lock. */
  function Copies(rs: seq<Record>, batch: seq<nat>): seq<Row>
    requires forall i :: 0 <= i < |batch| ==> batch[i] < |rs| && rs[batch[i]].history != []
  {
    seq(|batch|, i requires 0 <= i < |batch| => Row(batch[i], StatusOf(rs[batch[i]])))
  }

  /** Clean-up of the first n records of a batch: only an entry for this very record goes. */
  function Forget(pending: map<Key, nat>, rs: seq<Record>, batch: seq<nat>, n: nat): map<Key, nat>
    requires n <= |batch| && forall i :: 0 <= i < |batch| ==> batch[i] < |rs|
  {
    if n == 0 then pending
    else
      var p, key := Forget(pending, rs, batch, n - 1), rs[batch[n - 1]].key;
      if key in p && p[key] == batch[n - 1] then p - {key} else p
  }

  /** The keys of the records that are still sending, for the flush callback. */
  function StillSending(rs: seq<Record>, batch: seq<nat>, n: nat): seq<Key>
    requires n <= |batch| && forall i :: 0 <= i < |batch| ==> batch[i] < |rs| && rs[batch[i]].history != []
  {
    if n == 0 then []
    else
      StillSending(rs, batch, n - 1) + if StatusOf(rs[batch[n - 1]]) == Sending then [rs[batch[n - 1]].key] else []
  }

  function Ending(ok: bool): Fate {
    if ok then Inserted else InsertFailed
  }

  predicate Late(flush: Flush, r: nat) {
    (flush.Snapshot? || flush.Attempted?) && r in flush.batch
  }

  predicate Usable(s: State, batch: seq<nat>) {
    forall i :: 0 <= i < |batch| ==> batch[i] < |s.records| && s.records[batch[i]].history != []
  }

  /** One step; an action that is not enabled changes nothing. */
  function Apply(s: State, a: Action): State {
    match a
    case Submit(key, status) =>
      s.(records := s.records + [Record(key, [Event(status, false)], Submitting)],
         pending := s.pending[key := |s.records|])
    case Offer(r, ok) =>
      if r < |s.records| && s.records[r].phase == Submitting then
        if ok then s.(records := SetPhase(s.records, r, Queued), queue := s.queue + [r])
        else s.(records := SetPhase(s.records, r, Dropping))
      else s
    case Drop(r) =>
      if r < |s.records| && s.records[r].phase == Dropping then
        s.(records := SetPhase(s.records, r, Gone(Refused)), pending := Forget(s.pending, s.records, [r], 1))
      else s
    case Update(key, status) =>
      if key in s.pending && s.pending[key] < |s.records| then
        var r := s.pending[key];
        var history := s.records[r].history + [Event(status, Late(s.flush, r))];
        s.(records := s.records[r := s.records[r].(history := history)])
      else s
    case StartFlush(n) =>
      if s.flush.Idle? && 0 < n <= |s.queue| then
        s.(flush := Started(s.queue[..n]), queue := s.queue[n..],
           records := SetPhases(s.records, s.queue[..n], Flushing))
      else s
    case TakeSnapshot =>
      if s.flush.Started?
          && Usable(s, s.flush.batch) then s.(flush := Snapshot(s.flush.batch, Copies(s.records, s.flush.batch))) else s
    case Insert(ok) =>
      if s.flush.Snapshot? then
        s.(flush := Attempted(s.flush.batch, ok), table := if ok then s.table + s.flush.rows else s.table)
      else s
    case CleanUp =>
      if s.flush.Attempted? && Usable(s, s.flush.batch) then
        var batch := s.flush.batch;
        s.(flush := Idle, records := SetPhases(s.records, batch, Gone(Ending(s.flush.ok))),
           pending := Forget(s.pending, s.records, batch, |batch|),
           called := if s.flush.ok then s.called + StillSending(s.records, batch, |batch|) else s.called)
      else s
  }

  /** Whether an update was merged; the caller then sends no update of its own. */
  predicate Merged(s: State, key: Key) {
    key in s.pending
  }

  function Run(actions: seq<Action>): State
    decreases |actions|
  {
    if actions == [] then Initial else Apply(Run(actions[..|actions| - 1]), actions[|actions| - 1])
  }

  // ---------------------------------------------------------------------------------------------
  // Invariants
  // ---------------------------------------------------------------------------------------------

  function Batch(flush: Flush): seq<nat> {
    if flush.Idle? then [] else flush.batch
  }

  ghost predicate Distinct(xs: seq<nat>) {
    forall i, j :: 0 <= i < j < |xs| ==> xs[i] != xs[j]
  }

  /** Records are in the queue or in the running flush exactly when their phase says so, and once. */
  ghost predicate Phased(s: State) {
    && Distinct(s.queue) && Distinct(Batch(s.flush))
    && (forall r: nat :: r in s.queue <==> r < |s.records| && s.records[r].phase == Queued)
    && (forall r: nat :: r in Batch(s.flush) <==> r < |s.records| && s.records[r].phase == Flushing)
  }

  /** pending points to records of the key that are being submitted, queued or flushed. */
  ghost predicate PendingLive(s: State) {
    forall key :: key in s.pending ==> Waiting(s, key, s.pending[key])
  }

  predicate Waiting(s: State, key: Key, r: nat) {
    r < |s.records| && s.records[r].key == key && !s.records[r].phase.Gone?
  }

  /** The last status given before the flush took its copy. */
  function Early(h: seq<Event>): Option<Status> {
    if h == [] then None else if h[|h| - 1].late then Early(h[..|h| - 1]) else Some(h[|h| - 1].status)
  }

  /** Late events come last, and only records whose copy was taken have any. */
  ghost predicate History(s: State, r: nat)
    requires r < |s.records|
  {
    var h := s.records[r].history;
    h != [] && !h[0].late
    && (forall i, j :: 0 <= i < j < |h| && h[i].late ==> h[j].late)
    && (s.records[r].phase in {Submitting, Dropping, Queued} ==> !h[|h| - 1].late)
    && (s.flush.Started? && s.records[r].phase == Flushing ==> !h[|h| - 1].late)
  }

  ghost predicate RowRight(s: State, row: Row) {
    row.record < |s.records| && Early(s.records[row.record].history) == Some(row.status)
  }

  ghost predicate Rows(s: State) {
    && (forall i :: 0 <= i < |s.table| ==> RowRight(s, s.table[i]))
    && (s.flush.Snapshot? ==> forall i :: 0 <= i < |s.flush.rows| ==> RowRight(s, s.flush.rows[i]))
  }

  predicate Handled(s: State, r: nat) {
    r < |s.records| && (s.records[r].phase.Gone? || (s.flush.Attempted? && r in s.flush.batch))
  }

  /** A record has at most one row, and none before its insert. */
  ghost predicate Once(s: State) {
    && (forall i, j :: 0 <= i < j < |s.table| ==> s.table[i].record != s.table[j].record)
    && (forall i :: 0 <= i < |s.table| ==> Handled(s, s.table[i].record))
    && (s.flush.Snapshot? ==> |s.flush.rows| == |s.flush.batch|)
    && (s.flush.Snapshot? ==> forall i :: 0 <= i < |s.flush.rows| ==> s.flush.rows[i].record == s.flush.batch[i])
  }

  ghost predicate Histories(s: State) {
    forall r: nat :: r < |s.records| ==> History(s, r)
  }

  ghost predicate Inv(s: State) {
    Phased(s) && PendingLive(s) && Histories(s) && Rows(s) && Once(s)
  }

  // ---------------------------------------------------------------------------------------------
  // Each step keeps them
  // ---------------------------------------------------------------------------------------------

  lemma {:induction false} ForgetExact(pending: map<Key, nat>, rs: seq<Record>, batch: seq<nat>, n: nat, key: Key)
    requires n <= |batch| && forall i :: 0 <= i < |batch| ==> batch[i] < |rs|
    requires key in pending ==> pending[key] < |rs| && rs[pending[key]].key == key
    ensures var p := Forget(pending, rs, batch, n);
            && (key in p <==> key in pending && pending[key] !in batch[..n])
            && (key in p ==> p[key] == pending[key])
    decreases n
  {
    if n > 0 {
      ForgetExact(pending, rs, batch, n - 1, key);
      assert batch[..n] == batch[..n - 1] + [batch[n - 1]];
    }
  }

  lemma SubmitKeeps(s: State, key: Key, status: Status)
    requires Inv(s)
    ensures Inv(Apply(s, Submit(key, status)))
  {
    var t := Apply(s, Submit(key, status));
    forall r: nat | r < |t.records| ensures History(t, r) {
      if r < |s.records| {
        assert History(s, r);
      }
    }
    RowsKept(s, t);
  }

  /** Rows stay right while records keep what they were given before the copy. */
  lemma RowsKept(s: State, t: State)
    requires Rows(s) && t.table == s.table && (t.flush.Snapshot? ==> t.flush == s.flush) && |s.records| <= |t.records|
    requires forall r: nat ::
        r < |s.records| ==> Early(t.records[r].history) == Early(s.records[r].history) || !Rowed(s, r)
    ensures Rows(t)
  {
  }

  ghost predicate Rowed(s: State, r: nat) {
    || (exists i :: 0 <= i < |s.table| && s.table[i].record == r)
    || (s.flush.Snapshot? && exists i :: 0 <= i < |s.flush.rows| && s.flush.rows[i].record == r)
  }

  lemma OfferKeeps(s: State, r: nat, ok: bool)
    requires Inv(s)
    ensures Inv(Apply(s, Offer(r, ok)))
  {
    if r < |s.records| && s.records[r].phase == Submitting {
      var t := Apply(s, Offer(r, ok));
      forall q: nat | q < |t.records| ensures History(t, q) {
        assert History(s, q);
      }
      RowsKept(s, t);
    }
  }

  lemma DropKeeps(s: State, r: nat)
    requires Inv(s)
    ensures Inv(Apply(s, Drop(r)))
  {
    if r < |s.records| && s.records[r].phase == Dropping {
      var t := Apply(s, Drop(r));
      forall q: nat | q < |t.records| ensures History(t, q) {
        assert History(s, q);
      }
      forall key | key in t.pending
        ensures Waiting(t, key, t.pending[key])
      {
        ForgetExact(s.pending, s.records, [r], 1, key);
      }
      RowsKept(s, t);
    }
  }

  lemma UpdateHistories(s: State, key: Key, status: Status)
    requires Inv(s) && key in s.pending
    ensures Histories(Apply(s, Update(key, status)))
  {
    var r := s.pending[key];
    var t := Apply(s, Update(key, status));
    assert History(s, r);
    forall q: nat | q < |t.records| ensures History(t, q) {
      assert History(s, q);
    }
  }

  /** A status given before the copy replaces the one to be copied, a late one does not. */
  lemma EarlyAppend(h: seq<Event>, e: Event)
    ensures Early(h + [e]) == if e.late then Early(h) else Some(e.status)
  {
  }

  lemma UpdateKeeps(s: State, key: Key, status: Status)
    requires Inv(s)
    ensures Inv(Apply(s, Update(key, status)))
  {
    if key in s.pending {
      var r := s.pending[key];
      var t := Apply(s, Update(key, status));
      UpdateHistories(s, key, status);
      EarlyAppend(s.records[r].history, Event(status, Late(s.flush, r)));
      if !Late(s.flush, r) {
        // Not copied yet: no row depends on it.
        assert !Rowed(s, r);
      }
      RowsKept(s, t);
    }
  }

  lemma SplitQueue(q: seq<nat>, n: nat, r: nat)
    requires Distinct(q) && n <= |q|
    ensures r in q <==> r in q[..n] || r in q[n..]
    ensures !(r in q[..n] && r in q[n..])
  {
  }

  lemma StartFlushPhased(s: State, n: nat)
    requires Inv(s) && s.flush.Idle? && 0 < n <= |s.queue|
    ensures Phased(Apply(s, StartFlush(n)))
  {
    var t := Apply(s, StartFlush(n));
    forall r: nat
      ensures r in t.queue <==> r < |t.records| && t.records[r].phase == Queued
      ensures r in Batch(t.flush) <==> r < |t.records| && t.records[r].phase == Flushing
    {
      SplitQueue(s.queue, n, r);
      assert r in s.queue <==> r < |s.records| && s.records[r].phase == Queued;
      assert r !in Batch(s.flush);
    }
  }

  /** Starting a flush only moves queued records on. */
  lemma StartFlushRecord(s: State, n: nat, r: nat)
    requires Inv(s) && s.flush.Idle? && 0 < n <= |s.queue| && r < |s.records|
    ensures var t := Apply(s, StartFlush(n));
            && (t.records[r] == s.records[r]
                || (s.records[r].phase == Queued && t.records[r] == s.records[r].(phase := Flushing)))
            && History(t, r)
  {
    SplitQueue(s.queue, n, r);
    assert History(s, r);
    assert r in s.queue <==> s.records[r].phase == Queued;
  }

  lemma StartFlushKeeps(s: State, n: nat)
    requires Inv(s)
    ensures Inv(Apply(s, StartFlush(n)))
  {
    if s.flush.Idle? && 0 < n <= |s.queue| {
      var t := Apply(s, StartFlush(n));
      StartFlushPhased(s, n);
      forall q: nat | q < |t.records|
        ensures t.records[q]
                == s.records[q] || (s.records[q].phase == Queued && t.records[q] == s.records[q].(phase := Flushing))
        ensures History(t, q)
      {
        StartFlushRecord(s, n, q);
      }
      RowsKept(s, t);
    }
  }

  lemma TakeSnapshotKeeps(s: State)
    requires Inv(s)
    ensures Inv(Apply(s, TakeSnapshot))
  {
    if s.flush.Started? && Usable(s, s.flush.batch) {
      var t := Apply(s, TakeSnapshot);
      forall q: nat | q < |t.records| ensures History(t, q) {
        assert History(s, q);
      }
      forall i | 0 <= i < |t.flush.rows| ensures RowRight(t, t.flush.rows[i]) {
        var r := s.flush.batch[i];
        assert r in Batch(s.flush);
        assert History(s, r);
      }
    }
  }

  lemma InsertKeeps(s: State, ok: bool)
    requires Inv(s)
    ensures Inv(Apply(s, Insert(ok)))
  {
    if s.flush.Snapshot? {
      var t := Apply(s, Insert(ok));
      forall q: nat | q < |t.records| ensures History(t, q) {
        assert History(s, q);
      }
      forall i | 0 <= i < |t.table| ensures RowRight(t, t.table[i]) {
        if i < |s.table| {
          assert RowRight(s, s.table[i]);
        } else {
          assert RowRight(s, s.flush.rows[i - |s.table|]);
        }
      }
    }
  }

  lemma CleanUpKeeps(s: State)
    requires Inv(s)
    ensures Inv(Apply(s, CleanUp))
  {
    if s.flush.Attempted? && Usable(s, s.flush.batch) {
      var t := Apply(s, CleanUp);
      var batch := s.flush.batch;
      forall q: nat | q < |t.records| ensures History(t, q) {
        assert History(s, q);
      }
      forall key | key in t.pending
        ensures Waiting(t, key, t.pending[key])
      {
        ForgetExact(s.pending, s.records, batch, |batch|, key);
        assert batch[..|batch|] == batch;
      }
      RowsKept(s, t);
    }
  }

  lemma StepKeepsInv(s: State, a: Action)
    requires Inv(s)
    ensures Inv(Apply(s, a))
  {
    match a
    case Submit(key, status) => SubmitKeeps(s, key, status);
    case Offer(r, ok) => OfferKeeps(s, r, ok);
    case Drop(r) => DropKeeps(s, r);
    case Update(key, status) => UpdateKeeps(s, key, status);
    case StartFlush(n) => StartFlushKeeps(s, n);
    case TakeSnapshot => TakeSnapshotKeeps(s);
    case Insert(ok) => InsertKeeps(s, ok);
    case CleanUp => CleanUpKeeps(s);
  }

  lemma {:induction false} RunKeepsInv(actions: seq<Action>)
    ensures Inv(Run(actions))
    decreases |actions|
  {
    if actions != [] {
      RunKeepsInv(actions[..|actions| - 1]);
      StepKeepsInv(Run(actions[..|actions| - 1]), actions[|actions| - 1]);
    }
  }

  // ---------------------------------------------------------------------------------------------
  // Main results
  // ---------------------------------------------------------------------------------------------

  ghost predicate Reachable(s: State) {
    exists actions: seq<Action> :: s == Run(actions)
  }

  lemma ReachableInv(s: State)
    requires Reachable(s)
    ensures Inv(s)
  {
    var actions: seq<Action> :| s == Run(actions);
    RunKeepsInv(actions);
  }

  /** pending only holds records that are mid-submit, queued or in the running flush. */
  lemma PendingOnlyWaiting(s: State, key: Key)
    requires Reachable(s) && key in s.pending
    ensures var r := s.pending[key];
            && r < |s.records| && s.records[r].key == key
            && (s.records[r].phase in {Submitting, Dropping} || r in s.queue || r in Batch(s.flush))
  {
    ReachableInv(s);
  }

  /** At rest nothing is left behind, however many inserts failed. */
  lemma IdleMeansEmpty(s: State)
    requires Reachable(s) && s.queue == [] && s.flush == Idle
    requires forall r :: 0 <= r < |s.records| ==> s.records[r].phase != Submitting && s.records[r].phase != Dropping
    ensures s.pending == map[]
  {
    ReachableInv(s);
    forall key ensures key !in s.pending {
      if key in s.pending {
        PendingOnlyWaiting(s, key);
      }
    }
  }

  /** Each row carries the last status merged before the flush took its copy; a record has one row at most. */
  lemma RowsExact(s: State, i: nat)
    requires Reachable(s) && i < |s.table|
    ensures s.table[i].record < |s.records| && Early(s.records[s.table[i].record].history) == Some(s.table[i].status)
    ensures forall j :: 0 <= j < |s.table| && s.table[j].record == s.table[i].record ==> j == i
  {
    ReachableInv(s);
    assert RowRight(s, s.table[i]);
  }

  lemma GoneStep(s: State, a: Action, r: nat)
    requires Inv(s) && r < |s.records| && s.records[r].phase.Gone?
    ensures r < |Apply(s, a).records| && Apply(s, a).records[r] == s.records[r]
  {
  }

  /** Once a record is cleaned up no update reaches it any more. */
  lemma {:induction false} GoneForever(actions: seq<Action>, n: nat, r: nat)
    requires n <= |actions| && r < |Run(actions[..n]).records| && Run(actions[..n]).records[r].phase.Gone?
    ensures r < |Run(actions).records| && Run(actions).records[r] == Run(actions[..n]).records[r]
    decreases |actions|
  {
    if n == |actions| {
      assert actions[..n] == actions;
    } else {
      var init := actions[..|actions| - 1];
      assert init[..n] == actions[..n];
      GoneForever(init, n, r);
      RunKeepsInv(init);
      GoneStep(Run(init), actions[|actions| - 1], r);
    }
  }

  // ---------------------------------------------------------------------------------------------
  // What becomes of a merged update
  // ---------------------------------------------------------------------------------------------

  ghost predicate HasRow(s: State, r: nat) {
    exists i :: 0 <= i < |s.table| && s.table[i].record == r
  }

  /** The record was inserted; its flush may not have cleaned up yet. */
  predicate IsInserted(s: State, r: nat)
    requires r < |s.records|
  {
    s.records[r].phase == Gone(Inserted) || (s.flush.Attempted? && s.flush.ok && r in s.flush.batch)
  }

  ghost predicate Fated(s: State) {
    forall r: nat :: r < |s.records| ==> (HasRow(s, r) <==> IsInserted(s, r))
  }

  lemma InsertFates(s: State, ok: bool, r: nat)
    requires Inv(s) && Fated(s) && s.flush.Snapshot? && r < |s.records|
    ensures var t := Apply(s, Insert(ok)); HasRow(t, r) <==> IsInserted(t, r)
  {
    var t := Apply(s, Insert(ok));
    assert HasRow(s, r) <==> IsInserted(s, r);
    if r in s.flush.batch {
      var i :| 0 <= i < |s.flush.batch| && s.flush.batch[i] == r;
      assert s.flush.rows[i].record == r;
      assert ok ==> t.table[|s.table| + i].record == r;
      assert r in Batch(s.flush);
    }
    if HasRow(s, r) {
      var i :| 0 <= i < |s.table| && s.table[i].record == r;
      assert t.table[i].record == r;
    }
    if HasRow(t, r) && !HasRow(s, r) {
      var i :| 0 <= i < |t.table| && t.table[i].record == r;
      assert i >= |s.table| && s.flush.rows[i - |s.table|].record == r;
    }
  }

  lemma CleanUpFates(s: State, r: nat)
    requires Inv(s) && Fated(s) && s.flush.Attempted? && Usable(s, s.flush.batch) && r < |s.records|
    ensures var t := Apply(s, CleanUp); HasRow(t, r) <==> IsInserted(t, r)
  {
    assert HasRow(s, r) <==> IsInserted(s, r);
    assert r in Batch(s.flush) <==> s.records[r].phase == Flushing;
  }

  /** A step that neither inserts nor cleans up. */
  lemma OtherFates(s: State, a: Action, r: nat)
    requires Inv(s) && Fated(s) && !a.Insert? && !a.CleanUp? && r < |Apply(s, a).records|
    ensures var t := Apply(s, a); HasRow(t, r) <==> IsInserted(t, r)
  {
    var t := Apply(s, a);
    if r < |s.records| {
      assert HasRow(s, r) <==> IsInserted(s, r);
      assert r in Batch(s.flush) <==> s.records[r].phase == Flushing;
      assert r in s.queue <==> s.records[r].phase == Queued;
      if a.StartFlush? && s.flush.Idle? && 0 < a.n <= |s.queue| {
        StartFlushRecord(s, a.n, r);
      }
    } else {
      assert !HasRow(t, r);
    }
  }

  lemma StepFates(s: State, a: Action)
    requires Inv(s) && Fated(s)
    ensures Fated(Apply(s, a))
  {
    forall r: nat | r < |Apply(s, a).records| ensures HasRow(Apply(s, a), r) <==> IsInserted(Apply(s, a), r) {
      if a.Insert? && s.flush.Snapshot? {
        InsertFates(s, a.ok, r);
      } else if a.CleanUp? && s.flush.Attempted? && Usable(s, s.flush.batch) {
        CleanUpFates(s, r);
      } else if !a.Insert? && !a.CleanUp? {
        OtherFates(s, a, r);
      }
    }
  }

  /** A record has a row exactly when it was inserted. */
  lemma {:induction false} RunFates(actions: seq<Action>)
    ensures Fated(Run(actions))
    decreases |actions|
  {
    if actions != [] {
      RunFates(actions[..|actions| - 1]);
      RunKeepsInv(actions[..|actions| - 1]);
      StepFates(Run(actions[..|actions| - 1]), actions[|actions| - 1]);
    }
  }

  lemma HistoryStep(s: State, a: Action, r: nat)
    requires r < |s.records|
    ensures r < |Apply(s, a).records| && s.records[r].history <= Apply(s, a).records[r].history
  {
  }

  /** Events are only ever added to a record. */
  lemma {:induction false} HistoryGrows(actions: seq<Action>, n: nat, r: nat)
    requires n <= |actions| && r < |Run(actions[..n]).records|
    ensures r < |Run(actions).records| && Run(actions[..n]).records[r].history <= Run(actions).records[r].history
    decreases |actions|
  {
    if n == |actions| {
      assert actions[..n] == actions;
    } else {
      var init := actions[..|actions| - 1];
      assert init[..n] == actions[..n];
      HistoryGrows(init, n, r);
      HistoryStep(Run(init), actions[|actions| - 1], r);
    }
  }

  /** The position of the event that the flush copies; -1 if there is none. */
  function EarlyIndex(h: seq<Event>): (i: int)
    ensures -1 <= i < |h| && (i >= 0 ==> Early(h) == Some(h[i].status))
  {
    if h == [] then -1 else if h[|h| - 1].late then EarlyIndex(h[..|h| - 1]) else |h| - 1
  }

  lemma {:induction false} EarlyIndexAtLeast(h: seq<Event>, e: nat)
    requires e < |h| && forall i, j :: 0 <= i < j < |h| && h[i].late ==> h[j].late
    ensures EarlyIndex(h) >= e <==> !h[e].late
    decreases |h|
  {
    if h[|h| - 1].late && e < |h| - 1 {
      EarlyIndexAtLeast(h[..|h| - 1], e);
    }
  }

  /** The record has a row, and its status is that of event `e` or of a later one. */
  ghost predicate ReachesRow(s: State, r: nat, e: nat)
    requires r < |s.records|
  {
    exists i :: 0 <= i < |s.table| && s.table[i].record == r && ShowsFrom(s.records[r].history, s.table[i].status, e)
  }

  predicate ShowsFrom(h: seq<Event>, status: Status, e: nat) {
    EarlyIndex(h) >= e && h[EarlyIndex(h)].status == status
  }

  lemma MergedEvent(actions: seq<Action>, n: nat)
    requires n < |actions| && actions[n].Update? && Merged(Run(actions[..n]), actions[n].key)
    ensures var s, t := Run(actions[..n]), Run(actions);
            var r := s.pending[actions[n].key];
            && r < |s.records| && r < |t.records| && |s.records[r].history| < |t.records[r].history|
            && t.records[r].history[|s.records[r].history|] == Event(actions[n].status, Late(s.flush, r))
  {
    var s := Run(actions[..n]);
    RunKeepsInv(actions[..n]);
    var r := s.pending[actions[n].key];
    assert actions[..n + 1] == actions[..n] + [actions[n]];
    RunNext(actions[..n], actions[n]);
    UpdateAppends(s, actions[n].key, actions[n].status);
    HistoryGrows(actions, n + 1, r);
  }

  lemma UpdateAppends(s: State, key: Key, status: Status)
    requires PendingLive(s) && key in s.pending
    ensures var t, r := Apply(s, Update(key, status)), s.pending[key];
            r < |t.records| && t.records[r].history == s.records[r].history + [Event(status, Late(s.flush, r))]
  {
  }

  /**
   * Over any run, for an update merged at step n into a record that is gone in the end: the record's
   * row shows this update or a later one, if and only if the record was not refused, its insert did
   * not fail, and the update did not fall between the copy and the clean-up of the record's flush.
   */
  lemma UpdateReachesRowIff(actions: seq<Action>, n: nat)
    requires n < |actions| && actions[n].Update? && Merged(Run(actions[..n]), actions[n].key)
    ensures var s, t := Run(actions[..n]), Run(actions);
            var r := s.pending[actions[n].key];
            && r < |s.records| && r < |t.records|
            && (t.records[r].phase.Gone? ==>
                  (ReachesRow(t, r, |s.records[r].history|)
                   <==> t.records[r].phase.fate == Inserted && !Late(s.flush, r)))
  {
    var s, t := Run(actions[..n]), Run(actions);
    var r := s.pending[actions[n].key];
    MergedEvent(actions, n);
    RunKeepsInv(actions);
    RunFates(actions);
    if t.records[r].phase.Gone? {
      var e := |s.records[r].history|;
      assert History(t, r);
      EarlyIndexAtLeast(t.records[r].history, e);
      assert HasRow(t, r) <==> IsInserted(t, r);
      assert r !in Batch(t.flush);
      if HasRow(t, r) {
        var i :| 0 <= i < |t.table| && t.table[i].record == r;
        assert RowRight(t, t.table[i]);
      }
    }
  }

  lemma RunNext(actions: seq<Action>, a: Action)
    ensures Run(actions + [a]) == Apply(Run(actions), a)
  {
  }

  /** A record copied by its flush but not inserted yet. */
  function Copied(key: Key): State {
    State([Record(key, [Event(Sending, false)], Flushing)], map[key := 0], [], Snapshot([0], [Row(0, Sending)]), [], [])
  }

  lemma UpToQueue(key: Key)
    ensures Run([Submit(key, Sending)] + [Offer(0, true)])
            == State([Record(key, [Event(Sending, false)], Queued)], map[key := 0], [0], Idle, [], [])
  {
    var a1 := [Submit(key, Sending)];
    assert [] + a1 == a1;
    RunNext([], Submit(key, Sending));
    RunNext(a1, Offer(0, true));
  }

  lemma UpToCopy(key: Key)
    ensures Run([Submit(key, Sending)] + [Offer(0, true)] + [StartFlush(1)] + [TakeSnapshot]) == Copied(key)
  {
    var a2 := [Submit(key, Sending)] + [Offer(0, true)];
    UpToQueue(key);
    RunNext(a2, StartFlush(1));
    RunNext(a2 + [StartFlush(1)], TakeSnapshot);
    assert Run(a2).queue[..1] == [0] && Run(a2).queue[1..] == [];
    assert Run(a2 + [StartFlush(1)]).records == Copied(key).records;
    assert Copies(Copied(key).records, [0]) == [Row(0, Sending)];
  }

  lemma FromCopy(key: Key)
    ensures var t := Apply(Apply(Apply(Copied(key), Update(key, Other("success"))), Insert(true)), CleanUp);
            t.table == [Row(0, Sending)] && t.called == [] && t.pending == map[]
  {
    var s1 := Apply(Copied(key), Update(key, Other("success")));
    assert s1.records == [Record(key, [Event(Sending, false)] + [Event(Other("success"), true)], Flushing)];
    var s2 := Apply(s1, Insert(true));
    assert StatusOf(s2.records[0]) == Other("success");
    assert StillSending(s2.records, [0], 0) == [] && StillSending(s2.records, [0], 1) == [];
    assert Forget(s2.pending, s2.records, [0], 0) == map[key := 0];
    assert Forget(s2.pending, s2.records, [0], 1) == map[];
  }

  /**
   * A merged update that falls into that window is lost: the row says sending, the caller was told the
   * update is taken care of, and the flush callback does not name the key either.
   */
  lemma LateUpdateLost(key: Key)
    ensures exists before: seq<Action> ::
              && Merged(Run(before), key)
              && var t := Run(before + [Update(key, Other("success"))] + [Insert(true)] + [CleanUp]);
                 t.table == [Row(0, Sending)] && t.called == [] && t.pending == map[]
  {
    var before := [Submit(key, Sending)] + [Offer(0, true)] + [StartFlush(1)] + [TakeSnapshot];
    UpToCopy(key);
    FromCopy(key);
    RunNext(before, Update(key, Other("success")));
    RunNext(before + [Update(key, Other("success"))], Insert(true));
    RunNext(before + [Update(key, Other("success"))] + [Insert(true)], CleanUp);
    assert Merged(Run(before), key);
  }

  /** A merged update is lost when the queue then refuses the record. */
  lemma RefusedUpdateLost(key: Key)
    ensures exists before: seq<Action> ::
              && Merged(Run(before), key)
              && var t := Run(before + [Update(key, Other("success"))] + [Offer(0, false)] + [Drop(0)]);
                 t.table == [] && t.called == [] && t.pending == map[]
  {
    var before := [Submit(key, Sending)];
    var update := Update(key, Other("success"));
    assert [] + before == before;
    RunNext([], Submit(key, Sending));
    RunNext(before, update);
    RunNext(before + [update], Offer(0, false));
    RunNext(before + [update] + [Offer(0, false)], Drop(0));
    var s := Run(before + [update] + [Offer(0, false)]);
    assert s.records[0].key == key && s.pending == map[key := 0];
    assert Forget(s.pending, s.records, [0], 0) == s.pending;
    assert Forget(s.pending, s.records, [0], 1) == map[];
    assert Merged(Run(before), key);
  }

  /** And when the insert fails. */
  lemma FailedInsertLosesUpdate(key: Key)
    ensures exists before: seq<Action> ::
              && Merged(Run(before), key)
              && var t := Run(before + [Update(key, Other("success"))] + [StartFlush(1)] + [TakeSnapshot]
                              + [Insert(false)] + [CleanUp]);
                 t.table == [] && t.called == [] && t.pending == map[]
  {
    var before := [Submit(key, Sending)] + [Offer(0, true)];
    var a1 := before + [Update(key, Other("success"))];
    UpToQueue(key);
    RunNext(before, Update(key, Other("success")));
    RunNext(a1, StartFlush(1));
    RunNext(a1 + [StartFlush(1)], TakeSnapshot);
    RunNext(a1 + [StartFlush(1)] + [TakeSnapshot], Insert(false));
    RunNext(a1 + [StartFlush(1)] + [TakeSnapshot] + [Insert(false)], CleanUp);
    FailedFlush(key, Run(a1));
    assert Merged(Run(before), key);
  }

  lemma FailedFlush(key: Key, s: State)
    requires |s.records| == 1 && s.records[0].key == key && s.records[0].history != []
    requires s.queue == [0] && s.pending == map[key := 0] && s.flush == Idle && s.table == [] && s.called == []
    ensures var t := Apply(Apply(Apply(Apply(s, StartFlush(1)), TakeSnapshot), Insert(false)), CleanUp);
            t.table == [] && t.called == [] && t.pending == map[]
  {
    assert s.queue[..1] == [0];
    var s3 := Apply(Apply(Apply(s, StartFlush(1)), TakeSnapshot), Insert(false));
    assert s3.flush == Attempted([0], false) && s3.records[0].key == key;
    assert Forget(s3.pending, s3.records, [0], 0) == s3.pending;
    assert Forget(s3.pending, s3.records, [0], 1) == map[];
  }

  /** The callback names exactly the keys of the records whose status is still sending at the clean-up. */
  lemma {:induction false} CallbackExact(rs: seq<Record>, batch: seq<nat>, n: nat, key: Key)
    requires n <= |batch| && forall i :: 0 <= i < |batch| ==> batch[i] < |rs| && rs[batch[i]].history != []
    ensures key in StillSending(rs, batch, n)
            <==> exists i :: 0 <= i < n && rs[batch[i]].key == key && StatusOf(rs[batch[i]]) == Sending
    decreases n
  {
    if n > 0 {
      CallbackExact(rs, batch, n - 1, key);
    }
  }

  // ---------------------------------------------------------------------------------------------
  // The locked sections in code
  // ---------------------------------------------------------------------------------------------

  class MessageRecordOutbox {
    var records: seq<Record>
    var pending: map<Key, nat>
    ghost var queue: seq<nat>
    var flush: Flush
    ghost var table: seq<Row>
    ghost var called: seq<Key>

    ghost function Contents(): State
      reads this
    {
      State(records, pending, queue, flush, table, called)
    }

    /** Submit, up to the hand-over to the batch processor. */
    method Submit(key: Key, status: Status) returns (r: nat)
      modifies this
      ensures Contents() == Apply(old(Contents()), Action.Submit(key, status)) && r == |old(records)|
      ensures |records| == r + 1 && records[r].key == key && StatusOf(records[r]) == status
      ensures pending == old(pending)[key := r]
    {
      r := |records|;
      records := records + [Record(key, [Event(status, false)], Submitting)];
      pending := pending[key := r];
    }

    /** Submit, after the batch processor refused the record. */
    method Abandon(r: nat)
      requires r < |records| && records[r].phase == Dropping
      modifies this
      ensures Contents() == Apply(old(Contents()), Drop(r))
      ensures forall key ::
                key in pending <==> key in old(pending) && !(key == records[r].key && old(pending)[key] == r)
      ensures forall key :: key in pending ==> pending[key] == old(pending)[key]
    {
      var key := records[r].key;
      assert [r][0] == r && Forget(pending, records, [r], 0) == pending;
      if key in pending && pending[key] == r {
        pending := pending - {key};
      }
      records := SetPhase(records, r, Gone(Refused));
    }

    method UpdateStatusIfPending(key: Key, status: Status) returns (merged: bool)
      requires Inv(Contents())
      modifies this
      ensures Contents() == Apply(old(Contents()), Update(key, status))
      ensures merged <==> key in old(pending)
      ensures merged ==> |records| == |old(records)| && StatusOf(records[old(pending)[key]]) == status
      ensures !merged ==> records == old(records)
      ensures pending == old(pending)
    {
      merged := key in pending;
      if merged {
        var r := pending[key];
        records := records[r := records[r].(history := records[r].history + [Event(status, Late(flush, r))])];
      }
    }

    /** flush, first locked section: copy the batch. */
    method Snapshot(batch: seq<nat>) returns (rows: seq<Row>)
      requires flush == Started(batch) && Usable(Contents(), batch)
      ensures rows == Copies(records, batch)
      ensures |rows| == |batch| && forall i :: 0 <= i < |rows| ==>
                rows[i].record == batch[i] && rows[i].status == StatusOf(records[batch[i]])
    {
      rows := [];
      var i := 0;
      while i < |batch|
        invariant 0 <= i <= |batch|
        invariant rows == Copies(records, batch)[..i]
      {
        rows := rows + [Row(batch[i], StatusOf(records[batch[i]]))];
        i := i + 1;
      }
    }

    /** flush, last locked section: clean up and collect the keys for the callback. */
    method CleanUp(batch: seq<nat>, ok: bool) returns (sendingKeys: seq<Key>)
      requires flush == Attempted(batch, ok) && Usable(Contents(), batch)
      modifies this
      ensures Contents() == Apply(old(Contents()), Action.CleanUp)
      ensures sendingKeys == if ok then StillSending(old(records), batch, |batch|) else []
      ensures called == old(called) + sendingKeys
    {
      sendingKeys := [];
      var i := 0;
      while i < |batch|
        invariant 0 <= i <= |batch| && Contents() == old(Contents()).(pending := pending)
        invariant pending == Forget(old(pending), records, batch, i)
        invariant sendingKeys == if ok then StillSending(records, batch, i) else []
      {
        var key := records[batch[i]].key;
        if key in pending && pending[key] == batch[i] {
          pending := pending - {key};
        }
        if ok && StatusOf(records[batch[i]]) == Sending {
          sendingKeys := sendingKeys + [key];
        }
        i := i + 1;
      }
      records := SetPhases(records, batch, Gone(Ending(ok)));
      flush, called := Idle, called + sendingKeys;
    }
  }
}
