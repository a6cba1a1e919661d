/**
 * The replay gate at the granularity of its locks: the lock-free look at the counter, the look under the
 * read lock, the decision under the write lock and the run itself are separate steps, and so is each
 * delivery that the end of a replay runs after opening the gate.
 */
module ReplayGateSteps {
  import opened ReplayGate

  /** Where a delivery is. */
  datatype Place =
    | Entering               // given to hold
    | Looking                // some user is in replay: look under the read lock
    | Locking                // this user is in replay: decide under the write lock
    | Due                    // to be run at once
    | Held(user: User, pos: nat)
    | Releasing(release: nat, pos: nat)
    | Ran(at: nat)

  /** The queue an ended replay took, and how much of it has run. */
  datatype Release = Release(queue: seq<nat>, next: nat)

  datatype State = State(
    pending: map<User, seq<nat>>, live: int, releases: seq<Release>, ran: seq<nat>, users: seq<User>, place: seq<Place>)

  const Start: State := State(map[], 0, [], [], [], [])

  datatype Action =
    | Begin(u: User)
    | End(u: User)
    | Give(u: User)
    | FastLook(d: nat)
    | Look(d: nat)
    | Decide(d: nat)
    | RunNow(d: nat)
    | RunNext(r: nat)

  predicate Stands(s: State, d: nat, p: Place) {
    d < |s.place| && d < |s.users| && s.place[d] == p
  }

  function Move(s: State, d: nat, p: Place): State
    requires d < |s.place|
  {
    s.(place := s.place[d := p])
  }

  function Close(s: State, u: User): State
    requires u in s.pending
  {
    var r := |s.releases|;
    s.(pending := s.pending - {u}, live := s.live - 1, releases := s.releases + [Release(s.pending[u], 0)],
       place := seq(|s.place|, d requires 0 <= d < |s.place| =>
         if s.place[d].Held? && s.place[d].user == u then Releasing(r, s.place[d].pos) else s.place[d]))
  }

  function HoldBack(s: State, d: nat): State
    requires d < |s.place| && d < |s.users| && s.users[d] in s.pending
  {
    var u := s.users[d];
    Move(s, d, Held(u, |s.pending[u]|)).(pending := s.pending[u := s.pending[u] + [d]])
  }

  function Execute(s: State, d: nat): State
    requires d < |s.place|
  {
    Move(s, d, Ran(|s.ran|)).(ran := s.ran + [d])
  }

  predicate Ready(s: State, r: nat) {
    r < |s.releases| && s.releases[r].next < |s.releases[r].queue|
        && s.releases[r].queue[s.releases[r].next] < |s.place|
  }

  function Advance(s: State, r: nat): State
    requires Ready(s, r)
  {
    var release := s.releases[r];
    Execute(s, release.queue[release.next]).(releases := s.releases[r := release.(next := release.next + 1)])
  }

  /** One step; an action that is not enabled changes nothing. */
  function Apply(s: State, a: Action): State {
    match a
    case Begin(u) => if u in s.pending then s else s.(pending := s.pending[u := []], live := s.live + 1)
    case End(u) => if u in s.pending then Close(s, u) else s
    case Give(u) => s.(users := s.users + [u], place := s.place + [Entering])
    case FastLook(d) => if Stands(s, d, Entering) then Move(s, d, if s.live == 0 then Due else Looking) else s
    case Look(d) => if Stands(s, d, Looking) then Move(s, d, if s.users[d] in s.pending then Locking else Due) else s
    case Decide(d) =>
      if Stands(s, d, Locking) then
        if s.users[d] in s.pending && |s.pending[s.users[d]]| < MAX_HOLDOUT then HoldBack(s, d) else Move(s, d, Due)
      else s
    case RunNow(d) => if Stands(s, d, Due) then Execute(s, d) else s
    case RunNext(r) => if Ready(s, r) then Advance(s, r) else s
  }

  function Run(actions: seq<Action>): State
    decreases |actions|
  {
    if actions == [] then Start else Apply(Run(actions[..|actions| - 1]), actions[|actions| - 1])
  }

  // ---------------------------------------------------------------------------------------------
  // Invariants
  // ---------------------------------------------------------------------------------------------

  predicate InQueue(s: State, d: nat, u: User, pos: nat) {
    u in s.pending && pos < |s.pending[u]| && s.pending[u][pos] == d
  }

  predicate InRelease(s: State, d: nat, r: nat, pos: nat) {
    r < |s.releases| && s.releases[r].next <= pos < |s.releases[r].queue| && s.releases[r].queue[pos] == d
  }

  predicate InRan(s: State, d: nat, at: nat) {
    at < |s.ran| && s.ran[at] == d
  }

  /** The delivery is where its place says. */
  predicate Good(s: State, d: nat)
    requires d < |s.place|
  {
    match s.place[d]
    case Held(u, pos) => InQueue(s, d, u, pos)
    case Releasing(r, pos) => InRelease(s, d, r, pos)
    case Ran(at) => InRan(s, d, at)
    case Entering => true
    case Looking => true
    case Locking => true
    case Due => true
  }

  ghost predicate AllGood(s: State) {
    |s.users| == |s.place| && forall d: nat :: d < |s.place| ==> Good(s, d)
  }

  /** Whatever is queued, to be released or has run is placed there: nothing is in two positions. */
  ghost predicate OnePlace(s: State) {
    && (forall d: nat, u, pos: nat :: InQueue(s, d, u, pos) ==> d < |s.place| && s.place[d] == Held(u, pos))
    && (forall d: nat, r: nat, pos: nat :: InRelease(s, d, r, pos) ==> d < |s.place| && s.place[d] == Releasing(r, pos))
    && (forall d: nat, at: nat :: InRan(s, d, at) ==> d < |s.place| && s.place[d] == Ran(at))
  }

  /** The position at which a delivery ran; the number of runs so far if it has not. */
  function RanAt(s: State, d: nat): nat {
    if d < |s.place| && s.place[d].Ran? then s.place[d].at else |s.ran|
  }

  /** What an ended replay held has run up to `next`, in the order it was held. */
  ghost predicate ReleasedInOrder(s: State, r: nat)
    requires r < |s.releases|
  {
    var q, n := s.releases[r].queue, s.releases[r].next;
    n <= |q|
    && (forall i :: 0 <= i < n ==> q[i] < |s.place| && s.place[q[i]].Ran? && s.place[q[i]].at < |s.ran|)
    && forall i, j :: 0 <= i < j < n ==> RanAt(s, q[i]) < RanAt(s, q[j])
  }

  ghost predicate AllReleasedInOrder(s: State) {
    forall r: nat :: r < |s.releases| ==> ReleasedInOrder(s, r)
  }

  ghost predicate Bounded(s: State) {
    s.live == |s.pending| && forall u :: u in s.pending ==> |s.pending[u]| <= MAX_HOLDOUT
  }

  ghost predicate Inv(s: State) {
    AllGood(s) && OnePlace(s) && AllReleasedInOrder(s) && Bounded(s)
  }

  // ---------------------------------------------------------------------------------------------
  // Each step keeps them
  // ---------------------------------------------------------------------------------------------

  predicate InHold(p: Place) {
    p.Entering? || p.Looking? || p.Locking? || p.Due?
  }

  /** No place changes but that of `d`, if there is such a delivery; queues and runs only grow, by `d` alone. */
  ghost predicate OnlyMoves(s: State, t: State, d: nat) {
    && |t.users| == |t.place| && |s.place| <= |t.place|
    && (forall e: nat :: e < |s.place| && e != d ==> t.place[e] == s.place[e])
    && s.ran <= t.ran && t.releases == s.releases
    && (forall e: nat, u, pos: nat :: InQueue(s, e, u, pos) ==> InQueue(t, e, u, pos))
    && (forall e: nat, u, pos: nat ::
          InQueue(t, e, u, pos) && !InQueue(s, e, u, pos) ==> e == d < |t.place| && t.place[d] == Held(u, pos))
    && (forall e: nat, at: nat ::
          InRan(t, e, at) && !InRan(s, e, at) ==> e == d < |t.place| && t.place[d] == Ran(at))
  }

  /** The frame of every step but the end of a replay and the run of a released delivery. */
  lemma FrameKeeps(s: State, t: State, d: nat)
    requires Inv(s) && Bounded(t) && OnlyMoves(s, t, d)
    requires d < |s.place| ==> InHold(s.place[d])
    requires d < |t.place| ==> Good(t, d)
    requires |t.place| <= |s.place| + 1 && (|s.place| < |t.place| ==> d == |s.place|)
    ensures Inv(t)
  {
    forall e: nat | e < |t.place| ensures Good(t, e) {
      if e != d {
        assert Good(s, e);
      }
    }
    forall e: nat, u, pos: nat | InQueue(t, e, u, pos) ensures e < |t.place| && t.place[e] == Held(u, pos) {
      assert InQueue(s, e, u, pos) || e == d;
    }
    forall e: nat, r: nat, pos: nat | InRelease(t, e, r, pos) ensures e < |t.place| && t.place[e] == Releasing(r, pos) {
      assert InRelease(s, e, r, pos);
    }
    forall e: nat, at: nat | InRan(t, e, at) ensures e < |t.place| && t.place[e] == Ran(at) {
      assert InRan(s, e, at) || e == d;
    }
    forall r: nat | r < |t.releases| ensures ReleasedInOrder(t, r) {
      assert ReleasedInOrder(s, r);
    }
  }

  /** A delivery that moves on within hold. */
  lemma MoveKeeps(s: State, d: nat, p: Place)
    requires Inv(s) && d < |s.place| && InHold(s.place[d]) && InHold(p)
    ensures Inv(Move(s, d, p))
  {
    FrameKeeps(s, Move(s, d, p), d);
  }

  lemma GiveKeeps(s: State, u: User)
    requires Inv(s)
    ensures Inv(Apply(s, Give(u)))
  {
    FrameKeeps(s, Apply(s, Give(u)), |s.place|);
  }

  lemma HoldBackKeeps(s: State, d: nat)
    requires Inv(s) && d < |s.place| && InHold(s.place[d]) && s.users[d] in s.pending
             && |s.pending[s.users[d]]| < MAX_HOLDOUT
    ensures Inv(HoldBack(s, d))
  {
    FrameKeeps(s, HoldBack(s, d), d);
  }

  lemma RunNowKeeps(s: State, d: nat)
    requires Inv(s) && d < |s.place| && InHold(s.place[d])
    ensures Inv(Execute(s, d))
  {
    FrameKeeps(s, Execute(s, d), d);
  }

  lemma BeginKeeps(s: State, u: User)
    requires Inv(s)
    ensures Inv(Apply(s, Begin(u)))
  {
    FrameKeeps(s, Apply(s, Begin(u)), |s.place|);
  }

  lemma CloseKeeps(s: State, u: User)
    requires Inv(s) && u in s.pending
    ensures Inv(Close(s, u))
  {
    var t := Close(s, u);
    assert t.pending.Keys == s.pending.Keys - {u};
    forall e: nat | e < |t.place| ensures Good(t, e) {
      assert Good(s, e);
    }
    forall e: nat, v, pos: nat | InQueue(t, e, v, pos) ensures e < |t.place| && t.place[e] == Held(v, pos) {
      assert InQueue(s, e, v, pos);
    }
    forall e: nat, r: nat, pos: nat | InRelease(t, e, r, pos) ensures e < |t.place| && t.place[e] == Releasing(r, pos) {
      if r < |s.releases| {
        assert InRelease(s, e, r, pos);
      } else {
        assert InQueue(s, e, u, pos);
      }
    }
    forall e: nat, at: nat | InRan(t, e, at) ensures e < |t.place| && t.place[e] == Ran(at) {
      assert InRan(s, e, at);
    }
    forall r: nat | r < |t.releases| ensures ReleasedInOrder(t, r) {
      if r < |s.releases| {
        assert ReleasedInOrder(s, r);
      }
    }
  }

  lemma AdvanceOrder(s: State, r: nat, k: nat)
    requires Inv(s) && Ready(s, r) && k < |s.releases|
    ensures ReleasedInOrder(Advance(s, r), k)
  {
    assert ReleasedInOrder(s, k);
    var d, n := s.releases[r].queue[s.releases[r].next], s.releases[r].next;
    assert InRelease(s, d, r, n);
  }

  lemma AdvanceKeeps(s: State, r: nat)
    requires Inv(s) && Ready(s, r)
    ensures Inv(Advance(s, r))
  {
    var t, n := Advance(s, r), s.releases[r].next;
    var d := s.releases[r].queue[n];
    assert InRelease(s, d, r, n);
    forall e: nat | e < |t.place| ensures Good(t, e) {
      assert Good(s, e);
      if e != d && s.place[e].Releasing? && s.place[e].release == r {
        assert s.place[e].pos != n;
      }
    }
    forall e: nat, u, pos: nat | InQueue(t, e, u, pos) ensures e < |t.place| && t.place[e] == Held(u, pos) {
      assert InQueue(s, e, u, pos);
    }
    forall e: nat, k: nat, pos: nat | InRelease(t, e, k, pos) ensures e < |t.place| && t.place[e] == Releasing(k, pos) {
      assert InRelease(s, e, k, pos);
    }
    forall e: nat, at: nat | InRan(t, e, at) ensures e < |t.place| && t.place[e] == Ran(at) {
      if at < |s.ran| {
        assert InRan(s, e, at);
      }
    }
    forall k: nat | k < |t.releases| ensures ReleasedInOrder(t, k) {
      AdvanceOrder(s, r, k);
    }
  }

  lemma StepKeepsInv(s: State, a: Action)
    requires Inv(s)
    ensures Inv(Apply(s, a))
  {
    match a
    case Begin(u) => BeginKeeps(s, u);
    case End(u) =>
      if u in s.pending {
        CloseKeeps(s, u);
      }
    case Give(u) => GiveKeeps(s, u);
    case FastLook(d) =>
      if Stands(s, d, Entering) {
        MoveKeeps(s, d, if s.live == 0 then Due else Looking);
      }
    case Look(d) =>
      if Stands(s, d, Looking) {
        MoveKeeps(s, d, if s.users[d] in s.pending then Locking else Due);
      }
    case Decide(d) =>
      if Stands(s, d, Locking) {
        if s.users[d] in s.pending && |s.pending[s.users[d]]| < MAX_HOLDOUT {
          HoldBackKeeps(s, d);
        } else {
          MoveKeeps(s, d, Due);
        }
      }
    case RunNow(d) =>
      if Stands(s, d, Due) {
        RunNowKeeps(s, d);
      }
    case RunNext(r) =>
      if Ready(s, r) {
        AdvanceKeeps(s, r);
      }
  }

  lemma {:induction false} RunKeepsInv(actions: seq<Action>)
    ensures Inv(Run(actions))
    decreases |actions|
  {
    if actions != [] {
      RunKeepsInv(actions[..|actions| - 1]);
      StepKeepsInv(Run(actions[..|actions| - 1]), actions[|actions| - 1]);
    }
  }

  // ---------------------------------------------------------------------------------------------
  // Main results
  // ---------------------------------------------------------------------------------------------

  ghost predicate Reachable(s: State) {
    exists actions: seq<Action> :: s == Run(actions)
  }

  lemma ReachableInv(s: State)
    requires Reachable(s)
    ensures Inv(s)
  {
    var actions: seq<Action> :| s == Run(actions);
    RunKeepsInv(actions);
  }

  /** Nothing runs twice; the counter is the number of users in replay; no user holds more than the cap. */
  lemma NeverTwice(s: State)
    requires Reachable(s)
    ensures forall i, j :: 0 <= i < j < |s.ran| ==> s.ran[i] != s.ran[j]
    ensures s.live == |s.pending|
    ensures forall u :: u in s.pending ==> |s.pending[u]| <= MAX_HOLDOUT
  {
    ReachableInv(s);
    forall i: nat, j: nat | i < j < |s.ran| ensures s.ran[i] != s.ran[j] {
      assert InRan(s, s.ran[i], i) && InRan(s, s.ran[j], j);
    }
  }

  /** Once no replay, hold or release is under way, everything given to the gate has run. */
  lemma AllHaveRun(s: State, d: nat)
    requires Reachable(s) && d < |s.users|
    requires s.pending == map[] && (forall r :: 0 <= r < |s.releases| ==> s.releases[r].next == |s.releases[r].queue|)
    requires forall e :: 0 <= e < |s.place| ==> !InHold(s.place[e])
    ensures d in s.ran
  {
    ReachableInv(s);
    assert Good(s, d);
    assert s.place[d].Ran?;
  }

  /** What one replay held runs in the order it was held. */
  lemma HeldRunInOrder(s: State, r: nat, i: nat, j: nat)
    requires Reachable(s) && r < |s.releases| && i < j < s.releases[r].next <= |s.releases[r].queue|
    ensures exists a, b ::
              0 <= a < b < |s.ran| && s.ran[a] == s.releases[r].queue[i] && s.ran[b] == s.releases[r].queue[j]
  {
    ReachableInv(s);
    assert ReleasedInOrder(s, r);
    var d, e := s.releases[r].queue[i], s.releases[r].queue[j];
    assert Good(s, d) && Good(s, e);
    assert RanAt(s, d) < RanAt(s, e);
  }

  // ---------------------------------------------------------------------------------------------
  // One operation with nothing between its steps
  // ---------------------------------------------------------------------------------------------

  /** The steps of hold for a new delivery. */
  function HoldSteps(s: State, u: User): State {
    var d := |s.place|;
    Apply(Apply(Apply(Apply(Apply(s, Give(u)), FastLook(d)), Look(d)), Decide(d)), RunNow(d))
  }

  /** They hold the delivery back exactly if the user is in replay and has room, and else run it at once. */
  lemma HoldIsItsSteps(s: State, u: User)
    requires Inv(s)
    ensures var t, d := HoldSteps(s, u), |s.place|;
            var held := u in s.pending && |s.pending[u]| < MAX_HOLDOUT;
            && t.pending == (if held then s.pending[u := s.pending[u] + [d]] else s.pending)
            && t.ran == (if held then s.ran else s.ran + [d])
            && t.live == s.live && t.releases == s.releases && t.users == s.users + [u]
  {
    var d := |s.place|;
    var given := Apply(s, Give(u));
    var looked := Apply(given, FastLook(d));
    assert given.place[d] == Entering && given.users[d] == u;
    if u in s.pending {
      LiveWithPending(s, u);
      assert looked.place[d] == Looking;
      assert Apply(looked, Look(d)).place[d] == Locking;
    } else {
      assert looked.place[d] == Due || looked.place[d] == Looking;
      assert Apply(looked, Look(d)).place[d] == Due;
    }
  }

  lemma LiveWithPending(s: State, u: User)
    requires Bounded(s) && u in s.pending
    ensures s.live != 0
  {
    assert s.pending.Keys != {};
  }

  /** The runs that follow the end of a replay. */
  function RunReleased(s: State, r: nat, n: nat): State
    decreases n
  {
    if n == 0 then s else Apply(RunReleased(s, r, n - 1), RunNext(r))
  }

  lemma NextReleased(s: State, r: nat)
    requires Inv(s) && r < |s.releases| && s.releases[r].next < |s.releases[r].queue|
    ensures var t, release := Apply(s, RunNext(r)), s.releases[r];
            && t.ran == s.ran + [release.queue[release.next]] && t.pending == s.pending && t.live == s.live
            && |t.releases| == |s.releases| && t.releases[r] == release.(next := release.next + 1)
  {
    assert InRelease(s, s.releases[r].queue[s.releases[r].next], r, s.releases[r].next);
  }

  lemma {:induction false} ReleasedInv(s: State, r: nat, n: nat)
    requires Inv(s)
    ensures Inv(RunReleased(s, r, n))
    decreases n
  {
    if n > 0 {
      ReleasedInv(s, r, n - 1);
      StepKeepsInv(RunReleased(s, r, n - 1), RunNext(r));
    }
  }

  lemma {:induction false} ReleasedRun(s: State, r: nat, n: nat)
    requires Inv(s) && r < |s.releases| && s.releases[r].next == 0 && n <= |s.releases[r].queue|
    ensures var t := RunReleased(s, r, n);
            && t.ran == s.ran + s.releases[r].queue[..n] && t.pending == s.pending && t.live == s.live
            && |t.releases| == |s.releases| && t.releases[r] == Release(s.releases[r].queue, n)
    decreases n
  {
    if n > 0 {
      ReleasedRun(s, r, n - 1);
      var t, q := RunReleased(s, r, n - 1), s.releases[r].queue;
      ReleasedInv(s, r, n - 1);
      NextReleased(t, r);
      assert s.ran + q[..n] == s.ran + q[..n - 1] + [q[n - 1]];
    } else {
      assert s.ran + s.releases[r].queue[..0] == s.ran;
    }
  }

  /** The end of a replay and the runs that follow it take the user's queue and run it in order. */
  lemma EndIsItsSteps(s: State, u: User)
    requires Inv(s) && u in s.pending
    ensures var t := RunReleased(Apply(s, End(u)), |s.releases|, |s.pending[u]|);
            t.pending == s.pending - {u} && t.live == s.live - 1 && t.ran == s.ran + s.pending[u]
  {
    CloseKeeps(s, u);
    var ended, q := Apply(s, End(u)), s.pending[u];
    ReleasedRun(ended, |s.releases|, |q|);
    assert q[..|q|] == q;
  }

  /** A replay that begins is open, with nothing held, and counted. */
  lemma BeginOpens(s: State, u: User)
    ensures var t := Apply(s, Begin(u));
            && u in t.pending && t.ran == s.ran && t.place == s.place
            && (u !in s.pending ==> t.pending == s.pending[u := []] && t.live == s.live + 1)
            && (u in s.pending ==> t == s)
  {
  }
}
