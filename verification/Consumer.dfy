/**
 * At-least-once consumption: copies of envelopes are handled concurrently, each one validated, marked
 * in the dedup window, delivered, and on failure unmarked and handed back for redelivery.
 *
 * Steps are the window's critical sections and the delivery itself. A roll-over of the generations,
 * which any copy may trigger on its way into the window, is a step of its own that may happen at any
 * time.
 */
module Consumer {
  import opened Dedup

  datatype Envelope = Envelope(key: Key, valid: bool, express: bool)

  datatype Phase =
    | Waiting(again: bool)  // with the handler, not yet past the window; `again` after a redelivery
    | Delivering
    | RollingBack           // delivery failed, the mark not yet taken back
    | Returning             // about to be handed back
    | Nacked                // handed back, to be redelivered
    | Succeeded
    | Duplicate             // acknowledged without delivery
    | Discarded             // malformed, acknowledged without delivery

  datatype Copy = Copy(env: Envelope, phase: Phase)

  datatype State = State(window: Window, copies: seq<Copy>)

  datatype Action =
    | Arrive(env: Envelope)
    | Rollover
    | Enter(i: nat)
    | Finish(i: nat, ok: bool)
    | TakeBack(i: nat)
    | Nack(i: nat)
    | Redeliver(i: nat)

  function Initial(now: int): State {
    State(Window({}, {}, now), [])
  }

  function Move(s: State, i: nat, phase: Phase): State
    requires i < |s.copies|
  {
    s.(copies := s.copies[i := s.copies[i].(phase := phase)])
  }

  /** Validation and, unless express, the marking half of Seen. */
  function EnterCopy(s: State, i: nat): State
    requires i < |s.copies|
  {
    var env := s.copies[i].env;
    if !env.valid then Move(s, i, Discarded)
    else if env.express then Move(s, i, Delivering)
    else if Remembers(s.window, env.key) then Move(s, i, Duplicate)
    else Move(s, i, Delivering).(window := s.window.(active := s.window.active + {env.key}))
  }

  /** One step; an action that is not enabled changes nothing. */
  function Apply(s: State, a: Action, period: int): State {
    match a
    case Arrive(env) => s.(copies := s.copies + [Copy(env, Waiting(false))])
    case Rollover => s.(window := Swap(s.window, period))
    case Enter(i) => if i < |s.copies| && s.copies[i].phase.Waiting? then EnterCopy(s, i) else s
    case Finish(i, ok) =>
      if i < |s.copies| && s.copies[i].phase == Delivering
      then Move(s, i, if ok then Succeeded else if s.copies[i].env.express then Returning else RollingBack)
      else s
    case TakeBack(i) =>
      if i < |s.copies| && s.copies[i].phase == RollingBack
      then Move(s, i, Returning).(window := Forget(s.window, s.copies[i].env.key))
      else s
    case Nack(i) => if i < |s.copies| && s.copies[i].phase == Returning then Move(s, i, Nacked) else s
    case Redeliver(i) => if i < |s.copies| && s.copies[i].phase == Nacked then Move(s, i, Waiting(true)) else s
  }

  function Run(s: State, actions: seq<Action>, period: int): State
    decreases |actions|
  {
    if actions == [] then s else Apply(Run(s, actions[..|actions| - 1], period), actions[|actions| - 1], period)
  }

  /** A copy the window consults for a key. */
  predicate Reliable(c: Copy, key: Key) {
    c.env.key == key && c.env.valid && !c.env.express
  }

  /** The copy stands behind the mark. */
  predicate Backs(c: Copy, key: Key) {
    Reliable(c, key) && (c.phase == Delivering || c.phase == RollingBack || c.phase == Succeeded)
  }

  /** The copy was delivered, or may yet be. */
  predicate Alive(c: Copy, key: Key) {
    Backs(c, key) || (Reliable(c, key) && (c.phase == Returning || c.phase == Nacked || c.phase == Waiting(true)))
  }

  /** The handler has got past the window with this copy. */
  predicate Handled(c: Copy, key: Key) {
    Reliable(c, key) && c.phase != Waiting(false)
  }

  ghost predicate Backed(s: State, key: Key) {
    exists i :: 0 <= i < |s.copies| && Backs(s.copies[i], key)
  }

  ghost predicate Safe(s: State, key: Key) {
    exists i :: 0 <= i < |s.copies| && Alive(s.copies[i], key)
  }

  ghost predicate AnyHandled(s: State, key: Key) {
    exists i :: 0 <= i < |s.copies| && Handled(s.copies[i], key)
  }

  /** A mark has a copy behind it; a handled envelope has a copy that was or may yet be delivered. */
  ghost predicate Inv(s: State, key: Key) {
    (Remembers(s.window, key) ==> Backed(s, key)) && (AnyHandled(s, key) ==> Safe(s, key))
  }

  /** A copy that moves on without marking or unmarking: it keeps backing and staying alive. */
  lemma MoveKeeps(s: State, i: nat, phase: Phase, key: Key)
    requires Inv(s, key) && i < |s.copies|
    requires Backs(s.copies[i], key) ==> Backs(s.copies[i].(phase := phase), key)
    requires Alive(s.copies[i], key) ==> Alive(s.copies[i].(phase := phase), key)
    requires Handled(s.copies[i].(phase := phase), key)
             ==> Handled(s.copies[i], key) || Alive(s.copies[i].(phase := phase), key)
    ensures Inv(Move(s, i, phase), key)
  {
    var t := Move(s, i, phase);
    if Backed(s, key) {
      var k :| 0 <= k < |s.copies| && Backs(s.copies[k], key);
      assert Backs(t.copies[k], key);
    }
    if Safe(s, key) {
      var k :| 0 <= k < |s.copies| && Alive(s.copies[k], key);
      assert Alive(t.copies[k], key);
    }
    if AnyHandled(t, key) {
      var k :| 0 <= k < |t.copies| && Handled(t.copies[k], key);
      if k == i && !Handled(s.copies[i], key) {
        assert Alive(t.copies[i], key);
      } else {
        assert Handled(s.copies[k], key);
      }
    }
  }

  lemma EnterKeeps(s: State, i: nat, key: Key)
    requires Inv(s, key) && i < |s.copies| && s.copies[i].phase.Waiting?
    ensures Inv(EnterCopy(s, i), key)
  {
    var t := EnterCopy(s, i);
    if !Reliable(s.copies[i], key) {
      MoveKeeps(s, i, t.copies[i].phase, key);
    } else if Remembers(s.window, key) {
      // A duplicate: the copy behind the mark is another one, and it stays.
      var k :| 0 <= k < |s.copies| && Backs(s.copies[k], key);
      assert Backs(t.copies[k], key) && Alive(t.copies[k], key);
    } else {
      assert Backs(t.copies[i], key) && Alive(t.copies[i], key);
    }
  }

  lemma TakeBackKeeps(s: State, i: nat, key: Key)
    requires Inv(s, key) && i < |s.copies| && s.copies[i].phase == RollingBack
    ensures Inv(Move(s, i, Returning).(window := Forget(s.window, s.copies[i].env.key)), key)
  {
    if s.copies[i].env.key == key {
      var t := Move(s, i, Returning).(window := Forget(s.window, key));
      if Reliable(s.copies[i], key) {
        assert Alive(t.copies[i], key);
      } else if AnyHandled(t, key) {
        var h :| 0 <= h < |t.copies| && Handled(t.copies[h], key);
        assert Handled(s.copies[h], key);
        var k :| 0 <= k < |s.copies| && Alive(s.copies[k], key);
        assert Alive(t.copies[k], key);
      }
    } else {
      MoveKeeps(s, i, Returning, key);
    }
  }

  lemma ArriveKeeps(s: State, env: Envelope, key: Key)
    requires Inv(s, key)
    ensures Inv(s.(copies := s.copies + [Copy(env, Waiting(false))]), key)
  {
    var t := s.(copies := s.copies + [Copy(env, Waiting(false))]);
    if AnyHandled(t, key) {
      var h :| 0 <= h < |t.copies| && Handled(t.copies[h], key);
      assert Handled(s.copies[h], key);
      var k :| 0 <= k < |s.copies| && Alive(s.copies[k], key);
      assert Alive(t.copies[k], key);
    }
    if Backed(s, key) {
      var k :| 0 <= k < |s.copies| && Backs(s.copies[k], key);
      assert Backs(t.copies[k], key);
    }
  }

  /** Every step keeps the invariant, whatever the other copies do. */
  lemma StepKeepsInv(s: State, a: Action, period: int, key: Key)
    requires Inv(s, key)
    ensures Inv(Apply(s, a, period), key)
  {
    match a
    case Arrive(env) => ArriveKeeps(s, env, key);
    case Rollover =>
    case Enter(i) =>
      if i < |s.copies| && s.copies[i].phase.Waiting? {
        EnterKeeps(s, i, key);
      }
    case Finish(i, ok) =>
      if i < |s.copies| && s.copies[i].phase == Delivering {
        MoveKeeps(s, i, Apply(s, a, period).copies[i].phase, key);
      }
    case TakeBack(i) =>
      if i < |s.copies| && s.copies[i].phase == RollingBack {
        TakeBackKeeps(s, i, key);
      }
    case Nack(i) =>
      if i < |s.copies| && s.copies[i].phase == Returning {
        MoveKeeps(s, i, Nacked, key);
      }
    case Redeliver(i) =>
      if i < |s.copies| && s.copies[i].phase == Nacked {
        MoveKeeps(s, i, Waiting(true), key);
      }
  }

  lemma {:induction false} RunKeepsInv(now: int, actions: seq<Action>, period: int, key: Key)
    ensures Inv(Run(Initial(now), actions, period), key)
    decreases |actions|
  {
    if actions != [] {
      RunKeepsInv(now, actions[..|actions| - 1], period, key);
      StepKeepsInv(Run(Initial(now), actions[..|actions| - 1], period), actions[|actions| - 1], period, key);
    }
  }

  /**
   * No reliable envelope is lost: after any run, once some copy of a key got past the window, one copy
   * was delivered, is on its way, or has been handed back for redelivery.
   */
  lemma NothingLost(now: int, actions: seq<Action>, period: int, key: Key)
    requires AnyHandled(Run(Initial(now), actions, period), key)
    ensures Safe(Run(Initial(now), actions, period), key)
  {
    RunKeepsInv(now, actions, period, key);
  }

  predicate Settled(p: Phase) {
    p == Succeeded || p == Duplicate || p == Discarded
  }

  /** Once every copy is acknowledged, each reliable key has been delivered by one of its copies. */
  lemma AllAcknowledgedMeansDelivered(now: int, actions: seq<Action>, period: int, key: Key)
    requires var s := Run(Initial(now), actions, period);
             && (forall i :: 0 <= i < |s.copies| ==> Settled(s.copies[i].phase))
             && exists i :: 0 <= i < |s.copies| && Reliable(s.copies[i], key)
    ensures var s := Run(Initial(now), actions, period);
            exists i :: 0 <= i < |s.copies| && Reliable(s.copies[i], key) && s.copies[i].phase == Succeeded
  {
    var s := Run(Initial(now), actions, period);
    RunKeepsInv(now, actions, period, key);
    var h :| 0 <= h < |s.copies| && Reliable(s.copies[h], key);
    assert Settled(s.copies[h].phase);
    assert Handled(s.copies[h], key);
    var k :| 0 <= k < |s.copies| && Alive(s.copies[k], key);
    assert Settled(s.copies[k].phase);
  }

  // ---------------------------------------------------------------------------------------------
  // The handler itself
  // ---------------------------------------------------------------------------------------------

  datatype Outcome = Acknowledged(attempted: bool) | HandedBack

  /**
   * What handling one copy does: when it is handed back and when it is acknowledged without a delivery,
   * and what the window remembers then.
   */
  ghost predicate Handles(w: Window, env: Envelope, now: int, delivers: bool, period: int, w': Window, r: Outcome)
    requires period > 0
  {
    var first := !Remembers(CatchUp(w, now, period), env.key);
    && (r == HandedBack <==> env.valid && !delivers && (env.express || first))
    && (r == Acknowledged(false) <==> !env.valid || (!env.express && !first))
    && (!env.valid || env.express ==> w' == w)
    && (env.valid && !env.express && r == Acknowledged(true) ==> w' == See(w, env.key, now, period).0)
    && (env.valid && !env.express && r != Acknowledged(true) ==> w' == CatchUp(w, now, period))
  }

  /** handle, on one copy; `delivers` is what the delivery would report. */
  method Handle(dedup: DedupWindow, env: Envelope, now: int, delivers: bool) returns (r: Outcome)
    requires dedup.Valid()
    modifies dedup
    ensures dedup.Valid()
    ensures Handles(old(dedup.Contents()), env, now, delivers, dedup.period, dedup.Contents(), r)
  {
    if !env.valid {
      return Acknowledged(false);
    }
    var marked := false;
    if !env.express {
      var first := dedup.Seen(env.key, now);
      if !first {
        return Acknowledged(false);
      }
      marked := true;
    }
    if delivers {
      return Acknowledged(true);
    }
    if marked {
      MarkThenForget(CatchUp(old(dedup.Contents()), now, dedup.period), env.key);
      dedup.Unmark(env.key);
    }
    return HandedBack;
  }

  lemma MarkThenForget(w: Window, key: Key)
    requires !Remembers(w, key)
    ensures Forget(w.(active := w.active + {key}), key) == w
  {
  }

  // ---------------------------------------------------------------------------------------------
  // The steps of one copy
  // ---------------------------------------------------------------------------------------------

  lemma {:induction false} RunsCompose(s: State, a: seq<Action>, b: seq<Action>, period: int)
    ensures Run(s, a + b, period) == Run(Run(s, a, period), b, period)
    decreases |b|
  {
    if b == [] {
      assert a + b == a;
    } else {
      var k := |b| - 1;
      RunsCompose(s, a, b[..k], period);
      assert (a + b)[..|a + b| - 1] == a + b[..k];
    }
  }

  function Rollovers(n: nat): seq<Action> {
    seq(n, i => Rollover)
  }

  lemma {:induction false} RolloversSwap(s: State, n: nat, period: int)
    ensures Run(s, Rollovers(n), period) == s.(window := Swaps(s.window, period, n))
    decreases n
  {
    if n > 0 {
      RolloversSwap(s, n - 1, period);
      assert Rollovers(n)[..n - 1] == Rollovers(n - 1);
    }
  }

  /** Catching up is some number of swaps. */
  lemma {:induction false} CatchUpSwaps(w: Window, now: int, period: int) returns (n: nat)
    requires period > 0
    ensures Swaps(w, period, n) == CatchUp(w, now, period)
    decreases now - w.lastSwap
  {
    n := 0;
    if now - w.lastSwap >= period {
      var m := CatchUpSwaps(Swap(w, period), now, period);
      SwapsFirst(w, period, m);
      n := m + 1;
    }
  }

  lemma {:induction false} SwapsFirst(w: Window, period: int, n: nat)
    ensures Swaps(w, period, n + 1) == Swaps(Swap(w, period), period, n)
    decreases n
  {
    if n > 0 {
      SwapsFirst(w, period, n - 1);
    }
  }

  function Steps(i: nat, env: Envelope, ok: bool): seq<Action> {
    [Arrive(env), Enter(i), Finish(i, ok), TakeBack(i), Nack(i)]
  }

  /** What the handler told its caller about a copy that has come to rest. */
  function Told(p: Phase): Outcome {
    if p == Nacked then HandedBack else Acknowledged(p == Succeeded)
  }

  lemma StepsInTurn(s: State, env: Envelope, ok: bool, period: int)
    ensures var i := |s.copies|;
            Run(s, Steps(i, env, ok), period)
            == Apply(Apply(Apply(Apply(Apply(s, Arrive(env), period), Enter(i), period), Finish(i, ok), period),
                           TakeBack(i), period), Nack(i), period)
  {
    var i := |s.copies|;
    var all := Steps(i, env, ok);
    assert all[..4] == [Arrive(env), Enter(i), Finish(i, ok), TakeBack(i)];
    assert all[..4][..3] == [Arrive(env), Enter(i), Finish(i, ok)];
    assert all[..4][..3][..2] == [Arrive(env), Enter(i)];
    assert all[..4][..3][..2][..1] == [Arrive(env)] && [Arrive(env)][..0] == [];
    assert Run(s, [Arrive(env)], period) == Apply(s, Arrive(env), period);
    assert Run(s, [Arrive(env), Enter(i)], period) == Apply(Run(s, [Arrive(env)], period), Enter(i), period);
    assert Run(s, all[..4][..3], period) == Apply(Run(s, all[..4][..3][..2], period), Finish(i, ok), period);
    assert Run(s, all[..4], period) == Apply(Run(s, all[..4][..3], period), TakeBack(i), period);
  }

  /** One copy alone, in a window that has caught up. */
  lemma CopyAlone(s: State, env: Envelope, ok: bool, period: int)
    ensures var t := Run(s, Steps(|s.copies|, env, ok), period);
            var delivers := env.valid && (env.express || !Remembers(s.window, env.key));
            && t.copies == s.copies + [Copy(env, if delivers then if ok then Succeeded else Nacked
                                                 else if env.valid then Duplicate else Discarded)]
            && t.window == if delivers && ok && !env.express then s.window.(active := s.window.active + {env.key})
                           else s.window
  {
    StepsInTurn(s, env, ok, period);
    var i := |s.copies|;
    var arrived := Apply(s, Arrive(env), period);
    var entered := Apply(arrived, Enter(i), period);
    assert arrived.copies[i] == Copy(env, Waiting(false));
    assert entered == EnterCopy(arrived, i);
    if env.valid && !env.express && !Remembers(s.window, env.key) {
      MarkThenForget(s.window, env.key);
      assert entered.copies == s.copies + [Copy(env, Delivering)];
    }
  }

  /** The steps of one copy with nothing else between them, its catch-up included, are what the handler does. */
  lemma HandleIsItsSteps(s: State, env: Envelope, now: int, ok: bool, period: int) returns (n: nat)
    requires period > 0
    ensures var t := Run(s, Rollovers(n) + Steps(|s.copies|, env, ok), period);
            && |t.copies| == |s.copies| + 1 && t.copies[..|s.copies|] == s.copies && t.copies[|s.copies|].env == env
            && Handles(s.window, env, now, ok, period, t.window, Told(t.copies[|s.copies|].phase))
  {
    if env.valid && !env.express {
      n := CatchUpSwaps(s.window, now, period);
    } else {
      n := 0;
    }
    RunsCompose(s, Rollovers(n), Steps(|s.copies|, env, ok), period);
    RolloversSwap(s, n, period);
    CopyAlone(s.(window := Swaps(s.window, period, n)), env, ok, period);
  }

  /** The step lets copy i into its delivery. */
  predicate StartsDelivery(s: State, a: Action, i: nat, period: int) {
    && i < |s.copies| && s.copies[i].phase != Delivering
    && i < |Apply(s, a, period).copies| && Apply(s, a, period).copies[i].phase == Delivering
  }

  /**
   * Over every interleaving a copy starts its delivery exactly when it enters, valid, and is express or
   * of a key not remembered then; of a remembered one it never does.
   */
  lemma DeliveryStartsIff(s: State, a: Action, i: nat, period: int)
    ensures StartsDelivery(s, a, i, period)
            <==> && a == Enter(i) && i < |s.copies| && s.copies[i].phase.Waiting? && s.copies[i].env.valid
                 && (s.copies[i].env.express || !Remembers(s.window, s.copies[i].env.key))
  {
  }

  /** A copy that was handed back and comes again is delivered, unless its key is remembered meanwhile. */
  lemma RedeliveredIsDelivered(s: State, i: nat, period: int)
    requires i < |s.copies| && s.copies[i].phase == Nacked && s.copies[i].env.valid
    ensures var t := Apply(Apply(s, Redeliver(i), period), Enter(i), period);
            i < |t.copies| && (t.copies[i].phase == Delivering
                               <==> s.copies[i].env.express || !Remembers(s.window, s.copies[i].env.key))
  {
    assert Apply(s, Redeliver(i), period).copies[i].phase == Waiting(true);
  }

  lemma {:induction false} SettledStays(s: State, actions: seq<Action>, period: int, i: nat)
    requires i < |s.copies| && Settled(s.copies[i].phase)
    ensures i < |Run(s, actions, period).copies| && Run(s, actions, period).copies[i] == s.copies[i]
    decreases |actions|
  {
    if actions != [] {
      SettledStays(s, actions[..|actions| - 1], period, i);
    }
  }

  /** A copy that enters while its key is remembered is acknowledged as a duplicate for good. */
  lemma DuplicateForGood(s: State, actions: seq<Action>, period: int, i: nat)
    requires i < |s.copies| && s.copies[i].phase.Waiting? && s.copies[i].env.valid && !s.copies[i].env.express
    requires Remembers(s.window, s.copies[i].env.key)
    ensures var t := Run(Apply(s, Enter(i), period), actions, period);
            i < |t.copies| && t.copies[i] == Copy(s.copies[i].env, Duplicate)
  {
    SettledStays(Apply(s, Enter(i), period), actions, period, i);
  }
}
