/**
 * The two-generation dedup window of the consumer: its arithmetic, the bound on how long a key is
 * remembered, and the sharded object, whose sharding cannot be observed.
 */
module Dedup {

  type Key = seq<bv8>

  const DEFAULT_TTL: int := 60_000_000_000
  const DEFAULT_SHARDS: int := 64

  // ---------------------------------------------------------------------------------------------
  // One window
  // ---------------------------------------------------------------------------------------------

  datatype Window = Window(active: set<Key>, prev: set<Key>, lastSwap: int)

  function Swap(w: Window, period: int): Window {
    Window({}, w.active, w.lastSwap + period)
  }

  /** Swap generations until the current one contains `now`. */
  function CatchUp(w: Window, now: int, period: int): Window
    requires period > 0
    decreases now - w.lastSwap
  {
    if now - w.lastSwap >= period then CatchUp(Swap(w, period), now, period) else w
  }

  predicate Remembers(w: Window, key: Key) {
    key in w.active || key in w.prev
  }

  /** Seen: true for a first sight, which is then remembered. */
  function See(w: Window, key: Key, now: int, period: int): (Window, bool)
    requires period > 0
  {
    var c := CatchUp(w, now, period);
    if Remembers(c, key) then (c, false) else (c.(active := c.active + {key}), true)
  }

  function Forget(w: Window, key: Key): Window {
    w.(active := w.active - {key}, prev := w.prev - {key})
  }

  /** Where the generation that contains a time starts, given that one starts at `origin`. */
  function Start(origin: int, time: int, period: int): (start: int)
    requires period > 0
    ensures origin <= time ==> start <= time
    ensures origin <= start && time < start + period
    decreases time - origin
  {
    if time - origin >= period then Start(origin + period, time, period) else origin
  }

  /** Catching up over any number of idle generations, in closed form. */
  lemma {:induction false} CatchUpExact(w: Window, now: int, period: int)
    requires period > 0
    ensures var c := CatchUp(w, now, period);
            && c.lastSwap == Start(w.lastSwap, now, period)
            && c.active == (if c.lastSwap == w.lastSwap then w.active else {})
            && c.prev
                == (if c.lastSwap == w.lastSwap then w.prev
                    else if c.lastSwap == w.lastSwap + period then w.active
                    else {})
    decreases now - w.lastSwap
  {
    if now - w.lastSwap >= period {
      CatchUpExact(Swap(w, period), now, period);
    }
  }

  /** Any generation start gives the same generations. */
  lemma {:induction false} StartStable(origin: int, earlier: int, time: int, period: int)
    requires period > 0 && earlier <= time
    ensures Start(Start(origin, earlier, period), time, period) == Start(origin, time, period)
    decreases earlier - origin
  {
    if earlier - origin >= period {
      StartStable(origin + period, earlier, time, period);
    }
  }

  /** The next generation is a whole period away. */
  lemma {:induction false} StartSteps(origin: int, time: int, period: int)
    requires period > 0
    ensures Start(origin, time, period) == origin || Start(origin, time, period) >= origin + period
  {
  }

  function Swaps(w: Window, period: int, n: nat): Window {
    if n == 0 then w else Swap(Swaps(w, period, n - 1), period)
  }

  lemma {:induction false} SwapsAdd(w: Window, period: int, n: nat)
    ensures Swaps(w, period, n).lastSwap == w.lastSwap + n * period
    decreases n
  {
    if n > 0 {
      SwapsAdd(w, period, n - 1);
    }
  }

  /**
   * The catch-up loop ends, after some number of swaps, if and only if the period is positive or there
   * is nothing to catch up with. A TTL of one time unit has period zero, and then it never ends.
   */
  lemma CatchUpEndsIff(w: Window, now: int, period: int)
    requires period >= 0
    ensures (exists n: nat :: now - Swaps(w, period, n).lastSwap < period) <==> period > 0 || now < w.lastSwap
  {
    if period > 0 {
      var n: nat := if now <= w.lastSwap then 0 else now - w.lastSwap;
      SwapsAdd(w, period, n);
      assert n * period >= n;
      assert now - Swaps(w, period, n).lastSwap < period;
    } else if now < w.lastSwap {
      assert now - Swaps(w, period, 0).lastSwap < period;
    } else {
      forall n: nat ensures now - Swaps(w, period, n).lastSwap >= period {
        SwapsAdd(w, period, n);
      }
    }
  }

  // ---------------------------------------------------------------------------------------------
  // How long a key is remembered
  // ---------------------------------------------------------------------------------------------

  datatype Call = Call(key: Key, time: int)

  function After(w: Window, calls: seq<Call>, period: int): Window
    requires period > 0
    decreases |calls|
  {
    if calls == [] then w
    else
      var last := calls[|calls| - 1];
      See(After(w, calls[..|calls| - 1], period), last.key, last.time, period).0
  }

  predicate Answer(w: Window, calls: seq<Call>, i: nat, period: int)
    requires period > 0 && i < |calls|
  {
    See(After(w, calls[..i], period), calls[i].key, calls[i].time, period).1
  }

  /** Times do not go back, and start in or after the window's current generation. */
  ghost predicate Ordered(w: Window, calls: seq<Call>) {
    && (forall i :: 0 <= i < |calls| ==> w.lastSwap <= calls[i].time)
    && forall i, j :: 0 <= i <= j < |calls| ==> calls[i].time <= calls[j].time
  }

  /** The window stands at the generation of the last call. */
  lemma {:induction false} AfterLastSwap(w: Window, calls: seq<Call>, period: int)
    requires period > 0 && Ordered(w, calls) && calls != []
    ensures After(w, calls, period).lastSwap == Start(w.lastSwap, calls[|calls| - 1].time, period)
    decreases |calls|
  {
    var init, last := calls[..|calls| - 1], calls[|calls| - 1];
    CatchUpExact(After(w, init, period), last.time, period);
    if init != [] {
      AfterLastSwap(w, init, period);
      StartStable(w.lastSwap, init[|init| - 1].time, last.time, period);
    }
  }

  /** A key accepted in the generation `born` is where its age says, and nowhere else. */
  ghost predicate Aged(w: Window, key: Key, born: int, period: int) {
    && (w.lastSwap == born || w.lastSwap >= born + period)
    && (w.lastSwap == born + period || w.lastSwap < born + period || w.lastSwap >= born + 2 * period)
    && (key in w.active <==> w.lastSwap == born)
    && (w.lastSwap > born ==> (key in w.prev <==> w.lastSwap == born + period))
  }

  lemma AgedCatchUp(w: Window, key: Key, born: int, now: int, period: int)
    requires period > 0 && Aged(w, key, born, period)
    ensures Aged(CatchUp(w, now, period), key, born, period)
  {
    CatchUpExact(w, now, period);
    StartSteps(w.lastSwap, now, period);
    if now - w.lastSwap >= period {
      StartSteps(w.lastSwap + period, now, period);
    }
  }

  /** While no further call accepts the key, its age alone decides. */
  lemma {:induction false} AgedAfter(w: Window, calls: seq<Call>, i: nat, n: nat, period: int)
    requires period > 0 && Ordered(w, calls) && i < n <= |calls|
    requires Answer(w, calls, i, period)
    requires forall m :: i < m < n && calls[m].key == calls[i].key ==> !Answer(w, calls, m, period)
    ensures Aged(After(w, calls[..n], period), calls[i].key, Start(w.lastSwap, calls[i].time, period), period)
    decreases n
  {
    var key, born := calls[i].key, Start(w.lastSwap, calls[i].time, period);
    assert calls[..n][..n - 1] == calls[..n - 1] && calls[..n][n - 1] == calls[n - 1];
    if n == i + 1 {
      AfterLastSwap(w, calls[..n], period);
    } else {
      AgedAfter(w, calls, i, n - 1, period);
      AgedCatchUp(After(w, calls[..n - 1], period), key, born, calls[n - 1].time, period);
      if calls[n - 1].key == key {
        assert !Answer(w, calls, n - 1, period);
      }
    }
  }

  /**
   * Main bound. After a call that accepts a key, and until the next one that does, a call for that key
   * is refused exactly before the end of the generation after the accepting one. Refused calls in
   * between do not matter.
   */
  lemma RememberedExactly(w: Window, calls: seq<Call>, i: nat, j: nat, period: int)
    requires period > 0 && Ordered(w, calls) && i < j < |calls| && calls[i].key == calls[j].key
    requires Answer(w, calls, i, period)
    requires forall m :: i < m < j && calls[m].key == calls[i].key ==> !Answer(w, calls, m, period)
    ensures Answer(w, calls, j, period) <==> calls[j].time >= Start(w.lastSwap, calls[i].time, period) + 2 * period
  {
    var born := Start(w.lastSwap, calls[i].time, period);
    AgedAfter(w, calls, i, j, period);
    AgedCatchUp(After(w, calls[..j], period), calls[i].key, born, calls[j].time, period);
    AfterLastSwap(w, calls[..j], period);
    assert calls[..j][|calls[..j]| - 1] == calls[j - 1];
    StartStable(w.lastSwap, calls[j - 1].time, calls[j].time, period);
    CatchUpExact(After(w, calls[..j], period), calls[j].time, period);
    StartStable(w.lastSwap, calls[i].time, calls[j].time, period);
    BornAgain(born, calls[j].time, period);
  }

  lemma BornAgain(born: int, time: int, period: int)
    requires period > 0
    ensures Start(born, time, period) >= born + 2 * period <==> time >= born + 2 * period
  {
  }

  /** No call for the key between two calls was accepted. */
  ghost predicate NoneAccepted(w: Window, calls: seq<Call>, i: nat, j: nat, period: int)
    requires period > 0 && i < j < |calls|
  {
    forall m :: i < m < j && calls[m].key == calls[i].key ==> !Answer(w, calls, m, period)
  }

  /** After a call that accepts a key, every call for it within one period is refused. */
  lemma {:induction false} RefusedWithinPeriod(w: Window, calls: seq<Call>, i: nat, j: nat, period: int)
    requires period > 0 && Ordered(w, calls) && i < j < |calls| && calls[i].key == calls[j].key
    requires Answer(w, calls, i, period) && calls[j].time < calls[i].time + period
    ensures !Answer(w, calls, j, period)
    decreases j
  {
    forall m | i < m < j && calls[m].key == calls[i].key ensures !Answer(w, calls, m, period) {
      RefusedWithinPeriod(w, calls, i, m, period);
    }
    RememberedExactly(w, calls, i, j, period);
  }

  /**
   * In terms of the TTL: every call is refused for half of it, and the first one after all of it has
   * passed is accepted.
   */
  lemma WindowBound(w: Window, calls: seq<Call>, i: nat, j: nat, ttl: int)
    requires ttl >= 2 && Ordered(w, calls) && i < j < |calls| && calls[i].key == calls[j].key
    requires Answer(w, calls, i, ttl / 2)
    ensures calls[j].time < calls[i].time + ttl / 2 ==> !Answer(w, calls, j, ttl / 2)
    ensures calls[j].time >= calls[i].time + ttl && NoneAccepted(w, calls, i, j, ttl / 2)
            ==> Answer(w, calls, j, ttl / 2)
  {
    if calls[j].time < calls[i].time + ttl / 2 {
      RefusedWithinPeriod(w, calls, i, j, ttl / 2);
    } else if NoneAccepted(w, calls, i, j, ttl / 2) {
      RememberedExactly(w, calls, i, j, ttl / 2);
    }
  }

  lemma CatchUpForgets(w: Window, now: int, period: int, key: Key)
    requires period > 0 && !Remembers(w, key)
    ensures !Remembers(CatchUp(w, now, period), key)
  {
    CatchUpExact(w, now, period);
  }

  lemma {:induction false} UnseenForgotten(w: Window, calls: seq<Call>, key: Key, period: int)
    requires period > 0 && !Remembers(w, key) && forall m :: 0 <= m < |calls| ==> calls[m].key != key
    ensures !Remembers(After(w, calls, period), key)
    decreases |calls|
  {
    if calls != [] {
      var init, last := calls[..|calls| - 1], calls[|calls| - 1];
      UnseenForgotten(w, init, key, period);
      CatchUpForgets(After(w, init, period), last.time, period, key);
    }
  }

  /** A key is accepted at its first call. */
  lemma FirstSight(w: Window, calls: seq<Call>, j: nat, period: int)
    requires period > 0 && j < |calls| && !Remembers(w, calls[j].key)
    requires forall m :: 0 <= m < j ==> calls[m].key != calls[j].key
    ensures Answer(w, calls, j, period)
  {
    UnseenForgotten(w, calls[..j], calls[j].key, period);
    CatchUpForgets(After(w, calls[..j], period), calls[j].time, period, calls[j].key);
  }

  // ---------------------------------------------------------------------------------------------
  // The sharded object
  // ---------------------------------------------------------------------------------------------

  /** FNV-1a on 32 bits, from the n-th byte on. */
  function Fnv(h: bv32, key: Key, n: nat): bv32
    requires n <= |key|
    decreases |key| - n
  {
    if n == |key| then h else Fnv(Mix(h, key[n]), key, n + 1)
  }

  function Mix(h: bv32, b: bv8): bv32 {
    (h ^ (b as bv32)) * 16777619
  }

  function ShardOf(key: Key, shards: nat): (i: nat)
    requires shards > 0
    ensures i < shards
  {
    Fnv(2166136261, key, 0) as nat % shards
  }

  method Fnv1a(key: Key) returns (h: bv32)
    ensures h == Fnv(2166136261, key, 0)
  {
    h := 2166136261;
    var n := 0;
    while n < |key|
      invariant 0 <= n <= |key|
      invariant Fnv(h, key, n) == Fnv(2166136261, key, 0)
    {
      h := Mix(h, key[n]);
      n := n + 1;
    }
  }

  /** The published test vectors of the empty text, "a" and "foobar". */
  lemma FnvVectors()
    ensures Fnv(2166136261, [], 0) == 0x811c9dc5
    ensures Fnv(2166136261, [0x61], 0) == 0xe40c292c
    ensures Fnv(2166136261, [0x66, 0x6f, 0x6f, 0x62, 0x61, 0x72], 0) == 0xbf9cf968
  {
    var t: Key := [0x66, 0x6f, 0x6f, 0x62, 0x61, 0x72];
    var h1 := Mix(2166136261, t[0]);
    var h2 := Mix(h1, t[1]);
    var h3 := Mix(h2, t[2]);
    var h4 := Mix(h3, t[3]);
    var h5 := Mix(h4, t[4]);
    assert Fnv(h4, t, 4) == Fnv(h5, t, 5) == Mix(h5, t[5]);
    assert Fnv(2166136261, t, 0) == Fnv(h1, t, 1) == Fnv(h2, t, 2) == Fnv(h3, t, 3) == Fnv(h4, t, 4);
  }

  method FnvShard(key: Key, shards: nat) returns (i: nat)
    requires shards > 0
    ensures i == ShardOf(key, shards)
  {
    var h := Fnv1a(key);
    i := h as nat % shards;
  }

  /** Every key lies in the shard its hash names. */
  ghost predicate Placed(shards: seq<set<Key>>) {
    |shards| > 0 && forall i, k :: 0 <= i < |shards| && k in shards[i] ==> ShardOf(k, |shards|) == i
  }

  ghost function Union(shards: seq<set<Key>>): set<Key> {
    set i, k | 0 <= i < |shards| && k in shards[i] :: k
  }

  lemma InUnion(shards: seq<set<Key>>, key: Key)
    requires Placed(shards)
    ensures key in Union(shards) <==> key in shards[ShardOf(key, |shards|)]
  {
  }

  lemma UnionUpdate(shards: seq<set<Key>>, key: Key)
    requires Placed(shards)
    ensures var i := ShardOf(key, |shards|);
            && Placed(shards[i := shards[i] + {key}]) && Union(shards[i := shards[i] + {key}]) == Union(shards) + {key}
            && Placed(shards[i := shards[i] - {key}]) && Union(shards[i := shards[i] - {key}]) == Union(shards) - {key}
  {
    var i := ShardOf(key, |shards|);
    var more, less := shards[i := shards[i] + {key}], shards[i := shards[i] - {key}];
    forall k ensures k in Union(more) <==> k in Union(shards) || k == key {
      InUnion(shards, k);
      InUnion(more, k);
    }
    forall k ensures k in Union(less) <==> k in Union(shards) && k != key {
      InUnion(shards, k);
      InUnion(less, k);
    }
  }

  class DedupWindow {
    var active: seq<set<Key>>   // the current generation of each shard
    var prev: seq<set<Key>>     // the generation before
    const period: int
    var lastSwap: int

    ghost predicate Valid()
      reads this
    {
      period > 0 && |active| == |prev| && Placed(active) && Placed(prev)
    }

    /** The one window that the shards stand for. */
    ghost function Contents(): Window
      reads this
    {
      Window(Union(active), Union(prev), lastSwap)
    }

    constructor (ttl: int, shards: int, now: int)
      ensures ttl != 1 ==> Valid()
      ensures Contents() == Window({}, {}, now)
      ensures period == (if ttl <= 0 then 60_000_000_000 else ttl) / 2
      ensures |active| == if shards <= 0 then 64 else shards
    {
      var n: nat := if shards <= 0 then DEFAULT_SHARDS else shards;
      period := (if ttl <= 0 then DEFAULT_TTL else ttl) / 2;
      active := seq(n, _ => {});
      prev := seq(n, _ => {});
      lastSwap := now;
    }

    /** swapLocked and the step of lastSwap. */
    method SwapGenerations()
      requires Valid()
      modifies this
      ensures Valid() && Contents() == Swap(old(Contents()), period)
    {
      var i := 0;
      while i < |active|
        invariant 0 <= i <= |active| == |prev| == |old(active)| && lastSwap == old(lastSwap)
        invariant forall k :: 0 <= k < i ==> prev[k] == old(active)[k] && active[k] == {}
        invariant forall k :: i <= k < |active| ==> active[k] == old(active)[k]
      {
        prev := prev[i := active[i]];
        active := active[i := {}];
        i := i + 1;
      }
      assert prev == old(active);
      assert Union(active) == {};
      lastSwap := lastSwap + period;
    }

    method Seen(key: Key, now: int) returns (fresh': bool)
      requires Valid()
      modifies this
      ensures Valid() && (Contents(), fresh') == See(old(Contents()), key, now, period)
    {
      while now - lastSwap >= period
        invariant Valid()
        invariant CatchUp(Contents(), now, period) == CatchUp(old(Contents()), now, period)
        decreases now - lastSwap
      {
        SwapGenerations();
      }
      InUnion(active, key);
      InUnion(prev, key);
      UnionUpdate(active, key);
      var i := FnvShard(key, |active|);
      if key in active[i] {
        return false;
      }
      if key in prev[i] {
        return false;
      }
      active := active[i := active[i] + {key}];
      return true;
    }

    method Unmark(key: Key)
      requires Valid()
      modifies this
      ensures Valid() && Contents() == Forget(old(Contents()), key)
      ensures forall k :: Remembers(Contents(), k) <==> k != key && Remembers(old(Contents()), k)
    {
      UnionUpdate(active, key);
      UnionUpdate(prev, key);
      var i := FnvShard(key, |active|);
      active := active[i := active[i] - {key}];
      prev := prev[i := prev[i] - {key}];
    }
  }
}
