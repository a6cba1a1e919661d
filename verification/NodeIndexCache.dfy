/**
 * The short-lived cache of the node index: a concurrent map and a separate size counter. First the
 * object, with operations that do not overlap; then every interleaving of its atomic operations.
 */
module NodeIndexCache {
  import opened Options

  datatype Key = Key(app: string, ns: string, user: string)
  type Nodes = seq<string>
  datatype Entry = Entry(nodes: Nodes, expireAt: int)

  const DEFAULT_TTL: int := 300_000_000
  const DEFAULT_MAX: int := 0x40000

  function Lifetime(ttl: int): int {
    if ttl <= 0 then DEFAULT_TTL else ttl
  }

  function Capacity(max: int): int {
    if max <= 0 then DEFAULT_MAX else max
  }

  lemma SubsetSize<T>(a: set<T>, b: set<T>)
    requires a <= b
    ensures |a| <= |b|
  {
    if a != {} {
      var x :| x in a;
      SubsetSize(a - {x}, b - {x});
    }
  }

  datatype Stored = Stored(nodes: Nodes, time: int)

  class Cache {
    const ttl: int
    const max: int
    var entries: map<Key, Entry>
    var size: int
    ghost var latest: map<Key, Stored>  // the last store of each key

    /** The counter is exact, the capacity is kept, and every entry is its key's last store. */
    ghost predicate Valid()
      reads this
    {
      && size == |entries| <= Capacity(max)
      && forall k ::
          k in entries ==> k in latest && entries[k] == Entry(latest[k].nodes, latest[k].time + Lifetime(ttl))
    }

    constructor (ttl: int, max: int)
      ensures Valid() && entries == map[] && this.ttl == ttl && this.max == max
    {
      this.ttl, this.max := ttl, max;
      entries, size, latest := map[], 0, map[];
    }

    /** A hit is the last store for the key and not older than the lifetime; an expired entry goes. */
    method Load(key: Key, now: int) returns (r: Option<Nodes>)
      requires Valid()
      modifies this
      ensures Valid() && latest == old(latest)
      ensures r.Some? ==> key in latest && r.value == latest[key].nodes && now <= latest[key].time + Lifetime(ttl)
      ensures r.Some? <==> key in old(entries) && now <= old(entries)[key].expireAt
      ensures entries == if key in old(entries) && r == None then old(entries) - {key} else old(entries)
    {
      if key !in entries {
        return None;
      }
      var e := entries[key];
      if now > e.expireAt {
        assert (entries - {key}).Keys == entries.Keys - {key};
        entries := entries - {key};
        size := size - 1;
        return None;
      }
      return Some(e.nodes);
    }

    /** evictExpired. */
    method EvictExpired(now: int) returns (count: int)
      requires size == |entries|
      modifies this`entries, this`size
      ensures entries == map k | k in old(entries) && old(entries)[k].expireAt >= now :: old(entries)[k]
      ensures size == count == |entries|
    {
      var rest := entries.Keys;
      while rest != {}
        invariant size == |entries|
        invariant rest <= old(entries).Keys
        invariant forall k :: k in entries <==> k in old(entries) && (k in rest || old(entries)[k].expireAt >= now)
        invariant forall k :: k in entries ==> entries[k] == old(entries)[k]
        decreases |rest|
      {
        var k :| k in rest;
        if entries[k].expireAt < now {
          assert (entries - {k}).Keys == entries.Keys - {k};
          entries := entries - {k};
          size := size - 1;
        }
        rest := rest - {k};
      }
      count := size;
    }

    /** The sweep when an insert exceeds the capacity; the new entry goes again if that frees no room. */
    method MakeRoom(key: Key, later: int)
      requires size == |entries| == Capacity(max) + 1 && key in entries
      modifies this`entries, this`size
      ensures size == |entries| <= Capacity(max)
      ensures forall k :: k in entries ==> k in old(entries) && entries[k] == old(entries)[k]
      ensures forall k :: k != key && k in old(entries) && k !in entries ==> old(entries)[k].expireAt < later
      ensures key !in entries ==> |entries| == Capacity(max) || later > old(entries)[key].expireAt
      ensures forall k :: k in entries ==> entries[k].expireAt >= later
    {
      var e := entries[key];
      var left := EvictExpired(later);
      SubsetSize(entries.Keys - {key}, old(entries).Keys - {key});
      if left > Capacity(max) && key in entries && entries[key] == e {
        assert (entries - {key}).Keys == entries.Keys - {key};
        entries := entries - {key};
        size := size - 1;
      }
    }

    /** A key that was not there: counted, and swept for when that exceeds the capacity. */
    method Insert(key: Key, e: Entry, later: int)
      requires size == |entries| <= Capacity(max) && key !in entries
      modifies this`entries, this`size
      ensures size == |entries| <= Capacity(max)
      ensures forall k ::
          k in entries ==> if k == key then entries[k] == e else k in old(entries) && entries[k] == old(entries)[k]
      ensures forall k :: k in old(entries) && k !in entries ==> old(entries)[k].expireAt < later
      ensures key !in entries ==> |entries| == Capacity(max) || later > e.expireAt
      ensures |old(entries)| < Capacity(max) ==> entries == old(entries)[key := e]
      ensures |old(entries)| == Capacity(max) ==> forall k :: k in entries ==> entries[k].expireAt >= later
    {
      entries := entries[key := e];
      size := size + 1;
      if size > Capacity(max) {
        MakeRoom(key, later);
      }
    }

    /** Stores, or, when the cache is full of live entries, leaves the key out. `later` is the time of the sweep. */
    method Store(key: Key, nodes: Nodes, now: int, later: int)
      requires Valid() && now <= later
      modifies this
      ensures Valid() && latest == old(latest)[key := Stored(nodes, now)]
      ensures key in entries ==> entries[key] == Entry(nodes, now + Lifetime(ttl))
      ensures forall k :: k != key && k in old(entries) && k !in entries ==> old(entries)[k].expireAt < later
      ensures forall k :: k != key && k in entries ==> k in old(entries) && entries[k] == old(entries)[k]
      ensures key !in entries ==> |entries| == Capacity(max) || later > now + Lifetime(ttl)
      ensures key in old(entries) || |old(entries)| < Capacity(max)
              ==> entries == old(entries)[key := Entry(nodes, now + Lifetime(ttl))]
      ensures key !in old(entries) && |old(entries)| == Capacity(max)
              ==> forall k :: k in entries ==> entries[k].expireAt >= later
    {
      var e := Entry(nodes, now + Lifetime(ttl));
      latest := latest[key := Stored(nodes, now)];
      if key in entries {
        entries := entries[key := e];
      } else {
        Insert(key, e, later);
      }
    }
  }

  // ---------------------------------------------------------------------------------------------
  // Every interleaving
  // ---------------------------------------------------------------------------------------------

  /** Entries are objects, numbered as they are made. */
  datatype Made = Made(key: Key, nodes: Nodes, expireAt: int)

  /** What a thread does next. */
  datatype Pc =
    | Loading(key: Key)
    | Stale(key: Key, entry: nat)               // saw an expired entry, about to delete just that one
    | Storing(key: Key, entry: nat)             // about to swap the entry in
    | Inserted(key: Key, entry: nat)            // the key was new: about to count it
    | Sweeping(key: Key, entry: nat, todo: set<Key>)
    | Swept(key: Key, entry: nat, todo: set<Key>, victim: Key, seen: nat)
    | Reverting(key: Key, entry: nat)           // the sweep freed no room
    | Deleted(then': Pc)                        // deleted an entry, about to discount it
    | Hit(entry: nat)
    | Finished

  datatype State = State(entries: map<Key, nat>, size: int, made: seq<Made>, latest: map<Key, nat>, threads: seq<Pc>)

  const Start: State := State(map[], 0, [], map[], [])

  /** What the thread still has to add to the counter. */
  function Debt(pc: Pc): int {
    if pc.Inserted? then 1 else if pc.Deleted? then -1 else 0
  }

  function Debts(threads: seq<Pc>): int {
    if threads == [] then 0 else Debts(threads[..|threads| - 1]) + Debt(threads[|threads| - 1])
  }

  datatype Action =
    | BeginLoad(key: Key)
    | BeginStore(key: Key, nodes: Nodes, now: int, ttl: int)
    | Step(thread: nat, now: int, max: int, victim: Key)

  predicate Expired(s: State, entry: nat, now: int) {
    entry < |s.made| && now > s.made[entry].expireAt
  }

  /** CompareAndDelete: only this very entry. */
  function CompareAndDelete(s: State, key: Key, entry: nat, success: Pc, failure: Pc): (State, Pc) {
    if key in s.entries
        && s.entries[key] == entry then (s.(entries := s.entries - {key}), Deleted(success)) else (s, failure)
  }

  /** One atomic operation of a thread: the new shared state and what the thread does next. */
  function Next(s: State, pc: Pc, now: int, max: int, victim: Key): (State, Pc) {
    match pc
    case Loading(key) =>
      if key !in s.entries then (s, Finished)
      else if Expired(s, s.entries[key], now) then (s, Stale(key, s.entries[key]))
      else (s, Hit(s.entries[key]))
    case Stale(key, entry) => CompareAndDelete(s, key, entry, Finished, Finished)
    case Storing(key, entry) =>
      (s.(entries := s.entries[key := entry], latest := s.latest[key := entry]),
       if key in s.entries then Finished else Inserted(key, entry))
    case Inserted(key, entry) =>
      (s.(size := s.size + 1), if s.size + 1 > Capacity(max) then Sweeping(key, entry, s.entries.Keys) else Finished)
    case Sweeping(key, entry, todo) =>
      if todo == {} then (s, if s.size > Capacity(max) then Reverting(key, entry) else Finished)
      else if victim !in todo then (s, pc)
      else if victim !in s.entries then (s, Sweeping(key, entry, todo - {victim}))
      else (s, Swept(key, entry, todo - {victim}, victim, s.entries[victim]))
    case Swept(key, entry, todo, v, seen) =>
      if Expired(s, seen, now) then CompareAndDelete(s, v, seen, Sweeping(key, entry, todo), Sweeping(key, entry, todo))
      else (s, Sweeping(key, entry, todo))
    case Reverting(key, entry) => CompareAndDelete(s, key, entry, Finished, Finished)
    case Deleted(next) => (s.(size := s.size - 1), next)
    case Hit(_) => (s, pc)
    case Finished => (s, pc)
  }

  function Apply(s: State, a: Action): State {
    match a
    case BeginLoad(key) => s.(threads := s.threads + [Loading(key)])
    case BeginStore(key, nodes, now, ttl) =>
      s.(made := s.made + [Made(key, nodes, now + Lifetime(ttl))], threads := s.threads + [Storing(key, |s.made|)])
    case Step(i, now, max, victim) =>
      if i < |s.threads| then
        var (t, pc) := Next(s, s.threads[i], now, max, victim);
        t.(threads := s.threads[i := pc])
      else s
  }

  function Run(actions: seq<Action>): State
    decreases |actions|
  {
    if actions == [] then Start else Apply(Run(actions[..|actions| - 1]), actions[|actions| - 1])
  }

  /** The counter lags behind the map by exactly what threads still owe it. */
  ghost predicate Conserved(s: State) {
    |s.entries| == s.size + Debts(s.threads)
  }

  /** What the map holds for a key is its last store, an entry made for that key. */
  ghost predicate Fresh(s: State) {
    && (forall k :: k in s.entries ==> k in s.latest && s.latest[k] == s.entries[k])
    && forall k :: k in s.latest ==> s.latest[k] < |s.made| && s.made[s.latest[k]].key == k
  }

  predicate Sound(pc: Pc, made: seq<Made>) {
    (pc.Deleted? ==> pc.then'.Finished? || pc.then'.Sweeping?)
        && (pc.Storing? ==> pc.entry < |made| && made[pc.entry].key == pc.key)
  }

  ghost predicate AllSound(s: State) {
    forall i :: 0 <= i < |s.threads| ==> Sound(s.threads[i], s.made)
  }

  ghost predicate Inv(s: State) {
    Conserved(s) && Fresh(s) && AllSound(s)
  }

  lemma {:induction false} DebtsUpdate(threads: seq<Pc>, i: nat, pc: Pc)
    requires i < |threads|
    ensures Debts(threads[i := pc]) == Debts(threads) - Debt(threads[i]) + Debt(pc)
    decreases |threads|
  {
    var n := |threads| - 1;
    if i < n {
      DebtsUpdate(threads[..n], i, pc);
      assert threads[i := pc][..n] == threads[..n][i := pc];
    } else {
      assert threads[i := pc][..n] == threads[..n];
    }
  }

  lemma CompareAndDeleteConserves(s: State, key: Key, entry: nat, then': Pc)
    requires Debt(then') == 0
    ensures var (t, pc) := CompareAndDelete(s, key, entry, then', then');
            |t.entries| == |s.entries| + Debt(pc) && t == s.(entries := t.entries)
  {
  }

  /** Whatever one atomic operation does to the map and the counter, it owes the difference. */
  predicate Balanced(s: State, pc: Pc, t: State, pc': Pc) {
    |t.entries| - |s.entries| == t.size - s.size + Debt(pc') - Debt(pc)
  }

  lemma DeletionBalanced(s: State, pc: Pc, now: int, max: int, victim: Key)
    requires pc.Stale? || pc.Swept? || pc.Reverting?
    ensures var (t, pc') := Next(s, pc, now, max, victim); Balanced(s, pc, t, pc')
  {
    match pc
    case Stale(key, entry) => CompareAndDeleteConserves(s, key, entry, Finished);
    case Swept(key, entry, todo, v, seen) => CompareAndDeleteConserves(s, v, seen, Sweeping(key, entry, todo));
    case Reverting(key, entry) => CompareAndDeleteConserves(s, key, entry, Finished);
  }

  lemma NextConserves(s: State, pc: Pc, now: int, max: int, victim: Key)
    requires Sound(pc, s.made)
    ensures var (t, pc') := Next(s, pc, now, max, victim); Balanced(s, pc, t, pc')
  {
    if pc.Stale? || pc.Swept? || pc.Reverting? {
      DeletionBalanced(s, pc, now, max, victim);
    } else if pc.Storing? {
      assert |s.entries[pc.key := pc.entry]| == |s.entries| + if pc.key in s.entries then 0 else 1;
    }
  }

  lemma NextSound(s: State, pc: Pc, now: int, max: int, victim: Key)
    requires Fresh(s) && Sound(pc, s.made)
    ensures var (t, pc') := Next(s, pc, now, max, victim);
            Fresh(t) && t.made == s.made && Sound(pc', s.made)
  {
  }

  lemma ThreadKeeps(s: State, i: nat, now: int, max: int, victim: Key)
    requires Inv(s) && i < |s.threads|
    ensures Inv(Apply(s, Step(i, now, max, victim)))
  {
    assert Sound(s.threads[i], s.made);
    var (t, pc) := Next(s, s.threads[i], now, max, victim);
    NextConserves(s, s.threads[i], now, max, victim);
    NextSound(s, s.threads[i], now, max, victim);
    DebtsUpdate(s.threads, i, pc);
    assert Apply(s, Step(i, now, max, victim)) == t.(threads := s.threads[i := pc]);
  }

  lemma SpawnKeeps(s: State, pc: Pc, made: seq<Made>)
    requires Inv(s) && Debt(pc) == 0 && s.made <= made && Sound(pc, made)
    ensures Inv(s.(threads := s.threads + [pc], made := made))
  {
  }

  lemma StepKeeps(s: State, a: Action)
    requires Inv(s)
    ensures Inv(Apply(s, a))
  {
    if a.BeginLoad? {
      SpawnKeeps(s, Loading(a.key), s.made);
    } else if a.BeginStore? {
      SpawnKeeps(s, Storing(a.key, |s.made|), s.made + [Made(a.key, a.nodes, a.now + Lifetime(a.ttl))]);
    } else if a.thread < |s.threads| {
      ThreadKeeps(s, a.thread, a.now, a.max, a.victim);
    }
  }

  /** After every interleaving of loads, stores and sweeps the counter is exact up to what is owed. */
  lemma {:induction false} SizeConserved(actions: seq<Action>)
    ensures Inv(Run(actions))
    decreases |actions|
  {
    if actions != [] {
      SizeConserved(actions[..|actions| - 1]);
      StepKeeps(Run(actions[..|actions| - 1]), actions[|actions| - 1]);
    }
  }

  lemma {:induction false} NoDebts(threads: seq<Pc>)
    requires forall i :: 0 <= i < |threads| ==> Debt(threads[i]) == 0
    ensures Debts(threads) == 0
    decreases |threads|
  {
    if threads != [] {
      NoDebts(threads[..|threads| - 1]);
    }
  }

  /** When all operations have finished the counter is the number of entries. */
  lemma QuietSizeExact(actions: seq<Action>)
    requires forall i ::
        0 <= i < |Run(actions).threads| ==> Run(actions).threads[i].Hit? || Run(actions).threads[i].Finished?
    ensures Run(actions).size == |Run(actions).entries|
  {
    SizeConserved(actions);
    NoDebts(Run(actions).threads);
  }

  /** A load that hits at this moment gets the last entry swapped in for its key, not past its time. */
  lemma HitIsLatest(actions: seq<Action>, key: Key, now: int, max: int, victim: Key)
    requires Next(Run(actions), Loading(key), now, max, victim).1.Hit?
    ensures var s, e := Run(actions), Next(Run(actions), Loading(key), now, max, victim).1.entry;
            key in s.latest && s.latest[key] == e && e < |s.made| && s.made[e].key == key && now <= s.made[e].expireAt
  {
    SizeConserved(actions);
  }

  // ---------------------------------------------------------------------------------------------
  // One thread with nothing between its steps
  // ---------------------------------------------------------------------------------------------

  /** Thread i does its next n operations. */
  function Alone(s: State, i: nat, n: nat, now: int, max: int, victim: Key): State
    decreases n
  {
    if n == 0 then s else Apply(Alone(s, i, n - 1, now, max, victim), Step(i, now, max, victim))
  }

  /** A store of a key that is there, or for which there is room, swaps the entry in and counts a new key. */
  lemma StoreAlone(s: State, key: Key, nodes: Nodes, now: int, ttl: int, max: int, victim: Key)
    requires key in s.entries || s.size < Capacity(max)
    ensures var i, e := |s.threads|, |s.made|;
            var t := Alone(Apply(s, BeginStore(key, nodes, now, ttl)), i, 2, now, max, victim);
            && t.entries == s.entries[key := e] && t.size == s.size + (if key in s.entries then 0 else 1)
            && t.made == s.made + [Made(key, nodes, now + if ttl <= 0 then 300_000_000 else ttl)]
            && t.threads == s.threads + [Finished]
  {
    var i, e := |s.threads|, |s.made|;
    var begun := Apply(s, BeginStore(key, nodes, now, ttl));
    var one := Alone(begun, i, 1, now, max, victim);
    assert Alone(begun, i, 0, now, max, victim) == begun;
    assert begun.threads[i] == Storing(key, e);
    assert one.threads[i] == if key in s.entries then Finished else Inserted(key, e);
    assert Alone(begun, i, 2, now, max, victim) == Apply(one, Step(i, now, max, victim));
  }

  /** A load hits exactly if the key is there and its entry not past its time; an entry past it goes. */
  lemma LoadAlone(s: State, key: Key, now: int, max: int, victim: Key)
    requires key in s.entries ==> s.entries[key] < |s.made|
    ensures var i := |s.threads|;
            var t := Alone(Apply(s, BeginLoad(key)), i, 3, now, max, victim);
            if key !in s.entries then t == s.(threads := s.threads + [Finished])
            else if now <= s.made[s.entries[key]].expireAt then t == s.(threads := s.threads + [Hit(s.entries[key])])
            else t == s.(entries := s.entries - {key}, size := s.size - 1, threads := s.threads + [Finished])
  {
    var i := |s.threads|;
    var begun := Apply(s, BeginLoad(key));
    var one, two := Alone(begun, i, 1, now, max, victim), Alone(begun, i, 2, now, max, victim);
    assert Alone(begun, i, 0, now, max, victim) == begun;
    assert two == Apply(one, Step(i, now, max, victim));
    assert Alone(begun, i, 3, now, max, victim) == Apply(two, Step(i, now, max, victim));
  }

  /** What was stored is what is loaded, for its lifetime and no longer. */
  lemma StoredIsLoaded(s: State, key: Key, nodes: Nodes, now: int, ttl: int, later: int, max: int, victim: Key)
    requires key in s.entries || s.size < Capacity(max)
    ensures var e := |s.made|;
            var stored := Alone(Apply(s, BeginStore(key, nodes, now, ttl)), |s.threads|, 2, now, max, victim);
            var loaded := Alone(Apply(stored, BeginLoad(key)), |s.threads| + 1, 3, later, max, victim);
            && |loaded.threads| == |s.threads| + 2 && e < |loaded.made| && loaded.made[e].nodes == nodes
            && (loaded.threads[|s.threads| + 1] == Hit(e) <==> later <= now + if ttl <= 0 then 300_000_000 else ttl)
            && (loaded.threads[|s.threads| + 1] == Hit(e) || key !in loaded.entries)
  {
    StoreAlone(s, key, nodes, now, ttl, max, victim);
    LoadAlone(Alone(Apply(s, BeginStore(key, nodes, now, ttl)), |s.threads|, 2, now, max, victim),
              key, later, max, victim);
  }

  /** A sweep takes each key it looks at out if its entry is past its time, and leaves it otherwise. */
  lemma VictimSwept(s: State, i: nat, now: int, max: int, victim: Key)
    requires i < |s.threads| && s.threads[i].Sweeping? && victim in s.threads[i].todo
    requires victim in s.entries && s.entries[victim] < |s.made|
    ensures var pc := Sweeping(s.threads[i].key, s.threads[i].entry, s.threads[i].todo - {victim});
            if now > s.made[s.entries[victim]].expireAt
            then Alone(s, i, 3, now, max, victim)
                 == s.(entries := s.entries - {victim}, size := s.size - 1, threads := s.threads[i := pc])
            else Alone(s, i, 2, now, max, victim) == s.(threads := s.threads[i := pc])
  {
    var one, two := Alone(s, i, 1, now, max, victim), Alone(s, i, 2, now, max, victim);
    assert Alone(s, i, 0, now, max, victim) == s;
    assert two == Apply(one, Step(i, now, max, victim));
    assert Alone(s, i, 3, now, max, victim) == Apply(two, Step(i, now, max, victim));
    assert one.threads[i].Swept?;
  }

  /** After its sweep the thread takes its own entry out again exactly if there are still too many. */
  lemma RevertAlone(s: State, i: nat, now: int, max: int, victim: Key)
    requires i < |s.threads| && s.threads[i].Sweeping? && s.threads[i].todo == {}
    ensures var key, entry := s.threads[i].key, s.threads[i].entry;
            var reverts := s.size > Capacity(max) && key in s.entries && s.entries[key] == entry;
            Alone(s, i, 3, now, max, victim)
            == s.(entries := if reverts then s.entries - {key} else s.entries,
                  size := if reverts then s.size - 1 else s.size, threads := s.threads[i := Finished])
  {
    var one, two := Alone(s, i, 1, now, max, victim), Alone(s, i, 2, now, max, victim);
    assert Alone(s, i, 0, now, max, victim) == s;
    assert two == Apply(one, Step(i, now, max, victim));
    assert Alone(s, i, 3, now, max, victim) == Apply(two, Step(i, now, max, victim));
  }
}
