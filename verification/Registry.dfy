/**
 * The connection registry: the main store user -> client id -> client, and everything derived from
 * it: the reverse index, the SSE / observer / agent stores, the observer scope index, the
 * reference-counted inverted indexes and the counters.
 *
 * The sharding of the maps is not modelled: a shard lock makes each map operation atomic.
 */
module Registry {
  import opened Options
  import opened RefIndex

  type ClientId = string

  /** What a connection says about itself when it registers; it does not change afterwards. */
  datatype Attributes = Attributes(
    app: string, ns: string, group: string, groups: seq<string>,
    sse: bool, userType: string, role: string, clientType: string, department: string)

  /**
   * A registered connection. `conn` is the identity of the connection object; `id` may be reused by
   * a reconnect. The routing facts (`keys` to `scope`) follow from the attributes, see ConnectionRouting.
   */
  datatype Client = Client(
    conn: nat, id: ClientId, user: UserId, attrs: Attributes,
    keys: seq<Key>, sse: bool, observer: bool, agent: bool, scope: Scope)

  type Clients = map<ClientId, Client>
  type Store = map<UserId, Clients>

  /** What an observer watches: everything, one namespace, or one group of a namespace. */
  datatype Scope = Everything | InNamespace(ns: string) | InGroup(ns: string, group: string)

  datatype State = State(
    observersOn: bool, agentsOn: bool,
    users: Store, owner: map<ClientId, UserId>, clientCount: int, userCount: int,
    sse: Store, sseCount: int,
    observers: Store, observerCount: int, scopes: map<Scope, Clients>,
    agents: Store, agentCount: int,
    index: Index)

  function Empty(observersOn: bool, agentsOn: bool): State {
    State(observersOn, agentsOn, map[], map[], 0, 0, map[], 0, map[], 0, map[], map[], 0, map[])
  }

  datatype Kind = Sse | Observer | Agent

  predicate Is(kind: Kind, c: Client) {
    match kind
    case Sse => c.sse
    case Observer => c.observer
    case Agent => c.agent
  }

  // ---------------------------------------------------------------------------------------------
  // Operations
  // ---------------------------------------------------------------------------------------------

  function Bucket<K>(m: map<K, Clients>, k: K): Clients {
    if k in m then m[k] else map[]
  }

  function Put<K>(m: map<K, Clients>, k: K, c: Client): map<K, Clients> {
    m[k := Bucket(m, k)[c.id := c]]
  }

  function Drop<K>(m: map<K, Clients>, k: K, id: ClientId): map<K, Clients> {
    if k !in m then m
    else if m[k] - {id} == map[] then m - {k}
    else m[k := m[k] - {id}]
  }

  predicate In(users: Store, user: UserId, id: ClientId) {
    id in Bucket(users, user)
  }

  /** Main store and reverse index. */
  function Enroll(s: State, c: Client): State {
    s.(users := Put(s.users, c.user, c),
       userCount := s.userCount + (if c.user in s.users then 0 else 1),
       owner := s.owner[c.id := c.user])
  }

  /** The classified stores are always refreshed; their user counts grow with new users only. */
  function Classify(s: State, c: Client, isNew: bool): State {
    var observer := s.observersOn && c.observer;
    var agent := s.agentsOn && c.agent;
    s.(sse := if c.sse then Put(s.sse, c.user, c) else s.sse,
       sseCount := s.sseCount + (if c.sse && isNew then 1 else 0),
       observers := if observer then Put(s.observers, c.user, c) else s.observers,
       observerCount := s.observerCount + (if observer && c.user !in s.observers then 1 else 0),
       scopes := if observer then Put(s.scopes, c.scope, c) else s.scopes,
       agents := if agent then Put(s.agents, c.user, c) else s.agents,
       agentCount := s.agentCount + (if agent && c.user !in s.agents then 1 else 0))
  }

  /** The client count and the inverted indexes change only for a new registration. */
  function CountIn(s: State, c: Client, isNew: bool): State {
    if isNew then s.(clientCount := s.clientCount + 1, index := IncrementAll(s.index, c.keys, c.user)) else s
  }

  /** AddClient. */
  function Add(s: State, c: Client): State {
    var isNew := !In(s.users, c.user, c.id);
    CountIn(Classify(Enroll(s, c), c, isNew), c, isNew)
  }

  function Withdraw(s: State, c: Client): State {
    s.(users := Drop(s.users, c.user, c.id),
       userCount := s.userCount - (if c.user in Drop(s.users, c.user, c.id) then 0 else 1))
  }

  function Declassify(s: State, c: Client): State {
    var observer := s.observersOn && c.observer;
    var agent := s.agentsOn && c.agent;
    s.(sse := if c.sse then Drop(s.sse, c.user, c.id) else s.sse,
       sseCount := s.sseCount - (if c.sse then 1 else 0),
       observers := if observer then Drop(s.observers, c.user, c.id) else s.observers,
       observerCount := s.observerCount
         - (if observer && c.user in s.observers && c.user !in Drop(s.observers, c.user, c.id) then 1 else 0),
       scopes := if observer then Drop(s.scopes, c.scope, c.id) else s.scopes,
       agents := if agent then Drop(s.agents, c.user, c.id) else s.agents,
       agentCount := s.agentCount
         - (if agent && c.user in s.agents && c.user !in Drop(s.agents, c.user, c.id) then 1 else 0))
  }

  function CountOut(s: State, c: Client): State {
    s.(owner := s.owner - {c.id}, clientCount := s.clientCount - 1, index := DecrementAll(s.index, c.keys, c.user))
  }

  /** RemoveClient for a registered id; `c` is the client found there. */
  function Discard(s: State, c: Client): State {
    CountOut(Declassify(Withdraw(s, c), c), c)
  }

  function Remove(s: State, id: ClientId, user: UserId): State {
    if In(s.users, user, id) then Discard(s, s.users[user][id]) else s
  }

  // ---------------------------------------------------------------------------------------------
  // What everything else must be, given the main store
  // ---------------------------------------------------------------------------------------------

  /** All keys of some clients, with multiplicity. */
  ghost function Bag(cs: Clients): multiset<Key> {
    if cs == map[] then multiset{}
    else
      var id :| id in cs;
      multiset(cs[id].keys) + Bag(cs - {id})
  }

  ghost predicate NonEmpty<K(!new)>(m: map<K, Clients>) {
    forall k :: k in m ==> m[k] != map[]
  }

  ghost predicate WellKeyed(users: Store) {
    NonEmpty(users) && forall u, id :: In(users, u, id) ==> users[u][id].user == u && users[u][id].id == id
  }

  /** The reverse index is the inverse of the main store. */
  ghost predicate Inverse(users: Store, owner: map<ClientId, UserId>) {
    forall u, id :: (id in owner && owner[id] == u) <==> In(users, u, id)
  }

  /** Each reference count is the number of registrations of the user that carry the key. */
  ghost predicate Indexed(index: Index, users: Store) {
    Canonical(index) && forall k, u :: Count(index, k, u) == Bag(Bucket(users, u))[k]
  }

  function Only(kind: Kind, cs: Clients): Clients {
    map id | id in cs && Is(kind, cs[id]) :: cs[id]
  }

  /** The users with at least one client of the kind, and those clients. */
  function Filter(kind: Kind, users: Store): Store {
    map u | u in users && Only(kind, users[u]) != map[] :: Only(kind, users[u])
  }

  function Lookup(cs: Clients, id: ClientId): Option<Client> {
    if id in cs then Some(cs[id]) else None
  }

  /** The client registered under an id. */
  function Find(users: Store, owner: map<ClientId, UserId>, id: ClientId): Option<Client> {
    if id in owner then Lookup(Bucket(users, owner[id]), id) else None
  }

  ghost function SseIds(users: Store, owner: map<ClientId, UserId>): set<ClientId> {
    set id | id in owner && Find(users, owner, id).Some? && Find(users, owner, id).value.sse
  }

  predicate Watches(found: Option<Client>, scope: Scope) {
    found.Some? && found.value.observer && found.value.scope == scope
  }

  predicate ScopedAt(scopes: map<Scope, Clients>, found: Option<Client>, scope: Scope, id: ClientId) {
    Lookup(Bucket(scopes, scope), id) == if Watches(found, scope) then found else None
  }

  /** The scope index holds, under each scope, exactly the registered observers of that scope. */
  ghost predicate Scoped(scopes: map<Scope, Clients>, users: Store, owner: map<ClientId, UserId>) {
    NonEmpty(scopes) && forall scope, id :: ScopedAt(scopes, Find(users, owner, id), scope, id)
  }

  ghost predicate MainExact(s: State) {
    WellKeyed(s.users) && Inverse(s.users, s.owner) && s.userCount == |s.users| && s.clientCount == |s.owner|
  }

  ghost predicate IndexExact(s: State) {
    Indexed(s.index, s.users)
  }

  ghost predicate SseExact(s: State) {
    s.sse == Filter(Sse, s.users) && s.sseCount == |SseIds(s.users, s.owner)|
  }

  ghost predicate ObserversExact(s: State) {
    s.observers == (if s.observersOn then Filter(Observer, s.users) else map[]) && s.observerCount == |s.observers|
  }

  ghost predicate ScopesExact(s: State) {
    if s.observersOn then Scoped(s.scopes, s.users, s.owner) else s.scopes == map[]
  }

  ghost predicate AgentsExact(s: State) {
    s.agents == (if s.agentsOn then Filter(Agent, s.users) else map[]) && s.agentCount == |s.agents|
  }

  /** Everything derived is exactly what the main store says, and every counter is the size it stands for. */
  ghost predicate Inv(s: State) {
    MainExact(s) && IndexExact(s) && SseExact(s) && ObserversExact(s) && ScopesExact(s) && AgentsExact(s)
  }

  // ---------------------------------------------------------------------------------------------
  // Buckets
  // ---------------------------------------------------------------------------------------------

  lemma BucketPut<K>(m: map<K, Clients>, k: K, c: Client, k': K)
    ensures Bucket(Put(m, k, c), k') == if k' == k then Bucket(m, k)[c.id := c] else Bucket(m, k')
  {
  }

  lemma BucketDrop<K>(m: map<K, Clients>, k: K, id: ClientId, k': K)
    ensures Bucket(Drop(m, k, id), k') == if k' == k then Bucket(m, k) - {id} else Bucket(m, k')
  {
  }

  lemma PutShape<K(!new)>(m: map<K, Clients>, k: K, c: Client)
    requires NonEmpty(m)
    ensures NonEmpty(Put(m, k, c))
    ensures |Put(m, k, c)| == |m| + if k in m then 0 else 1
  {
  }

  lemma DropShape<K(!new)>(m: map<K, Clients>, k: K, id: ClientId)
    requires NonEmpty(m)
    ensures NonEmpty(Drop(m, k, id))
    ensures |Drop(m, k, id)| == |m| - if k in m && k !in Drop(m, k, id) then 1 else 0
    ensures k in Drop(m, k, id) ==> k in m
  {
  }

  lemma BucketsDetermine<K(!new)>(a: map<K, Clients>, b: map<K, Clients>)
    requires NonEmpty(a) && NonEmpty(b)
    requires forall k :: Bucket(a, k) == Bucket(b, k)
    ensures a == b
  {
    forall k ensures k in a <==> k in b {
      assert Bucket(a, k) == Bucket(b, k);
    }
    assert a.Keys == b.Keys;
    forall k | k in a ensures a[k] == b[k] {
      assert Bucket(a, k) == Bucket(b, k);
    }
  }

  /** Dropping what is not there changes nothing. */
  lemma DropAbsent<K(!new)>(m: map<K, Clients>, k: K, id: ClientId)
    requires NonEmpty(m) && id !in Bucket(m, k)
    ensures Drop(m, k, id) == m
  {
    if k in m {
      assert m[k] - {id} == m[k];
    }
  }

  // ---------------------------------------------------------------------------------------------
  // Each derived part under Put and Drop of the main store
  // ---------------------------------------------------------------------------------------------

  lemma InversePut(users: Store, owner: map<ClientId, UserId>, c: Client)
    requires WellKeyed(users) && Inverse(users, owner)
    requires c.id in owner ==> owner[c.id] == c.user
    ensures WellKeyed(Put(users, c.user, c)) && Inverse(Put(users, c.user, c), owner[c.id := c.user])
  {
    var users', owner' := Put(users, c.user, c), owner[c.id := c.user];
    PutShape(users, c.user, c);
    forall u, id
      ensures (id in owner' && owner'[id] == u) <==> In(users', u, id)
      ensures In(users', u, id) ==> users'[u][id].user == u && users'[u][id].id == id
    {
      BucketPut(users, c.user, c, u);
      assert (id in owner && owner[id] == u) <==> In(users, u, id);
    }
  }

  lemma InverseDrop(users: Store, owner: map<ClientId, UserId>, c: Client)
    requires WellKeyed(users) && Inverse(users, owner) && In(users, c.user, c.id)
    ensures WellKeyed(Drop(users, c.user, c.id)) && Inverse(Drop(users, c.user, c.id), owner - {c.id})
  {
    var users', owner' := Drop(users, c.user, c.id), owner - {c.id};
    DropShape(users, c.user, c.id);
    assert c.id in owner && owner[c.id] == c.user;
    forall u, id
      ensures (id in owner' && owner'[id] == u) <==> In(users', u, id)
      ensures In(users', u, id) ==> users'[u][id].user == u && users'[u][id].id == id
    {
      BucketDrop(users, c.user, c.id, u);
      assert (id in owner && owner[id] == u) <==> In(users, u, id);
    }
  }

  lemma {:induction false} BagSplit(cs: Clients, id: ClientId)
    requires id in cs
    ensures Bag(cs) == multiset(cs[id].keys) + Bag(cs - {id})
    decreases |cs|
  {
    var id0 :| id0 in cs && Bag(cs) == multiset(cs[id0].keys) + Bag(cs - {id0});
    if id0 != id {
      BagSplit(cs - {id0}, id);
      BagSplit(cs - {id}, id0);
      assert cs - {id0} - {id} == cs - {id} - {id0};
    }
  }

  lemma BagPut(cs: Clients, c: Client)
    ensures Bag(cs[c.id := c]) == Bag(cs - {c.id}) + multiset(c.keys)
    ensures Bag(cs) == Bag(cs - {c.id}) + if c.id in cs then multiset(cs[c.id].keys) else multiset{}
  {
    BagSplit(cs[c.id := c], c.id);
    assert cs[c.id := c] - {c.id} == cs - {c.id};
    if c.id in cs {
      BagSplit(cs, c.id);
    } else {
      assert cs - {c.id} == cs;
    }
  }

  /** A new registration is counted once per key it carries. */
  lemma IndexedPut(index: Index, users: Store, c: Client)
    requires Indexed(index, users) && !In(users, c.user, c.id)
    ensures Indexed(IncrementAll(index, c.keys, c.user), Put(users, c.user, c))
  {
    BagPut(Bucket(users, c.user), c);
    IncrementAllCounts(index, c.keys, c.user);
    forall k, u ensures Count(IncrementAll(index, c.keys, c.user), k, u) == Bag(Bucket(Put(users, c.user, c), u))[k] {
      BucketPut(users, c.user, c, u);
      assert Count(index, k, u) == Bag(Bucket(users, u))[k];
    }
  }

  lemma ReplacedCount(index: Index, users: Store, c: Client, k: Key, u: UserId)
    requires Indexed(index, users) && In(users, c.user, c.id)
    ensures Count(index, k, u) == Bag(Bucket(Put(users, c.user, c), u))[k]
            <==> (u == c.user ==> multiset(users[c.user][c.id].keys)[k] == multiset(c.keys)[k])
  {
    BagPut(Bucket(users, c.user), c);
    BucketPut(users, c.user, c, u);
    assert Count(index, k, u) == Bag(Bucket(users, u))[k];
  }

  /** A reconnect under a registered id keeps the counts exactly when it carries the same keys. */
  lemma IndexedReplace(index: Index, users: Store, c: Client)
    requires Indexed(index, users) && In(users, c.user, c.id)
    ensures Indexed(index, Put(users, c.user, c)) <==> multiset(users[c.user][c.id].keys) == multiset(c.keys)
  {
    var before, after := multiset(users[c.user][c.id].keys), multiset(c.keys);
    if before == after {
      forall k, u ensures Count(index, k, u) == Bag(Bucket(Put(users, c.user, c), u))[k] {
        ReplacedCount(index, users, c, k, u);
      }
    } else {
      var k :| before[k] != after[k];
      ReplacedCount(index, users, c, k, c.user);
      assert Count(index, k, c.user) != Bag(Bucket(Put(users, c.user, c), c.user))[k];
    }
  }

  lemma IndexedDrop(index: Index, users: Store, c: Client)
    requires Indexed(index, users) && In(users, c.user, c.id) && users[c.user][c.id] == c
    ensures Indexed(DecrementAll(index, c.keys, c.user), Drop(users, c.user, c.id))
  {
    BagPut(Bucket(users, c.user), c);
    forall k ensures multiset(c.keys)[k] <= Count(index, k, c.user) {
      assert Count(index, k, c.user) == Bag(Bucket(users, c.user))[k];
    }
    DecrementAllCounts(index, c.keys, c.user);
    forall k, u
      ensures Count(DecrementAll(index, c.keys, c.user), k, u) == Bag(Bucket(Drop(users, c.user, c.id), u))[k]
    {
      BucketDrop(users, c.user, c.id, u);
      assert Count(index, k, u) == Bag(Bucket(users, u))[k];
    }
  }

  lemma FilterShape(kind: Kind, users: Store)
    ensures NonEmpty(Filter(kind, users))
  {
  }

  lemma FilterBucket(kind: Kind, users: Store, u: UserId)
    ensures Bucket(Filter(kind, users), u) == Only(kind, Bucket(users, u))
  {
  }

  lemma OnlyPut(kind: Kind, cs: Clients, c: Client)
    ensures Only(kind, cs[c.id := c]) == if Is(kind, c) then Only(kind, cs)[c.id := c] else Only(kind, cs) - {c.id}
    ensures Only(kind, cs - {c.id}) == Only(kind, cs) - {c.id}
  {
  }

  /** A classified store follows the main store: put what is of the kind, drop what no longer is. */
  lemma FilterPut(kind: Kind, users: Store, c: Client)
    ensures Filter(kind, Put(users, c.user, c))
            == if Is(kind, c) then Put(Filter(kind, users), c.user, c) else Drop(Filter(kind, users), c.user, c.id)
  {
    var f := Filter(kind, users);
    var f' := if Is(kind, c) then Put(f, c.user, c) else Drop(f, c.user, c.id);
    FilterShape(kind, users);
    FilterShape(kind, Put(users, c.user, c));
    PutShape(f, c.user, c);
    DropShape(f, c.user, c.id);
    OnlyPut(kind, Bucket(users, c.user), c);
    forall u ensures Bucket(Filter(kind, Put(users, c.user, c)), u) == Bucket(f', u) {
      FilterBucket(kind, Put(users, c.user, c), u);
      FilterBucket(kind, users, u);
      BucketPut(users, c.user, c, u);
      BucketPut(f, c.user, c, u);
      BucketDrop(f, c.user, c.id, u);
    }
    BucketsDetermine(Filter(kind, Put(users, c.user, c)), f');
  }

  lemma FilterDrop(kind: Kind, users: Store, c: Client)
    ensures Filter(kind, Drop(users, c.user, c.id)) == Drop(Filter(kind, users), c.user, c.id)
  {
    var f := Filter(kind, users);
    FilterShape(kind, users);
    FilterShape(kind, Drop(users, c.user, c.id));
    DropShape(f, c.user, c.id);
    OnlyPut(kind, Bucket(users, c.user), c);
    forall u ensures Bucket(Filter(kind, Drop(users, c.user, c.id)), u) == Bucket(Drop(f, c.user, c.id), u) {
      FilterBucket(kind, Drop(users, c.user, c.id), u);
      FilterBucket(kind, users, u);
      BucketDrop(users, c.user, c.id, u);
      BucketDrop(f, c.user, c.id, u);
    }
    BucketsDetermine(Filter(kind, Drop(users, c.user, c.id)), Drop(f, c.user, c.id));
  }

  /** Other clients are found where they were. */
  lemma FindPut(users: Store, owner: map<ClientId, UserId>, c: Client, id: ClientId)
    ensures Find(Put(users, c.user, c), owner[c.id := c.user], id)
            == if id == c.id then Some(c) else Find(users, owner, id)
  {
  }

  lemma FindDrop(users: Store, owner: map<ClientId, UserId>, c: Client, id: ClientId)
    ensures Find(Drop(users, c.user, c.id), owner - {c.id}, id) == if id == c.id then None else Find(users, owner, id)
  {
  }

  lemma SsePut(users: Store, owner: map<ClientId, UserId>, c: Client)
    ensures SseIds(Put(users, c.user, c), owner[c.id := c.user])
            == if c.sse then SseIds(users, owner) + {c.id} else SseIds(users, owner) - {c.id}
  {
  }

  lemma SseDrop(users: Store, owner: map<ClientId, UserId>, c: Client)
    ensures SseIds(Drop(users, c.user, c.id), owner - {c.id}) == SseIds(users, owner) - {c.id}
  {
  }

  lemma LookupDrop<K>(m: map<K, Clients>, k: K, c: Client, k': K, id: ClientId)
    ensures Lookup(Bucket(Drop(m, k, c.id), k'), id)
            == if k' == k && id == c.id then None else Lookup(Bucket(m, k'), id)
  {
  }

  predicate SameScope(found: Option<Client>, c: Client) {
    found.Some? && found.value.observer ==> c.observer && c.scope == found.value.scope
  }

  lemma ScopedPutAt(scopes: map<Scope, Clients>, found: Option<Client>, c: Client, scope: Scope, id: ClientId)
    requires ScopedAt(scopes, found, scope, id)
    ensures ScopedAt(if c.observer then Put(scopes, c.scope, c) else scopes,
                     if id == c.id then Some(c) else found, scope, id)
            <==> (id == c.id && Watches(found, scope) ==> c.observer && c.scope == scope)
  {
  }

  /** A (re)registration keeps the scope index exact iff it does not leave an old entry behind. */
  lemma ScopedPut(scopes: map<Scope, Clients>, users: Store, owner: map<ClientId, UserId>, c: Client)
    requires Scoped(scopes, users, owner)
    ensures Scoped(if c.observer then Put(scopes, c.scope, c) else scopes, Put(users, c.user, c), owner[c.id := c.user])
            <==> SameScope(Find(users, owner, c.id), c)
  {
    var scopes' := if c.observer then Put(scopes, c.scope, c) else scopes;
    var users', owner', found := Put(users, c.user, c), owner[c.id := c.user], Find(users, owner, c.id);
    PutShape(scopes, c.scope, c);
    FindPut(users, owner, c, c.id);
    if SameScope(found, c) {
      forall scope, id ensures ScopedAt(scopes', Find(users', owner', id), scope, id) {
        assert ScopedAt(scopes, Find(users, owner, id), scope, id);
        FindPut(users, owner, c, id);
        ScopedPutAt(scopes, Find(users, owner, id), c, scope, id);
      }
    } else {
      var scope := found.value.scope;
      assert ScopedAt(scopes, Find(users, owner, c.id), scope, c.id);
      ScopedPutAt(scopes, found, c, scope, c.id);
      assert !ScopedAt(scopes', Find(users', owner', c.id), scope, c.id);
    }
  }

  lemma ScopedDrop(scopes: map<Scope, Clients>, users: Store, owner: map<ClientId, UserId>, c: Client)
    requires Scoped(scopes, users, owner) && Find(users, owner, c.id) == Some(c)
    ensures Scoped(if c.observer then Drop(scopes, c.scope, c.id) else scopes,
                   Drop(users, c.user, c.id), owner - {c.id})
  {
    var scopes' := if c.observer then Drop(scopes, c.scope, c.id) else scopes;
    var users', owner' := Drop(users, c.user, c.id), owner - {c.id};
    DropShape(scopes, c.scope, c.id);
    forall scope, id ensures ScopedAt(scopes', Find(users', owner', id), scope, id) {
      assert ScopedAt(scopes, Find(users, owner, id), scope, id);
      FindDrop(users, owner, c, id);
      LookupDrop(scopes, c.scope, c, scope, id);
    }
  }

  // ---------------------------------------------------------------------------------------------
  // The invariant under AddClient and RemoveClient
  // ---------------------------------------------------------------------------------------------

  /** A reconnect `c` routes like the registration `a` it replaces. */
  predicate SameRouting(s: State, a: Client, c: Client) {
    && multiset(a.keys) == multiset(c.keys) && a.sse == c.sse
    && (s.observersOn ==> SameScope(Some(a), c)) && (s.agentsOn && a.agent ==> c.agent)
  }

  /** An id is never taken by two users at once, and a reconnect routes like its predecessor. */
  predicate Compatible(s: State, c: Client) {
    && (c.id in s.owner ==> s.owner[c.id] == c.user)
    && (In(s.users, c.user, c.id) ==> SameRouting(s, s.users[c.user][c.id], c))
  }

  lemma ClassifiedAdd(kind: Kind, on: bool, store: Store, users: Store, c: Client)
    requires store == if on then Filter(kind, users) else map[]
    ensures var store' := if on && Is(kind, c) then Put(store, c.user, c) else store;
            && (store' == (if on then Filter(kind, Put(users, c.user, c)) else map[])
                <==> (on && In(users, c.user, c.id) && Is(kind, users[c.user][c.id]) ==> Is(kind, c)))
            && |store'| == |store| + if on && Is(kind, c) && c.user !in store then 1 else 0
  {
    if on {
      FilterShape(kind, users);
      FilterPut(kind, users, c);
      FilterBucket(kind, users, c.user);
      if Is(kind, c) {
        PutShape(store, c.user, c);
      } else if c.id in Bucket(store, c.user) {
        BucketDrop(store, c.user, c.id, c.user);
        assert c.id !in Bucket(Drop(store, c.user, c.id), c.user);
      } else {
        DropAbsent(store, c.user, c.id);
      }
    }
  }

  lemma ClassifiedRemove(kind: Kind, on: bool, store: Store, users: Store, c: Client)
    requires store == if on then Filter(kind, users) else map[]
    requires In(users, c.user, c.id) && users[c.user][c.id] == c
    ensures var store' := if on && Is(kind, c) then Drop(store, c.user, c.id) else store;
            && store' == (if on then Filter(kind, Drop(users, c.user, c.id)) else map[])
            && |store'| == |store|
                - if on && Is(kind, c) && c.user in store && c.user !in Drop(store, c.user, c.id) then 1 else 0
  {
    if on {
      FilterShape(kind, users);
      FilterDrop(kind, users, c);
      FilterBucket(kind, users, c.user);
      if Is(kind, c) {
        DropShape(store, c.user, c.id);
      } else {
        DropAbsent(store, c.user, c.id);
      }
    }
  }

  lemma FindIn(users: Store, owner: map<ClientId, UserId>, c: Client)
    requires Inverse(users, owner) && (c.id in owner ==> owner[c.id] == c.user)
    ensures Find(users, owner, c.id) == if In(users, c.user, c.id) then Some(users[c.user][c.id]) else None
    ensures c.id in owner <==> In(users, c.user, c.id)
  {
  }

  lemma SseCountAdd(users: Store, owner: map<ClientId, UserId>, c: Client)
    requires Inverse(users, owner) && (c.id in owner ==> owner[c.id] == c.user)
    ensures |SseIds(Put(users, c.user, c), owner[c.id := c.user])|
            == |SseIds(users, owner)| + (if c.sse && !In(users, c.user, c.id) then 1 else 0)
            <==> (In(users, c.user, c.id) ==> users[c.user][c.id].sse == c.sse)
  {
    SsePut(users, owner, c);
    FindIn(users, owner, c);
    assert c.id in SseIds(users, owner) <==> In(users, c.user, c.id) && users[c.user][c.id].sse;
    if c.id !in SseIds(users, owner) {
      assert SseIds(users, owner) - {c.id} == SseIds(users, owner);
    } else {
      assert SseIds(users, owner) + {c.id} == SseIds(users, owner);
    }
  }

  /** An id taken over by another user stays in that user's clients: the reverse index is no inverse. */
  lemma StolenId(users: Store, owner: map<ClientId, UserId>, c: Client)
    requires Inverse(users, owner) && c.id in owner && owner[c.id] != c.user
    ensures !Inverse(Put(users, c.user, c), owner[c.id := c.user])
  {
    var u := owner[c.id];
    assert In(users, u, c.id);
    BucketPut(users, c.user, c, u);
    assert In(Put(users, c.user, c), u, c.id);
  }

  /** AddClient, field by field. */
  predicate Added(s: State, c: Client, t: State) {
    && t.observersOn == s.observersOn && t.agentsOn == s.agentsOn
    && t.users == Put(s.users, c.user, c) && t.owner == s.owner[c.id := c.user]
    && t.userCount == s.userCount + (if c.user in s.users then 0 else 1)
    && t.clientCount == s.clientCount + (if In(s.users, c.user, c.id) then 0 else 1)
    && t.index == (if In(s.users, c.user, c.id) then s.index else IncrementAll(s.index, c.keys, c.user))
    && t.sse == (if c.sse then Put(s.sse, c.user, c) else s.sse)
    && t.sseCount == s.sseCount + (if c.sse && !In(s.users, c.user, c.id) then 1 else 0)
    && t.observers == (if s.observersOn && c.observer then Put(s.observers, c.user, c) else s.observers)
    && t.observerCount == s.observerCount + (if s.observersOn && c.observer && c.user !in s.observers then 1 else 0)
    && t.scopes == (if s.observersOn && c.observer then Put(s.scopes, c.scope, c) else s.scopes)
    && t.agents == (if s.agentsOn && c.agent then Put(s.agents, c.user, c) else s.agents)
    && t.agentCount == s.agentCount + (if s.agentsOn && c.agent && c.user !in s.agents then 1 else 0)
  }

  lemma AddFields(s: State, c: Client)
    ensures Added(s, c, Add(s, c))
  {
    var isNew := !In(s.users, c.user, c.id);
    var s1 := Enroll(s, c);
    var s2 := Classify(s1, c, isNew);
    var t := CountIn(s2, c, isNew);
    assert t == Add(s, c);
    assert t.users == s2.users == s1.users && t.owner == s2.owner == s1.owner
           && t.userCount == s2.userCount == s1.userCount;
    assert t.sse == s2.sse && t.observers == s2.observers && t.scopes == s2.scopes && t.agents == s2.agents;
    assert s2.index == s1.index == s.index && s1.sse == s.sse && s1.observers == s.observers && s1.scopes == s.scopes
           && s1.agents == s.agents;
  }

  lemma AddMain(s: State, c: Client, t: State)
    requires MainExact(s) && t.users == Put(s.users, c.user, c) && t.owner == s.owner[c.id := c.user]
    requires t.userCount == s.userCount + if c.user in s.users then 0 else 1
    requires t.clientCount == s.clientCount + if In(s.users, c.user, c.id) then 0 else 1
    ensures MainExact(t) <==> (c.id in s.owner ==> s.owner[c.id] == c.user)
  {
    if c.id in s.owner && s.owner[c.id] != c.user {
      StolenId(s.users, s.owner, c);
    } else {
      InversePut(s.users, s.owner, c);
      FindIn(s.users, s.owner, c);
      PutShape(s.users, c.user, c);
    }
  }

  lemma AddIndex(s: State, c: Client, t: State)
    requires IndexExact(s) && t.users == Put(s.users, c.user, c)
    requires t.index == if In(s.users, c.user, c.id) then s.index else IncrementAll(s.index, c.keys, c.user)
    ensures IndexExact(t)
            <==> (In(s.users, c.user, c.id) ==> multiset(s.users[c.user][c.id].keys) == multiset(c.keys))
  {
    if In(s.users, c.user, c.id) {
      IndexedReplace(s.index, s.users, c);
    } else {
      IndexedPut(s.index, s.users, c);
    }
  }

  lemma AddSse(s: State, c: Client, t: State)
    requires MainExact(s) && SseExact(s) && (c.id in s.owner ==> s.owner[c.id] == c.user)
    requires t.users == Put(s.users, c.user, c) && t.owner == s.owner[c.id := c.user]
    requires t.sse == if c.sse then Put(s.sse, c.user, c) else s.sse
    requires t.sseCount == s.sseCount + if c.sse && !In(s.users, c.user, c.id) then 1 else 0
    ensures SseExact(t) <==> (In(s.users, c.user, c.id) ==> s.users[c.user][c.id].sse == c.sse)
  {
    SseCountAdd(s.users, s.owner, c);
    ClassifiedAdd(Sse, true, s.sse, s.users, c);
  }

  lemma AddObservers(s: State, c: Client, t: State)
    requires ObserversExact(s) && t.users == Put(s.users, c.user, c) && t.observersOn == s.observersOn
    requires t.observers == if s.observersOn && c.observer then Put(s.observers, c.user, c) else s.observers
    requires t.observerCount == s.observerCount + if s.observersOn && c.observer && c.user !in s.observers then 1 else 0
    ensures ObserversExact(t)
            <==> (s.observersOn && In(s.users, c.user, c.id) && s.users[c.user][c.id].observer ==> c.observer)
  {
    ClassifiedAdd(Observer, s.observersOn, s.observers, s.users, c);
  }

  lemma AddScopes(s: State, c: Client, t: State)
    requires MainExact(s) && ScopesExact(s) && (c.id in s.owner ==> s.owner[c.id] == c.user)
    requires t.users == Put(s.users, c.user, c) && t.owner == s.owner[c.id := c.user] && t.observersOn == s.observersOn
    requires t.scopes == if s.observersOn && c.observer then Put(s.scopes, c.scope, c) else s.scopes
    ensures ScopesExact(t)
            <==> (s.observersOn && In(s.users, c.user, c.id) ==> SameScope(Some(s.users[c.user][c.id]), c))
  {
    FindIn(s.users, s.owner, c);
    if s.observersOn {
      ScopedPut(s.scopes, s.users, s.owner, c);
    }
  }

  lemma AddAgents(s: State, c: Client, t: State)
    requires AgentsExact(s) && t.users == Put(s.users, c.user, c) && t.agentsOn == s.agentsOn
    requires t.agents == if s.agentsOn && c.agent then Put(s.agents, c.user, c) else s.agents
    requires t.agentCount == s.agentCount + if s.agentsOn && c.agent && c.user !in s.agents then 1 else 0
    ensures AgentsExact(t)
            <==> (s.agentsOn && In(s.users, c.user, c.id) && s.users[c.user][c.id].agent ==> c.agent)
  {
    ClassifiedAdd(Agent, s.agentsOn, s.agents, s.users, c);
  }

  lemma AddedKeepsInv(s: State, c: Client, t: State)
    requires Inv(s) && Added(s, c, t)
    ensures Inv(t) <==> Compatible(s, c)
  {
    AddMain(s, c, t);
    if c.id in s.owner ==> s.owner[c.id] == c.user {
      AddIndex(s, c, t);
      AddSse(s, c, t);
      AddObservers(s, c, t);
      AddScopes(s, c, t);
      AddAgents(s, c, t);
    }
  }

  /** Registering keeps every index, store and counter exact, if and only if it is compatible. */
  lemma AddKeepsInv(s: State, c: Client)
    requires Inv(s)
    ensures Inv(Add(s, c)) <==> Compatible(s, c)
  {
    AddFields(s, c);
    AddedKeepsInv(s, c, Add(s, c));
  }

  ghost predicate Holds(s: State, c: Client) {
    MainExact(s) && In(s.users, c.user, c.id) && s.users[c.user][c.id] == c
  }

  /** RemoveClient of a registered connection, field by field. */
  predicate Removed(s: State, c: Client, t: State) {
    && t.observersOn == s.observersOn && t.agentsOn == s.agentsOn
    && t.users == Drop(s.users, c.user, c.id) && t.owner == s.owner - {c.id}
    && t.userCount == s.userCount - (if c.user in t.users then 0 else 1) && t.clientCount == s.clientCount - 1
    && t.index == DecrementAll(s.index, c.keys, c.user)
    && t.sse == (if c.sse then Drop(s.sse, c.user, c.id) else s.sse)
    && t.sseCount == s.sseCount - (if c.sse then 1 else 0)
    && t.observers == (if s.observersOn && c.observer then Drop(s.observers, c.user, c.id) else s.observers)
    && t.observerCount
        == s.observerCount
           - (if s.observersOn && c.observer && c.user in s.observers && c.user !in t.observers then 1 else 0)
    && t.scopes == (if s.observersOn && c.observer then Drop(s.scopes, c.scope, c.id) else s.scopes)
    && t.agents == (if s.agentsOn && c.agent then Drop(s.agents, c.user, c.id) else s.agents)
    && t.agentCount
       == s.agentCount - (if s.agentsOn && c.agent && c.user in s.agents && c.user !in t.agents then 1 else 0)
  }

  lemma DiscardFields(s: State, c: Client)
    ensures Removed(s, c, Discard(s, c))
  {
    var s1 := Withdraw(s, c);
    var s2 := Declassify(s1, c);
    var t := CountOut(s2, c);
    assert t == Discard(s, c);
    assert t.users == s2.users == s1.users && t.userCount == s2.userCount == s1.userCount;
    assert t.sse == s2.sse && t.observers == s2.observers && t.scopes == s2.scopes && t.agents == s2.agents;
    assert s2.owner == s1.owner == s.owner && s2.index == s1.index == s.index && s1.sse == s.sse
           && s1.observers == s.observers;
  }

  lemma DiscardMain(s: State, c: Client, t: State)
    requires Holds(s, c) && Removed(s, c, t)
    ensures MainExact(t)
  {
    InverseDrop(s.users, s.owner, c);
    DropShape(s.users, c.user, c.id);
    assert c.id in s.owner && s.owner[c.id] == c.user;
    assert (s.owner - {c.id}).Keys == s.owner.Keys - {c.id};
  }

  lemma SseCountRemove(users: Store, owner: map<ClientId, UserId>, c: Client)
    requires Find(users, owner, c.id) == Some(c)
    ensures |SseIds(Drop(users, c.user, c.id), owner - {c.id})| == |SseIds(users, owner)| - if c.sse then 1 else 0
  {
    SseDrop(users, owner, c);
    assert c.id in SseIds(users, owner) <==> c.sse;
    if !c.sse {
      assert SseIds(users, owner) - {c.id} == SseIds(users, owner);
    }
  }

  lemma DiscardSse(s: State, c: Client, t: State)
    requires Holds(s, c) && SseExact(s) && Removed(s, c, t)
    ensures SseExact(t)
  {
    assert c.id in s.owner && s.owner[c.id] == c.user;
    FindIn(s.users, s.owner, c);
    SseCountRemove(s.users, s.owner, c);
    ClassifiedRemove(Sse, true, s.sse, s.users, c);
  }

  lemma DiscardObservers(s: State, c: Client, t: State)
    requires Holds(s, c) && ObserversExact(s) && Removed(s, c, t)
    ensures ObserversExact(t)
  {
    ClassifiedRemove(Observer, s.observersOn, s.observers, s.users, c);
  }

  lemma DiscardScopes(s: State, c: Client, t: State)
    requires Holds(s, c) && ScopesExact(s) && Removed(s, c, t)
    ensures ScopesExact(t)
  {
    assert c.id in s.owner && s.owner[c.id] == c.user;
    FindIn(s.users, s.owner, c);
    if s.observersOn {
      ScopedDrop(s.scopes, s.users, s.owner, c);
    }
  }

  lemma DiscardAgents(s: State, c: Client, t: State)
    requires Holds(s, c) && AgentsExact(s) && Removed(s, c, t)
    ensures AgentsExact(t)
  {
    ClassifiedRemove(Agent, s.agentsOn, s.agents, s.users, c);
  }

  lemma DiscardKeepsInv(s: State, c: Client)
    requires Inv(s) && Holds(s, c)
    ensures Inv(Discard(s, c))
  {
    var t := Discard(s, c);
    DiscardFields(s, c);
    DiscardMain(s, c, t);
    IndexedDrop(s.index, s.users, c);
    DiscardSse(s, c, t);
    DiscardObservers(s, c, t);
    DiscardScopes(s, c, t);
    DiscardAgents(s, c, t);
  }

  /** Unregistering keeps every index, store and counter exact. */
  lemma RemoveKeepsInv(s: State, id: ClientId, user: UserId)
    requires Inv(s)
    ensures Inv(Remove(s, id, user))
  {
    if In(s.users, user, id) {
      var c := s.users[user][id];
      assert c.user == user && c.id == id;
      DiscardKeepsInv(s, c);
    }
  }

  // ---------------------------------------------------------------------------------------------
  // Remove, compare, re-add
  // ---------------------------------------------------------------------------------------------

  lemma OwnerDetermined(users: Store, a: map<ClientId, UserId>, b: map<ClientId, UserId>)
    requires Inverse(users, a) && Inverse(users, b)
    ensures a == b
  {
    forall id | id in a ensures id in b && b[id] == a[id] {
      assert In(users, a[id], id);
    }
    forall id | id in b ensures id in a {
      assert In(users, b[id], id);
    }
  }

  lemma ScopesDetermined(a: map<Scope, Clients>, b: map<Scope, Clients>, users: Store, owner: map<ClientId, UserId>)
    requires Scoped(a, users, owner) && Scoped(b, users, owner)
    ensures a == b
  {
    forall scope ensures Bucket(a, scope) == Bucket(b, scope) {
      forall id ensures Lookup(Bucket(a, scope), id) == Lookup(Bucket(b, scope), id) {
        assert ScopedAt(a, Find(users, owner, id), scope, id);
        assert ScopedAt(b, Find(users, owner, id), scope, id);
      }
      LookupsDetermine(Bucket(a, scope), Bucket(b, scope));
    }
    BucketsDetermine(a, b);
  }

  lemma LookupsDetermine(a: Clients, b: Clients)
    requires forall id :: Lookup(a, id) == Lookup(b, id)
    ensures a == b
  {
    forall id ensures id in a <==> id in b {
      assert Lookup(a, id) == Lookup(b, id);
    }
    forall id | id in a ensures a[id] == b[id] {
      assert Lookup(a, id) == Lookup(b, id);
    }
  }

  lemma IndexDetermined(a: Index, b: Index, users: Store)
    requires Indexed(a, users) && Indexed(b, users)
    ensures a == b
  {
    forall k, u ensures Count(a, k, u) == Count(b, k, u) {
      assert Count(a, k, u) == Bag(Bucket(users, u))[k];
    }
    CountsDetermine(a, b);
  }

  /** A state that satisfies the invariant is determined by its main store and its configuration. */
  lemma StoreDetermines(s: State, t: State)
    requires Inv(s) && Inv(t)
    requires s.users == t.users && s.observersOn == t.observersOn && s.agentsOn == t.agentsOn
    ensures s == t
  {
    OwnerDetermined(s.users, s.owner, t.owner);
    IndexDetermined(s.index, t.index, s.users);
    if s.observersOn {
      ScopesDetermined(s.scopes, t.scopes, s.users, s.owner);
    }
  }

  /** handleUnregister, RemoveUnsafe and CleanupHalfRegistered on the registry. */
  function Release(s: State, c: Client): State {
    if !In(s.users, c.user, c.id) then s
    else
      var held := s.users[c.user][c.id];
      if held.conn != c.conn then Add(Discard(s, held), held) else Discard(s, held)
  }

  lemma PutBack(users: Store, c: Client)
    requires NonEmpty(users) && In(users, c.user, c.id) && users[c.user][c.id] == c
    ensures Put(Drop(users, c.user, c.id), c.user, c) == users
  {
    var dropped := Drop(users, c.user, c.id);
    DropShape(users, c.user, c.id);
    PutShape(dropped, c.user, c);
    forall u ensures Bucket(Put(dropped, c.user, c), u) == Bucket(users, u) {
      BucketDrop(users, c.user, c.id, u);
      BucketPut(dropped, c.user, c, u);
    }
    BucketsDetermine(Put(dropped, c.user, c), users);
  }

  /** Discarding a registration and adding it back restores the whole state. */
  lemma DiscardThenAdd(s: State, c: Client)
    requires Inv(s) && Holds(s, c)
    ensures Add(Discard(s, c), c) == s
  {
    var t := Discard(s, c);
    DiscardKeepsInv(s, c);
    BucketDrop(s.users, c.user, c.id, c.user);
    AddKeepsInv(t, c);
    PutBack(s.users, c);
    StoreDetermines(Add(t, c), s);
  }

  /** What becomes of one registration when a connection is unregistered. */
  lemma ReleaseAt(s: State, c: Client, u: UserId, id: ClientId)
    requires Inv(s)
    ensures Lookup(Bucket(Release(s, c).users, u), id)
            == if u == c.user && id == c.id && In(s.users, u, id) && s.users[u][id].conn == c.conn then None
               else Lookup(Bucket(s.users, u), id)
  {
    if In(s.users, c.user, c.id) {
      var held := s.users[c.user][c.id];
      assert held.user == c.user && held.id == c.id;
      if held.conn != c.conn {
        DiscardThenAdd(s, held);
      } else {
        DiscardFields(s, held);
        LookupDrop(s.users, held.user, held, u, id);
      }
    }
  }

  /**
   * Unregistering a connection whose id a newer connection holds, or that is not registered, leaves
   * the main store, every index and every counter unchanged; unregistering the current holder takes
   * exactly that connection out of the main store. The invariant is kept either way, so that all
   * derived state is exactly that of the main store.
   */
  lemma ReleaseExact(s: State, c: Client)
    requires Inv(s)
    ensures Inv(Release(s, c))
    ensures !In(s.users, c.user, c.id) || s.users[c.user][c.id].conn != c.conn ==> Release(s, c) == s
    ensures forall u, id :: Lookup(Bucket(Release(s, c).users, u), id)
              == if u == c.user && id == c.id && In(s.users, u, id) && s.users[u][id].conn == c.conn then None
                 else Lookup(Bucket(s.users, u), id)
  {
    forall u, id ensures Lookup(Bucket(Release(s, c).users, u), id)
              == if u == c.user && id == c.id && In(s.users, u, id) && s.users[u][id].conn == c.conn then None
                 else Lookup(Bucket(s.users, u), id)
    {
      ReleaseAt(s, c, u, id);
    }
    if In(s.users, c.user, c.id) {
      var held := s.users[c.user][c.id];
      assert held.user == c.user && held.id == c.id;
      DiscardKeepsInv(s, held);
      if held.conn != c.conn {
        DiscardThenAdd(s, held);
      }
    }
  }
}
