/**
 * How a connection's attributes become its index keys and its kinds, what the reference counts then
 * count, and the registry over whole runs.
 */
module ConnectionRouting {
  import opened RefIndex
  import opened Registry

  const DEFAULT_APP := "__default_app__"
  const DEFAULT_GROUP := "__default_gp__"

  function NormalizeApp(app: string): string {
    if app == "" then DEFAULT_APP else app
  }

  /** GetGroupIDs: the list, else the single group, else the default group. */
  function GroupsOf(a: Attributes): seq<string> {
    if a.groups != [] then a.groups else if a.group != "" then [a.group] else [DEFAULT_GROUP]
  }

  function GroupKeys(app: string, groups: seq<string>): seq<Key> {
    if groups == [] then []
    else GroupKeys(app, groups[..|groups| - 1]) + [Key(app, Group, groups[|groups| - 1])]
  }

  /** Empty attribute values are not indexed. */
  function AttrKey(app: string, dimension: Dimension, value: string): seq<Key> {
    if value == "" then [] else [Key(app, dimension, value)]
  }

  function AttrKeys(app: string, a: Attributes): seq<Key> {
    AttrKey(app, UserType, a.userType) + AttrKey(app, Role, a.role)
    + AttrKey(app, ClientType, a.clientType) + AttrKey(app, Department, a.department)
  }

  /** One key per group (with repetition), one for the namespace (even when empty), one per attribute. */
  function KeysOf(a: Attributes): seq<Key> {
    var app := NormalizeApp(a.app);
    GroupKeys(app, GroupsOf(a)) + [Key(app, Namespace, a.ns)] + AttrKeys(app, a)
  }

  function ScopeOf(a: Attributes): Scope {
    if a.ns == "" then Everything
    else if a.group != "" then InGroup(a.ns, a.group)
    else InNamespace(a.ns)
  }

  function Connect(conn: nat, id: ClientId, user: UserId, a: Attributes): Client {
    Client(conn, id, user, a, KeysOf(a), a.sse, a.userType == "observer",
           a.userType == "agent" || a.userType == "bot", ScopeOf(a))
  }

  predicate Genuine(c: Client) {
    c == Connect(c.conn, c.id, c.user, c.attrs)
  }

  // ---------------------------------------------------------------------------------------------
  // What the reference counts count
  // ---------------------------------------------------------------------------------------------

  function AttrValue(a: Attributes, dimension: Dimension): string
    requires dimension != Group
  {
    match dimension
    case Namespace => a.ns
    case UserType => a.userType
    case Role => a.role
    case ClientType => a.clientType
    case Department => a.department
  }

  /** A connection belongs under a key of a dimension other than the groups. */
  predicate Carries(a: Attributes, k: Key)
    requires k.dimension != Group
  {
    && OfApp(a, k.app) && (k.dimension == Namespace || k.value != "")
    && match k.dimension {
         case Namespace => a.ns == k.value
         case UserType => a.userType == k.value
         case Role => a.role == k.value
         case ClientType => a.clientType == k.value
         case Department => a.department == k.value
       }
  }

  predicate OfApp(a: Attributes, app: string) {
    if a.app == "" then app == DEFAULT_APP else app == a.app
  }

  /** How often a connection lists a group of an application; without any group it lists the default one. */
  function Listed(a: Attributes, app: string, group: string): nat {
    if !OfApp(a, app) then 0
    else if a.groups != [] then multiset(a.groups)[group]
    else if group == (if a.group == "" then DEFAULT_GROUP else a.group) then 1
    else 0
  }

  lemma {:induction false} GroupKeysCount(app: string, groups: seq<string>, k: Key)
    ensures multiset(GroupKeys(app, groups))[k]
            == if k.app == app && k.dimension == Group then multiset(groups)[k.value] else 0
    decreases |groups|
  {
    if groups != [] {
      var init, last := groups[..|groups| - 1], groups[|groups| - 1];
      GroupKeysCount(app, init, k);
      assert groups == init + [last];
    }
  }

  lemma AttrKeysCount(app: string, a: Attributes, k: Key)
    ensures multiset(AttrKeys(app, a))[k]
            == if k.app == app && k.dimension != Group && k.dimension != Namespace
                && AttrValue(a, k.dimension) == k.value && k.value != "" then 1 else 0
  {
    assert multiset(AttrKeys(app, a))
        == multiset(AttrKey(app, UserType, a.userType)) + multiset(AttrKey(app, Role, a.role))
         + multiset(AttrKey(app, ClientType, a.clientType)) + multiset(AttrKey(app, Department, a.department));
  }

  lemma GroupsCount(a: Attributes, group: string)
    ensures multiset(GroupsOf(a))[group]
            == if a.groups != [] then multiset(a.groups)[group]
               else if group == (if a.group == "" then DEFAULT_GROUP else a.group) then 1 else 0
  {
  }

  /** A connection counts once under each key it carries, and under a group as often as it lists it. */
  lemma KeysCount(a: Attributes, k: Key)
    ensures multiset(KeysOf(a))[k]
            == if k.dimension == Group then Listed(a, k.app, k.value)
               else if Carries(a, k) then 1 else 0
  {
    var app := NormalizeApp(a.app);
    GroupKeysCount(app, GroupsOf(a), k);
    GroupsCount(a, k.value);
    AttrKeysCount(app, a, k);
    assert multiset(KeysOf(a))
           == multiset(GroupKeys(app, GroupsOf(a))) + multiset{Key(app, Namespace, a.ns)} + multiset(AttrKeys(app, a));
  }

  ghost predicate AllGenuine(users: Store) {
    forall u, id :: In(users, u, id) ==> Genuine(users[u][id])
  }

  ghost function Carriers(cs: Clients, k: Key): set<ClientId>
    requires k.dimension != Group
  {
    set id | id in cs && Carries(cs[id].attrs, k)
  }

  lemma {:induction false} BagOfMarked(cs: Clients, k: Key, marked: set<ClientId>)
    requires marked <= cs.Keys
    requires forall id :: id in cs ==> multiset(cs[id].keys)[k] == if id in marked then 1 else 0
    ensures Bag(cs)[k] == |marked|
    decreases |cs|
  {
    if cs != map[] {
      var id :| id in cs;
      BagSplit(cs, id);
      BagOfMarked(cs - {id}, k, marked - {id});
    }
  }

  /** How often the clients list a group of an application. */
  ghost function Listings(cs: Clients, app: string, group: string): nat {
    if cs == map[] then 0
    else
      var id :| id in cs;
      Listed(cs[id].attrs, app, group) + Listings(cs - {id}, app, group)
  }

  lemma {:induction false} BagOfListings(cs: Clients, app: string, group: string)
    requires forall id :: id in cs ==> multiset(cs[id].keys)[Key(app, Group, group)] == Listed(cs[id].attrs, app, group)
    ensures Bag(cs)[Key(app, Group, group)] == Listings(cs, app, group)
    decreases |cs|
  {
    if cs != map[] {
      var id :| id in cs && Listings(cs, app, group)
        == Listed(cs[id].attrs, app, group) + Listings(cs - {id}, app, group);
      BagSplit(cs, id);
      BagOfListings(cs - {id}, app, group);
    }
  }

  /**
   * Each namespace and attribute reference count is the number of the user's registrations that
   * carry it, each group count the number of times they list the group.
   */
  lemma CountsExact(s: State, k: Key, u: UserId)
    requires Inv(s) && AllGenuine(s.users)
    ensures Count(s.index, k, u)
            == if k.dimension
                == Group then Listings(Bucket(s.users, u), k.app, k.value) else |Carriers(Bucket(s.users, u), k)|
    ensures u in Refs(s.index, k) <==> Count(s.index, k, u) > 0
  {
    var cs := Bucket(s.users, u);
    assert Count(s.index, k, u) == Bag(cs)[k];
    forall id | id in cs
      ensures multiset(cs[id].keys)[k]
              == if k.dimension == Group then Listed(cs[id].attrs, k.app, k.value)
                 else if Carries(cs[id].attrs, k) then 1 else 0
    {
      assert In(s.users, u, id);
      KeysCount(cs[id].attrs, k);
    }
    if k.dimension == Group {
      BagOfListings(cs, k.app, k.value);
    } else {
      BagOfMarked(cs, k, Carriers(cs, k));
    }
  }

  /** The local users found under a namespace or attribute are those with a connection that carries it. */
  lemma LookupExact(s: State, k: Key, u: UserId)
    requires Inv(s) && AllGenuine(s.users) && k.dimension != Group
    ensures u in Refs(s.index, k) <==> exists id :: In(s.users, u, id) && Carries(s.users[u][id].attrs, k)
  {
    CountsExact(s, k, u);
    var carriers := Carriers(Bucket(s.users, u), k);
    if |carriers| > 0 {
      var id :| id in carriers;
      assert In(s.users, u, id);
    }
    if id :| In(s.users, u, id) && Carries(s.users[u][id].attrs, k) {
      assert id in carriers;
    }
  }

  // ---------------------------------------------------------------------------------------------
  // Whole runs
  // ---------------------------------------------------------------------------------------------

  datatype Op =
    | Register(client: Client)             // AddClient
    | Unregister(id: ClientId, user: UserId) // RemoveClient
    | Leave(client: Client)                // remove, compare, re-add

  function Step(s: State, op: Op): State {
    match op
    case Register(c) => Add(s, c)
    case Unregister(id, user) => Remove(s, id, user)
    case Leave(c) => Release(s, c)
  }

  function Run(s: State, ops: seq<Op>): State
    decreases |ops|
  {
    if ops == [] then s else Step(Run(s, ops[..|ops| - 1]), ops[|ops| - 1])
  }

  lemma EmptyInv(observersOn: bool, agentsOn: bool)
    ensures Inv(Empty(observersOn, agentsOn))
  {
  }

  /** Of all operations only an incompatible registration can leave the exact states. */
  lemma StepExactIff(s: State, op: Op)
    requires Inv(s)
    ensures Inv(Step(s, op)) <==> (op.Register? ==> Compatible(s, op.client))
  {
    match op
    case Register(c) => AddKeepsInv(s, c);
    case Unregister(id, user) => RemoveKeepsInv(s, id, user);
    case Leave(c) => ReleaseExact(s, c);
  }

  /** Each registration of the run is compatible with the state it meets. */
  ghost predicate CompatibleRun(s: State, ops: seq<Op>) {
    forall i :: 0 <= i < |ops| && ops[i].Register? ==> Compatible(Run(s, ops[..i]), ops[i].client)
  }

  lemma CompatiblePrefix(s: State, ops: seq<Op>, n: nat)
    requires CompatibleRun(s, ops) && n <= |ops|
    ensures CompatibleRun(s, ops[..n])
    ensures n < |ops| && ops[n].Register? ==> Compatible(Run(s, ops[..n]), ops[n].client)
  {
    forall i | 0 <= i < n && ops[..n][i].Register? ensures Compatible(Run(s, ops[..n][..i]), ops[..n][i].client) {
      assert ops[..n][..i] == ops[..i];
    }
  }

  /** After any run of compatible registrations and of unregistrations everything derived is exact. */
  lemma {:induction false} RunExact(s: State, ops: seq<Op>)
    requires Inv(s) && CompatibleRun(s, ops)
    ensures Inv(Run(s, ops))
    decreases |ops|
  {
    if ops != [] {
      var n := |ops| - 1;
      CompatiblePrefix(s, ops, n);
      RunExact(s, ops[..n]);
      StepExactIff(Run(s, ops[..n]), ops[n]);
    }
  }

  lemma PrefixExactIff(s: State, ops: seq<Op>, i: nat)
    requires i < |ops| && Inv(Run(s, ops[..i]))
    ensures Inv(Run(s, ops[..i + 1])) <==> (ops[i].Register? ==> Compatible(Run(s, ops[..i]), ops[i].client))
  {
    assert ops[..i + 1][..i] == ops[..i] && ops[..i + 1][i] == ops[i];
    StepExactIff(Run(s, ops[..i]), ops[i]);
  }

  /** Everything is exact at every moment of a run, if and only if every registration is compatible. */
  lemma RunExactIff(observersOn: bool, agentsOn: bool, ops: seq<Op>)
    ensures (forall n :: 0 <= n <= |ops| ==> Inv(Run(Empty(observersOn, agentsOn), ops[..n])))
            <==> CompatibleRun(Empty(observersOn, agentsOn), ops)
  {
    var s := Empty(observersOn, agentsOn);
    EmptyInv(observersOn, agentsOn);
    if CompatibleRun(s, ops) {
      forall n | 0 <= n <= |ops| ensures Inv(Run(s, ops[..n])) {
        CompatiblePrefix(s, ops, n);
        RunExact(s, ops[..n]);
      }
    }
    if forall n :: 0 <= n <= |ops| ==> Inv(Run(s, ops[..n])) {
      forall i | 0 <= i < |ops| && ops[i].Register? ensures Compatible(Run(s, ops[..i]), ops[i].client) {
        assert Inv(Run(s, ops[..i])) && Inv(Run(s, ops[..i + 1]));
        PrefixExactIff(s, ops, i);
      }
    }
  }

  // ---------------------------------------------------------------------------------------------
  // What all registered connections have in common
  // ---------------------------------------------------------------------------------------------

  ghost predicate AllAre(users: Store, p: Client -> bool) {
    forall u, id :: In(users, u, id) ==> p(users[u][id])
  }

  /** What was registered before and still is, is as before. */
  lemma SubsetAre(users: Store, users': Store, p: Client -> bool)
    requires AllAre(users, p)
    requires forall u, id :: In(users', u, id) ==> Lookup(Bucket(users', u), id) == Lookup(Bucket(users, u), id)
    ensures AllAre(users', p)
  {
  }

  lemma DropAre(users: Store, c: Client, p: Client -> bool)
    requires AllAre(users, p)
    ensures AllAre(Drop(users, c.user, c.id), p)
  {
    var rest := Drop(users, c.user, c.id);
    forall u, i | In(rest, u, i) ensures Lookup(Bucket(rest, u), i) == Lookup(Bucket(users, u), i) {
      LookupDrop(users, c.user, c, u, i);
    }
    SubsetAre(users, rest, p);
  }

  lemma AddAre(s: State, c: Client, p: Client -> bool)
    requires AllAre(s.users, p) && p(c)
    ensures AllAre(Add(s, c).users, p)
  {
    AddFields(s, c);
  }

  lemma RemoveAre(s: State, id: ClientId, user: UserId, p: Client -> bool)
    requires WellKeyed(s.users) && AllAre(s.users, p)
    ensures AllAre(Remove(s, id, user).users, p)
  {
    if In(s.users, user, id) {
      var c := s.users[user][id];
      DiscardFields(s, c);
      DropAre(s.users, c, p);
    }
  }

  lemma StepAre(s: State, op: Op, p: Client -> bool)
    requires Exactly(s, p) && (op.Register? ==> p(op.client) && Compatible(s, op.client))
    ensures Exactly(Step(s, op), p)
  {
    StepExactIff(s, op);
    match op
    case Register(c) => AddAre(s, c, p);
    case Unregister(id, user) => RemoveAre(s, id, user, p);
    case Leave(c) =>
      ReleaseExact(s, c);
      SubsetAre(s.users, Release(s, c).users, p);
  }

  ghost predicate RegisterOnly(ops: seq<Op>, p: Client -> bool) {
    forall i :: 0 <= i < |ops| && ops[i].Register? ==> p(ops[i].client)
  }

  lemma RegisterPrefix(ops: seq<Op>, n: nat, p: Client -> bool)
    requires RegisterOnly(ops, p) && n < |ops|
    ensures RegisterOnly(ops[..n], p) && (ops[n].Register? ==> p(ops[n].client))
  {
  }

  ghost predicate Exactly(s: State, p: Client -> bool) {
    Inv(s) && AllAre(s.users, p)
  }

  /** If every registration of a compatible run has a property, so has every registered connection. */
  lemma {:induction false} RunAre(s: State, ops: seq<Op>, p: Client -> bool)
    requires Exactly(s, p) && CompatibleRun(s, ops) && RegisterOnly(ops, p)
    ensures Exactly(Run(s, ops), p)
    decreases |ops|
  {
    if ops != [] {
      var n := |ops| - 1;
      RegisterPrefix(ops, n, p);
      CompatiblePrefix(s, ops, n);
      RunAre(s, ops[..n], p);
      StepAre(Run(s, ops[..n]), ops[n], p);
    }
  }

  /**
   * By the attributes alone: who is in the observer store, the agent store and the SSE store. What a store
   * holds is the registered connection itself.
   */
  ghost predicate KindsByAttributes(s: State, u: UserId, id: ClientId) {
    && (In(s.observers, u, id)
        <==> s.observersOn && In(s.users, u, id) && s.users[u][id].attrs.userType == "observer")
    && (In(s.agents, u, id)
        <==> s.agentsOn && In(s.users, u, id) && s.users[u][id].attrs.userType in ["agent", "bot"])
    && (In(s.sse, u, id) <==> In(s.users, u, id) && s.users[u][id].attrs.sse)
    && (In(s.observers, u, id) ==> s.observers[u][id] == s.users[u][id])
    && (In(s.agents, u, id) ==> s.agents[u][id] == s.users[u][id])
    && (In(s.sse, u, id) ==> s.sse[u][id] == s.users[u][id])
  }

  /** A classified store, when it is on, holds the registered connections of its kind. */
  lemma KindAt(kind: Kind, on: bool, store: Store, users: Store, u: UserId, id: ClientId)
    requires store == if on then Filter(kind, users) else map[]
    ensures In(store, u, id) <==> on && In(users, u, id) && Is(kind, users[u][id])
    ensures In(store, u, id) ==> store[u][id] == users[u][id]
  {
    if In(users, u, id) && Is(kind, users[u][id]) {
      assert id in Only(kind, users[u]);
    }
  }

  /** In an exact state of genuine connections the classified stores follow the attributes. */
  lemma KindsExact(s: State, u: UserId, id: ClientId)
    requires Inv(s) && AllGenuine(s.users)
    ensures KindsByAttributes(s, u, id)
  {
    KindsFollow(s, u, id);
  }

  lemma KindsFollow(s: State, u: UserId, id: ClientId)
    requires SseExact(s) && ObserversExact(s) && AgentsExact(s)
    requires In(s.users, u, id) ==> Genuine(s.users[u][id])
    ensures KindsByAttributes(s, u, id)
  {
    KindAt(Observer, s.observersOn, s.observers, s.users, u, id);
    KindAt(Agent, s.agentsOn, s.agents, s.users, u, id);
    KindAt(Sse, true, s.sse, s.users, u, id);
    if In(s.users, u, id) {
      KindsOf(s.users[u][id]);
    }
  }

  lemma KindsOf(c: Client)
    requires Genuine(c)
    ensures Is(Observer, c) <==> c.attrs.userType == "observer"
    ensures Is(Agent, c) <==> c.attrs.userType in ["agent", "bot"]
    ensures Is(Sse, c) <==> c.attrs.sse
  {
  }

  /**
   * Broadcasts and lookups may rely on genuine connections whenever only such are registered, and at every
   * moment of such a run the classified stores follow the attributes.
   */
  lemma RunGenuine(observersOn: bool, agentsOn: bool, ops: seq<Op>)
    requires CompatibleRun(Empty(observersOn, agentsOn), ops) && RegisterOnly(ops, c => Genuine(c))
    ensures AllGenuine(Run(Empty(observersOn, agentsOn), ops).users)
    ensures forall u, id :: KindsByAttributes(Run(Empty(observersOn, agentsOn), ops), u, id)
  {
    EmptyInv(observersOn, agentsOn);
    RunAre(Empty(observersOn, agentsOn), ops, c => Genuine(c));
    var s := Run(Empty(observersOn, agentsOn), ops);
    forall u, id ensures KindsByAttributes(s, u, id) {
      KindsExact(s, u, id);
    }
  }

  /** Who uses a client id, and with which attributes. */
  type Profiles = map<ClientId, (UserId, Attributes)>

  predicate Fits(c: Client, profiles: Profiles) {
    Genuine(c) && c.id in profiles && profiles[c.id] == (c.user, c.attrs)
  }

  lemma FitsAreCompatible(s: State, c: Client, profiles: Profiles)
    requires Inv(s) && AllAre(s.users, x => Fits(x, profiles)) && Fits(c, profiles)
    ensures Compatible(s, c)
  {
    if c.id in s.owner {
      var u := s.owner[c.id];
      assert In(s.users, u, c.id);
      assert Fits(s.users[u][c.id], profiles);
    }
    if In(s.users, c.user, c.id) {
      var a := s.users[c.user][c.id];
      assert Fits(a, profiles);
      assert a.keys == c.keys && a.scope == c.scope;
    }
  }

  lemma LastFits(s: State, init: seq<Op>, c: Client, profiles: Profiles)
    requires Inv(s) && s.users == map[] && CompatibleRun(s, init)
    requires RegisterOnly(init, x => Fits(x, profiles)) && Fits(c, profiles)
    ensures Compatible(Run(s, init), c)
  {
    RunExact(s, init);
    RunAre(s, init, x => Fits(x, profiles));
    FitsAreCompatible(Run(s, init), c, profiles);
  }

  lemma CompatibleAppend(s: State, ops: seq<Op>, n: nat)
    requires |ops| == n + 1 && CompatibleRun(s, ops[..n])
    requires ops[n].Register? ==> Compatible(Run(s, ops[..n]), ops[n].client)
    ensures CompatibleRun(s, ops)
  {
    forall i | 0 <= i < |ops| && ops[i].Register? ensures Compatible(Run(s, ops[..i]), ops[i].client) {
      if i < n {
        assert ops[..n][..i] == ops[..i] && ops[..n][i] == ops[i];
      }
    }
  }

  /** Enough for a compatible run: each id keeps one user and one attribute record. */
  lemma {:induction false} ProfilesSuffice(observersOn: bool, agentsOn: bool, ops: seq<Op>, profiles: Profiles)
    requires RegisterOnly(ops, x => Fits(x, profiles))
    ensures CompatibleRun(Empty(observersOn, agentsOn), ops)
    decreases |ops|
  {
    if ops != [] {
      var n := |ops| - 1;
      assert RegisterOnly(ops[..n], x => Fits(x, profiles));
      ProfilesSuffice(observersOn, agentsOn, ops[..n], profiles);
      EmptyInv(observersOn, agentsOn);
      if ops[n].Register? {
        LastFits(Empty(observersOn, agentsOn), ops[..n], ops[n].client, profiles);
      }
      CompatibleAppend(Empty(observersOn, agentsOn), ops, n);
    }
  }
}
