/**
 * Attribute and namespace broadcasts on one node. Whatever path is taken (index lookup, empty hit,
 * ratio fallback to a full scan, serial or chunked fan-out), the connections a delivery is tried on
 * are those of a plain scan of the registry with the same condition and envelope, each once.
 *
 * A delivery is one element of the returned sequence. Maps are walked in an arbitrary order.
 */
module Broadcast {
  import opened RefIndex
  import opened Registry
  import opened ConnectionRouting

  const FULL_SCAN_PERCENT := 50
  const PARALLEL_USERS := 512

  type Condition = Client -> bool

  /** ClientMatchesEnvelope: the application strictly, the namespace unless the envelope leaves it empty. */
  predicate MatchesEnvelope(a: Attributes, app: string, ns: string) {
    a.app == app && (ns == "" || a.ns == ns)
  }

  // ---------------------------------------------------------------------------------------------
  // Reference: what a plain scan of the main store finds
  // ---------------------------------------------------------------------------------------------

  ghost function Registered(users: Store): set<Client> {
    set u, id | u in users && id in users[u] :: users[u][id]
  }

  /** The clients of some users that satisfy a condition. */
  ghost function Matching(users: Store, among: set<UserId>, ok: Condition): set<Client> {
    set c | c in Registered(users) && c.user in among && ok(c)
  }

  /** The sequence holds the clients of the set, each once. */
  ghost predicate Covered(sent: seq<Client>, targets: set<Client>) {
    multiset(sent) == multiset(targets)
  }

  // ---------------------------------------------------------------------------------------------
  // Walking the stores
  // ---------------------------------------------------------------------------------------------

  /** One user's connections, the condition applied to each of them. */
  method DeliverToUser(cs: Clients, ok: Condition) returns (sent: seq<Client>)
    requires forall id :: id in cs ==> cs[id].id == id
    ensures Covered(sent, set c | c in cs.Values && ok(c))
  {
    sent := [];
    var rest := cs.Keys;
    ghost var targets: set<Client> := {};
    while rest != {}
      invariant rest <= cs.Keys
      invariant forall c :: c in targets <==> c.id in cs && c.id !in rest && cs[c.id] == c && ok(c)
      invariant Covered(sent, targets)
      decreases |rest|
    {
      var id :| id in rest;
      rest := rest - {id};
      if ok(cs[id]) {
        assert cs[id] !in targets;
        sent := sent + [cs[id]];
        targets := targets + {cs[id]};
      }
    }
    forall c ensures c in targets <==> c in cs.Values && ok(c) {
      if c in cs.Values {
        var id :| id in cs && cs[id] == c;
      }
    }
    assert targets == set c | c in cs.Values && ok(c);
  }

  lemma UserMatching(users: Store, u: UserId, ok: Condition)
    requires WellKeyed(users)
    ensures forall c :: c in Bucket(users, u).Values && ok(c) <==> c in Matching(users, {u}, ok)
  {
  }

  lemma MatchingGrows(users: Store, among: set<UserId>, u: UserId, ok: Condition)
    requires u !in among
    ensures Matching(users, among + {u}, ok) == Matching(users, among, ok) + Matching(users, {u}, ok)
    ensures Matching(users, among, ok) !! Matching(users, {u}, ok)
  {
  }

  lemma CoveredAppend(sent: seq<Client>, more: seq<Client>, targets: set<Client>, fresh': set<Client>)
    requires Covered(sent, targets) && Covered(more, fresh') && targets !! fresh'
    ensures Covered(sent + more, targets + fresh')
  {
  }

  method DeliverToOne(users: Store, u: UserId, ok: Condition) returns (sent: seq<Client>)
    requires WellKeyed(users)
    ensures Covered(sent, Matching(users, {u}, ok))
  {
    var cs := Bucket(users, u);
    forall id | id in cs ensures cs[id].id == id {
      assert In(users, u, id);
    }
    sent := DeliverToUser(cs, ok);
    UserMatching(users, u, ok);
    assert (set c | c in cs.Values && ok(c)) == Matching(users, {u}, ok);
  }

  /** Range over a whole store. */
  method DeliverToAll(users: Store, ok: Condition) returns (sent: seq<Client>)
    requires WellKeyed(users)
    ensures Covered(sent, Matching(users, users.Keys, ok))
  {
    sent := [];
    var rest := users.Keys;
    ghost var done: set<UserId> := {};
    while rest != {}
      invariant rest !! done && rest + done == users.Keys
      invariant Covered(sent, Matching(users, done, ok))
      decreases |rest|
    {
      var u :| u in rest;
      var more := DeliverToOne(users, u, ok);
      MatchingGrows(users, done, u, ok);
      CoveredAppend(sent, more, Matching(users, done, ok), Matching(users, {u}, ok));
      sent, rest, done := sent + more, rest - {u}, done + {u};
    }
    assert done == users.Keys;
  }

  ghost predicate Distinct(list: seq<UserId>) {
    forall i, j :: 0 <= i < j < |list| ==> list[i] != list[j]
  }

  ghost function Elements(list: seq<UserId>): set<UserId> {
    set u | u in list
  }

  /** The serial fan-out over a list of users. */
  method DeliverToList(users: Store, list: seq<UserId>, ok: Condition) returns (sent: seq<Client>)
    requires WellKeyed(users) && Distinct(list)
    ensures Covered(sent, Matching(users, Elements(list), ok))
  {
    sent := [];
    var i := 0;
    while i < |list|
      invariant 0 <= i <= |list|
      invariant Covered(sent, Matching(users, Elements(list[..i]), ok))
    {
      var more := DeliverToOne(users, list[i], ok);
      assert Elements(list[..i + 1]) == Elements(list[..i]) + {list[i]};
      MatchingGrows(users, Elements(list[..i]), list[i], ok);
      CoveredAppend(sent, more, Matching(users, Elements(list[..i]), ok), Matching(users, {list[i]}, ok));
      sent := sent + more;
      i := i + 1;
    }
    assert list[..|list|] == list;
  }

  /** ceil(n / workers), with no more workers than users. */
  function ChunkSize(n: nat, workers: nat): (chunk: nat)
    requires n > 0 && workers > 0
    ensures chunk > 0
  {
    var w := if workers > n then n else workers;
    assert n + w - 1 >= w;
    (n + w - 1) / w
  }

  /** One worker's slice after the slices before it. */
  method DeliverSlice(users: Store, list: seq<UserId>, from: nat, to: nat, ok: Condition, sent: seq<Client>)
    returns (sent': seq<Client>)
    requires WellKeyed(users) && Distinct(list) && from <= to <= |list|
    requires Covered(sent, Matching(users, Elements(list[..from]), ok))
    ensures Covered(sent', Matching(users, Elements(list[..to]), ok))
  {
    var more := DeliverToList(users, list[from..to], ok);
    SliceMatching(users, list, from, to, ok);
    CoveredAppend(sent, more,
                  Matching(users, Elements(list[..from]), ok), Matching(users, Elements(list[from..to]), ok));
    sent' := sent + more;
  }

  /** Slicing the list among workers delivers what the serial fan-out delivers. */
  method DeliverInChunks(users: Store, list: seq<UserId>, ok: Condition, workers: nat) returns (sent: seq<Client>)
    requires WellKeyed(users) && Distinct(list) && workers > 0
    ensures Covered(sent, Matching(users, Elements(list), ok))
  {
    if |list| < PARALLEL_USERS {
      sent := DeliverToList(users, list, ok);
      return;
    }
    var chunk := ChunkSize(|list|, workers);
    sent := [];
    var i := 0;
    while i < |list|
      invariant 0 <= i
      invariant Covered(sent, Matching(users, Elements(list[..if i < |list| then i else |list|]), ok))
      decreases |list| - i
    {
      var end := if i + chunk > |list| then |list| else i + chunk;
      sent := DeliverSlice(users, list, i, end, ok, sent);
      i := i + chunk;
    }
    assert list[..|list|] == list;
  }

  lemma SliceMatching(users: Store, list: seq<UserId>, from: nat, to: nat, ok: Condition)
    requires Distinct(list) && from <= to <= |list|
    ensures Matching(users, Elements(list[..to]), ok)
            == Matching(users, Elements(list[..from]), ok) + Matching(users, Elements(list[from..to]), ok)
    ensures Matching(users, Elements(list[..from]), ok) !! Matching(users, Elements(list[from..to]), ok)
  {
  }

  // ---------------------------------------------------------------------------------------------
  // Full scan and index path
  // ---------------------------------------------------------------------------------------------

  lemma SseStoreMatching(users: Store, ok: Condition)
    requires WellKeyed(users)
    ensures WellKeyed(Filter(Sse, users))
    ensures forall c ::
        c in Matching(Filter(Sse, users), Filter(Sse, users).Keys, ok)
        <==> c in Matching(users, users.Keys, ok) && c.sse
  {
    var f := Filter(Sse, users);
    forall u, id ensures In(f, u, id) <==> In(users, u, id) && users[u][id].sse
                 ensures In(f, u, id) ==> f[u][id] == users[u][id]
    {
      FilterBucket(Sse, users, u);
    }
    forall c ensures c in Matching(f, f.Keys, ok) <==> c in Matching(users, users.Keys, ok) && c.sse {
      if c in Registered(f) {
        var u, id :| u in f && id in f[u] && f[u][id] == c;
        assert In(f, u, id);
        assert In(users, u, id);
      }
      if c in Registered(users) && c.sse {
        var u, id :| u in users && id in users[u] && users[u][id] == c;
        assert In(users, u, id);
        assert In(f, u, id);
        assert c in Registered(f) && u in f;
      }
    }
  }

  lemma ScanSplits(users: Store, webSocket: Condition, ok: Condition)
    requires WellKeyed(users) && forall c :: webSocket(c) <==> !c.sse && ok(c)
    ensures WellKeyed(Filter(Sse, users))
    ensures var w := Matching(users, users.Keys, webSocket);
            var e := Matching(Filter(Sse, users), Filter(Sse, users).Keys, ok);
            w !! e && w + e == Matching(users, users.Keys, ok)
  {
    SseStoreMatching(users, ok);
  }

  /** The full scan: WebSocket connections from the main store, then the SSE store. */
  method FullScan(s: State, ok: Condition) returns (sent: seq<Client>)
    requires WellKeyed(s.users) && s.sse == Filter(Sse, s.users)
    ensures Covered(sent, Matching(s.users, s.users.Keys, ok))
  {
    var webSocket := (c: Client) => !c.sse && ok(c);
    ScanSplits(s.users, webSocket, ok);
    sent := DeliverToAll(s.users, webSocket);
    var more := DeliverToAll(s.sse, ok);
    CoveredAppend(sent, more, Matching(s.users, s.users.Keys, webSocket), Matching(s.sse, s.sse.Keys, ok));
    sent := sent + more;
  }

  /** The local users found under a key, in any order. */
  method UsersUnder(index: Index, k: Key) returns (list: seq<UserId>)
    ensures Distinct(list) && Elements(list) == Refs(index, k).Keys && |list| == |Refs(index, k)|
  {
    list := [];
    var rest := Refs(index, k).Keys;
    while rest != {}
      invariant Distinct(list) && Elements(list) !! rest && Elements(list) + rest == Refs(index, k).Keys
      invariant |list| + |rest| == |Refs(index, k)|
      decreases |rest|
    {
      var u :| u in rest;
      assert u !in Elements(list);
      assert Elements(list + [u]) == Elements(list) + {u};
      list, rest := list + [u], rest - {u};
    }
  }

  /** When the condition implies the key, the users found under it include every target. */
  lemma IndexSuffices(s: State, k: Key, ok: Condition)
    requires Inv(s) && AllGenuine(s.users) && k.dimension != Group
    requires forall c :: ok(c) ==> Carries(c.attrs, k)
    ensures Matching(s.users, Refs(s.index, k).Keys, ok) == Matching(s.users, s.users.Keys, ok)
  {
    forall c | c in Matching(s.users, s.users.Keys, ok) ensures c.user in Refs(s.index, k) {
      var u, id :| u in s.users && id in s.users[u] && s.users[u][id] == c;
      assert In(s.users, u, id);
      LookupExact(s, k, u);
    }
    forall c | c in Matching(s.users, Refs(s.index, k).Keys, ok) ensures c.user in s.users {
      var u, id :| u in s.users && id in s.users[u] && s.users[u][id] == c;
      assert In(s.users, u, id);
    }
  }

  /**
   * Whom an attribute broadcast is for, by the attributes alone: open connections of the application with
   * the attribute, in the namespace of the envelope or, if that is empty, in any.
   */
  predicate AttrTarget(c: Client, closed: set<nat>, app: string, ns: string, dimension: Dimension, value: string) {
    && c.conn !in closed && c.attrs.app == app
    && (ns != "" ==> c.attrs.ns == ns)
    && (dimension == UserType ==> c.attrs.userType == value)
    && (dimension == Role ==> c.attrs.role == value)
    && (dimension == ClientType ==> c.attrs.clientType == value)
    && (dimension == Department ==> c.attrs.department == value)
  }

  /** The filter every path applies. */
  predicate AttrFilter(c: Client, closed: set<nat>, app: string, ns: string, dimension: Dimension, value: string)
    requires dimension != Group
  {
    c.conn !in closed && MatchesEnvelope(c.attrs, app, ns) && AttrValue(c.attrs, dimension) == value
  }

  lemma AttrFilterExact(c: Client, closed: set<nat>, app: string, ns: string, dimension: Dimension, value: string)
    requires dimension != Group && dimension != Namespace
    ensures AttrFilter(c, closed, app, ns, dimension, value) <==> AttrTarget(c, closed, app, ns, dimension, value)
    ensures AttrFilter(c, closed, app, ns, dimension, value) && value != ""
            ==> Carries(c.attrs, Key(NormalizeApp(app), dimension, value))
  {
  }

  /** The decision between empty hit, full scan and the users found under the key. */
  method ScanOrPick(s: State, k: Key, ok: Condition) returns (sent: seq<Client>)
    requires Inv(s) && AllGenuine(s.users) && k.dimension != Group
    requires forall c :: ok(c) ==> Carries(c.attrs, k)
    ensures Covered(sent, Matching(s.users, s.users.Keys, ok))
  {
    IndexSuffices(s, k, ok);
    var users := UsersUnder(s.index, k);
    if |users| == 0 {
      assert Elements(users) == {};
      return [];
    }
    if |users| * 100 >= s.clientCount * FULL_SCAN_PERCENT {
      sent := FullScan(s, ok);
      return;
    }
    sent := DeliverToList(s.users, users, ok);
  }

  /** broadcastByAttr, for user type, role, client type and department. */
  method BroadcastByAttr(s: State, closed: set<nat>, app: string, ns: string, dimension: Dimension, value: string)
    returns (sent: seq<Client>)
    requires Inv(s) && AllGenuine(s.users) && dimension != Group && dimension != Namespace
    ensures Covered(sent, set c | c in Registered(s.users) && AttrTarget(c, closed, app, ns, dimension, value))
  {
    var ok := (c: Client) => AttrFilter(c, closed, app, ns, dimension, value);
    forall c
      ensures ok(c) <==> AttrTarget(c, closed, app, ns, dimension, value)
      ensures ok(c) && value != "" ==> Carries(c.attrs, Key(NormalizeApp(app), dimension, value))
    {
      AttrFilterExact(c, closed, app, ns, dimension, value);
    }
    AllMatching(s.users, ok, set c | c in Registered(s.users) && AttrTarget(c, closed, app, ns, dimension, value));
    if value == "" {
      sent := FullScan(s, ok);
    } else {
      sent := ScanOrPick(s, Key(NormalizeApp(app), dimension, value), ok);
    }
  }

  lemma AllMatching(users: Store, ok: Condition, targets: set<Client>)
    requires WellKeyed(users) && forall c :: c in targets <==> c in Registered(users) && ok(c)
    ensures Matching(users, users.Keys, ok) == targets
  {
  }

  /** Whom a namespace broadcast is for, by the attributes alone. */
  predicate NamespaceTarget(c: Client, closed: set<nat>, app: string, namespace: string) {
    c.conn !in closed && c.attrs.app == app && c.attrs.ns == namespace
  }

  /** deliverFanoutToUser: an envelope without application does not filter. */
  predicate FanoutTarget(c: Client, closed: set<nat>, app: string, ns: string) {
    c.conn !in closed && (app == "" || MatchesEnvelope(c.attrs, app, ns))
  }

  /** The same decision for namespaces, whose picked users go through the fan-out's own filter. */
  method ScanOrFanOut(s: State, k: Key, ok: Condition, fanout: Condition, workers: nat) returns (sent: seq<Client>)
    requires Inv(s) && AllGenuine(s.users) && k.dimension != Group && workers > 0
    requires forall c :: (ok(c) ==> Carries(c.attrs, k)) && (ok(c) <==> fanout(c))
    ensures Covered(sent, Matching(s.users, s.users.Keys, ok))
  {
    IndexSuffices(s, k, ok);
    var users := UsersUnder(s.index, k);
    if |users| == 0 {
      assert Elements(users) == {};
      return [];
    }
    if |users| * 100 >= s.clientCount * FULL_SCAN_PERCENT {
      sent := FullScan(s, ok);
      return;
    }
    sent := DeliverInChunks(s.users, users, fanout, workers);
    assert Matching(s.users, Elements(users), fanout) == Matching(s.users, Elements(users), ok);
  }

  /** BroadcastToNamespace; an empty namespace is not its business. */
  method BroadcastToNamespace(s: State, closed: set<nat>, app: string, namespace: string, workers: nat)
    returns (sent: seq<Client>)
    requires Inv(s) && AllGenuine(s.users) && workers > 0
    ensures namespace == "" ==> sent == []
    ensures namespace != ""
            ==> Covered(sent, set c |
                          c in Registered(s.users)
                          && NamespaceTarget(c, closed, if app == "" then DEFAULT_APP else app, namespace))
  {
    if namespace == "" {
      return [];
    }
    var envelopeApp := NormalizeApp(app);
    var ok := (c: Client) =>
      c.conn !in closed && MatchesEnvelope(c.attrs, envelopeApp, namespace) && c.attrs.ns == namespace;
    var fanout := (c: Client) => FanoutTarget(c, closed, envelopeApp, namespace);
    AllMatching(s.users, ok, set c | c in Registered(s.users) && NamespaceTarget(c, closed, envelopeApp, namespace));
    sent := ScanOrFanOut(s, Key(envelopeApp, Namespace, namespace), ok, fanout, workers);
  }
}
