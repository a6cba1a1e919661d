/** Finding the observers of a message through the scope index. */
module ObserverLookup {
  import opened Options
  import opened Registry
  import opened ConnectionRouting

  /** A message of a namespace and some groups reaches the observers of these scopes. */
  predicate Covers(scope: Scope, ns: string, groups: seq<string>) {
    match scope
    case Everything => true
    case InNamespace(n) => n == ns
    case InGroup(n, g) => n == ns && g != "" && g in groups
  }

  /** A registered, open observer of one of the scopes. */
  predicate Hears(found: Option<Client>, scopes: set<Scope>, closed: set<nat>) {
    found.Some? && found.value.observer && found.value.conn !in closed && found.value.scope in scopes
  }

  /** An open observer whose scope covers the message. */
  predicate Audible(c: Client, ns: string, groups: seq<string>, closed: set<nat>) {
    c.observer && c.conn !in closed && Covers(c.scope, ns, groups)
  }

  /** The sequence lists the clients of the map, each once. */
  ghost predicate Lists(result: seq<Client>, m: Clients) {
    && (forall i, j :: 0 <= i < j < |result| ==> result[i].id != result[j].id)
    && forall c :: c in result <==> Lookup(m, c.id) == Some(c)
  }

  lemma ListsAppend(result: seq<Client>, m: Clients, c: Client)
    requires Lists(result, m) && c.id !in m
    ensures Lists(result + [c], m[c.id := c])
  {
  }

  /** One client of a bucket: taken when open and not seen. */
  method CollectOne(c: Client, closed: set<nat>, seen: set<ClientId>, result: seq<Client>, ghost acc: Clients)
    returns (seen': set<ClientId>, result': seq<Client>, ghost acc': Clients)
    requires seen == acc.Keys && Lists(result, acc)
    ensures seen' == acc'.Keys && Lists(result', acc')
    ensures acc' == if c.id in acc || c.conn in closed then acc else acc[c.id := c]
  {
    seen', result', acc' := seen, result, acc;
    if c.conn !in closed && c.id !in seen' {
      ListsAppend(result', acc', c);
      seen', result', acc' := seen' + {c.id}, result' + [c], acc'[c.id := c];
    }
  }

  /** What collecting the open clients of a bucket adds under one id. */
  function Collected(before: Option<Client>, now: Option<Client>, closed: set<nat>): Option<Client> {
    if before == None && now.Some? && now.value.conn !in closed then now else before
  }

  method Collect(bucket: Clients, closed: set<nat>, seen: set<ClientId>, result: seq<Client>, ghost acc: Clients)
    returns (seen': set<ClientId>, result': seq<Client>, ghost acc': Clients)
    requires seen == acc.Keys && Lists(result, acc)
    requires forall id :: id in bucket ==> bucket[id].id == id
    ensures seen' == acc'.Keys && Lists(result', acc')
    ensures forall id :: Lookup(acc', id) == Collected(Lookup(acc, id), Lookup(bucket, id), closed)
  {
    seen', result', acc' := seen, result, acc;
    var rest := bucket.Keys;
    while rest != {}
      invariant rest <= bucket.Keys
      invariant forall id ::
          Lookup(acc', id)
          == if id in rest then Lookup(acc, id) else Collected(Lookup(acc, id), Lookup(bucket, id), closed)
      invariant seen' == acc'.Keys && Lists(result', acc')
      decreases |rest|
    {
      var id :| id in rest;
      assert Lookup(acc', id) == Lookup(acc, id);
      seen', result', acc' := CollectOne(bucket[id], closed, seen', result', acc');
      rest := rest - {id};
    }
  }

  /** The scope index holds the observers among the registered clients, each under its scope. */
  ghost predicate Observed(scopes: map<Scope, Clients>, registered: Clients) {
    && (forall id :: id in registered ==> registered[id].id == id)
    && forall scope, id :: ScopedAt(scopes, Lookup(registered, id), scope, id)
  }

  /** The observers collected after visiting the buckets of some scopes. */
  ghost predicate Heard(acc: Clients, registered: Clients, visited: set<Scope>, closed: set<nat>) {
    forall id ::
        Lookup(acc, id) == if Hears(Lookup(registered, id), visited, closed) then Lookup(registered, id) else None
  }

  /** Collecting one more scope's bucket extends the audience by exactly that scope. */
  lemma AudienceGrows(scopes: map<Scope, Clients>, found: Option<Client>, scope: Scope, id: ClientId,
                      visited: set<Scope>, closed: set<nat>)
    requires ScopedAt(scopes, found, scope, id)
    ensures Collected(if Hears(found, visited, closed) then found else None, Lookup(Bucket(scopes, scope), id), closed)
            == if Hears(found, visited + {scope}, closed) then found else None
  {
  }

  method Visit(scopes: map<Scope, Clients>, scope: Scope, closed: set<nat>, seen: set<ClientId>, result: seq<Client>,
               ghost acc: Clients, ghost registered: Clients, ghost visited: set<Scope>)
    returns (seen': set<ClientId>, result': seq<Client>, ghost acc': Clients)
    requires Observed(scopes, registered) && seen == acc.Keys && Lists(result, acc)
             && Heard(acc, registered, visited, closed)
    ensures seen' == acc'.Keys && Lists(result', acc') && Heard(acc', registered, visited + {scope}, closed)
  {
    forall id | id in Bucket(scopes, scope) ensures Bucket(scopes, scope)[id].id == id {
      assert ScopedAt(scopes, Lookup(registered, id), scope, id);
    }
    seen', result', acc' := Collect(Bucket(scopes, scope), closed, seen, result, acc);
    forall id
      ensures Lookup(acc', id)
              == if Hears(Lookup(registered, id), visited + {scope}, closed) then Lookup(registered, id) else None
    {
      assert ScopedAt(scopes, Lookup(registered, id), scope, id);
      AudienceGrows(scopes, Lookup(registered, id), scope, id, visited, closed);
    }
  }

  /** getForMessage: exactly the open observers whose scope covers the message, each once. */
  method GetForMessage(scopes: map<Scope, Clients>, ns: string, groups: seq<string>, closed: set<nat>,
                       ghost registered: Clients)
    returns (result: seq<Client>)
    requires Observed(scopes, registered)
    ensures forall i, j :: 0 <= i < j < |result| ==> result[i].id != result[j].id
    ensures forall c ::
        c in result <==> Lookup(registered, c.id) == Some(c) && Audible(c, ns, groups, closed)
  {
    var seen: set<ClientId> := {};
    ghost var acc: Clients, visited: set<Scope> := map[], {};
    result := [];
    seen, result, acc := Visit(scopes, Everything, closed, seen, result, acc, registered, visited);
    visited := visited + {Everything};
    seen, result, acc := Visit(scopes, InNamespace(ns), closed, seen, result, acc, registered, visited);
    visited := visited + {InNamespace(ns)};
    var i := 0;
    while i < |groups|
      invariant 0 <= i <= |groups|
      invariant forall scope :: scope in visited <==> Covers(scope, ns, groups[..i])
      invariant seen == acc.Keys && Lists(result, acc) && Heard(acc, registered, visited, closed)
    {
      assert groups[..i + 1] == groups[..i] + [groups[i]];
      if groups[i] != "" {
        seen, result, acc := Visit(scopes, InGroup(ns, groups[i]), closed, seen, result, acc, registered, visited);
        visited := visited + {InGroup(ns, groups[i])};
      }
      i := i + 1;
    }
    assert groups[..|groups|] == groups;
    forall c
      ensures c in result <==> Lookup(registered, c.id) == Some(c) && Audible(c, ns, groups, closed)
    {
      assert c in result <==> Lookup(acc, c.id) == Some(c);
    }
  }

  ghost function Registered(s: State): Clients {
    map id | id in s.owner && Find(s.users, s.owner, id).Some? :: Find(s.users, s.owner, id).value
  }

  /** In every state that satisfies the invariant the scope index is fit for the lookup above. */
  lemma ScopeIndexFit(s: State)
    requires Inv(s) && s.observersOn
    ensures Observed(s.scopes, Registered(s))
  {
    forall id ensures Lookup(Registered(s), id) == Find(s.users, s.owner, id) {
    }
    forall id | id in Registered(s) ensures Registered(s)[id].id == id {
      assert In(s.users, s.owner[id], id);
    }
    forall scope, id ensures ScopedAt(s.scopes, Lookup(Registered(s), id), scope, id) {
      assert ScopedAt(s.scopes, Find(s.users, s.owner, id), scope, id);
    }
  }

  /** By the attributes alone: an open observer of everything, of the namespace, or of one of the groups in it. */
  predicate IsObserverOf(c: Client, ns: string, groups: seq<string>, closed: set<nat>) {
    && c.attrs.userType == "observer" && c.conn !in closed
    && (c.attrs.ns == "" || (c.attrs.ns == ns && (c.attrs.group == "" || c.attrs.group in groups)))
  }

  lemma AudibleByAttributes(c: Client, ns: string, groups: seq<string>, closed: set<nat>)
    requires Genuine(c)
    ensures Audible(c, ns, groups, closed) <==> IsObserverOf(c, ns, groups, closed)
  {
  }

  /** The observers a message gets from a registry: exactly those its connections' attributes name, each once. */
  method ObserversOf(s: State, ns: string, groups: seq<string>, closed: set<nat>) returns (result: seq<Client>)
    requires Inv(s) && AllGenuine(s.users)
    ensures forall i, j :: 0 <= i < j < |result| ==> result[i].id != result[j].id
    ensures forall c :: c in result <==> && s.observersOn && In(s.users, c.user, c.id) && s.users[c.user][c.id] == c
                                         && IsObserverOf(c, ns, groups, closed)
  {
    ghost var registered: Clients := if s.observersOn then Registered(s) else map[];
    if s.observersOn {
      ScopeIndexFit(s);
    }
    result := GetForMessage(s.scopes, ns, groups, closed, registered);
    forall c
      ensures c in result <==> && s.observersOn && In(s.users, c.user, c.id) && s.users[c.user][c.id] == c
                               && IsObserverOf(c, ns, groups, closed)
    {
      if s.observersOn {
        RegisteredAt(s, c);
        if In(s.users, c.user, c.id) && s.users[c.user][c.id] == c {
          AudibleByAttributes(c, ns, groups, closed);
        }
      }
    }
  }

  lemma RegisteredAt(s: State, c: Client)
    requires Inv(s)
    ensures Lookup(Registered(s), c.id) == Some(c) <==> In(s.users, c.user, c.id) && s.users[c.user][c.id] == c
  {
    if Lookup(Registered(s), c.id) == Some(c) {
      assert In(s.users, s.owner[c.id], c.id);
    }
  }
}
