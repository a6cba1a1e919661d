/** The registry object: its methods update the maps and counters in place. */
module ShardedRegistries {
  import opened Options
  import opened RefIndex
  import opened Registry

  class ShardedRegistry {
    const observersOn: bool
    const agentsOn: bool
    var users: Store
    var owner: map<ClientId, UserId>
    var clientCount: int
    var userCount: int
    var sse: Store
    var sseCount: int
    var observers: Store
    var observerCount: int
    var scopes: map<Scope, Clients>
    var agents: Store
    var agentCount: int
    var index: Index

    ghost function Contents(): State
      reads this
    {
      State(observersOn, agentsOn, users, owner, clientCount, userCount, sse, sseCount,
            observers, observerCount, scopes, agents, agentCount, index)
    }

    ghost predicate Valid()
      reads this
    {
      WellKeyed(users)
    }

    constructor (agentEnabled: bool, observerEnabled: bool)
      ensures Valid() && Contents() == Empty(observerEnabled, agentEnabled)
    {
      observersOn, agentsOn := observerEnabled, agentEnabled;
      users, owner, clientCount, userCount := map[], map[], 0, 0;
      sse, sseCount, observers, observerCount, scopes := map[], 0, map[], 0, map[];
      agents, agentCount, index := map[], 0, map[];
    }

    method AddToIndexes(keys: seq<Key>, user: UserId)
      modifies `index
      ensures Contents() == old(Contents()).(index := IncrementAll(old(index), keys, user))
    {
      var i := 0;
      while i < |keys|
        invariant 0 <= i <= |keys|
        invariant index == IncrementAll(old(index), keys[..i], user)
      {
        assert keys[..i + 1][..i] == keys[..i];
        var k := keys[i];
        var refs: map<UserId, int> := if k in index then index[k] else map[];
        refs := refs[user := (if user in refs then refs[user] else 0) + 1];
        index := index[k := refs];
        i := i + 1;
      }
      assert keys[..|keys|] == keys;
    }

    method RemoveFromIndexes(keys: seq<Key>, user: UserId)
      modifies `index
      ensures Contents() == old(Contents()).(index := DecrementAll(old(index), keys, user))
    {
      var i := 0;
      while i < |keys|
        invariant 0 <= i <= |keys|
        invariant index == DecrementAll(old(index), keys[..i], user)
      {
        assert keys[..i + 1][..i] == keys[..i];
        var k := keys[i];
        if k in index {
          var refs := index[k];
          if (if user in refs then refs[user] else 0) <= 1 {
            refs := refs - {user};
          } else {
            refs := refs[user := refs[user] - 1];
          }
          if refs == map[] {
            index := index - {k};
          } else {
            index := index[k := refs];
          }
        }
        i := i + 1;
      }
      assert keys[..|keys|] == keys;
    }

    method AddToUsers(c: Client) returns (isNew: bool)
      modifies this
      ensures isNew == !In(old(users), c.user, c.id)
      ensures Contents() == Enroll(old(Contents()), c)
    {
      var userClients: Clients := map[];
      if c.user in users {
        userClients := users[c.user];
      } else {
        userCount := userCount + 1;
      }
      isNew := c.id !in userClients;
      users := users[c.user := userClients[c.id := c]];
      owner := owner[c.id := c.user];
    }

    method AddSseClient(c: Client, isNew: bool)
      modifies this
      ensures Contents()
              == old(Contents()).(sse := Put(old(sse), c.user, c), sseCount := old(sseCount) + (if isNew then 1 else 0))
    {
      var userClients: Clients := map[];
      if c.user in sse {
        userClients := sse[c.user];
      }
      sse := sse[c.user := userClients[c.id := c]];
      if isNew {
        sseCount := sseCount + 1;
      }
    }

    method AddObserverClient(c: Client)
      modifies this
      ensures Contents() == if !observersOn then old(Contents()) else old(Contents()).(
                observers := Put(old(observers), c.user, c),
                observerCount := old(observerCount) + (if c.user in old(observers) then 0 else 1),
                scopes := Put(old(scopes), c.scope, c))
    {
      if !observersOn {
        return;
      }
      var userClients: Clients := map[];
      if c.user in observers {
        userClients := observers[c.user];
      } else {
        observerCount := observerCount + 1;
      }
      observers := observers[c.user := userClients[c.id := c]];
      scopes := Put(scopes, c.scope, c);
    }

    method AddAgentClient(c: Client)
      modifies this
      ensures Contents() == if !agentsOn then old(Contents()) else old(Contents()).(
                agents := Put(old(agents), c.user, c),
                agentCount := old(agentCount) + (if c.user in old(agents) then 0 else 1))
    {
      if !agentsOn {
        return;
      }
      var userClients: Clients := map[];
      if c.user in agents {
        userClients := agents[c.user];
      } else {
        agentCount := agentCount + 1;
      }
      agents := agents[c.user := userClients[c.id := c]];
    }

    method AddClassified(c: Client, isNew: bool)
      modifies this
      ensures Contents() == Classify(old(Contents()), c, isNew)
    {
      if c.sse {
        AddSseClient(c, isNew);
      }
      if c.observer {
        AddObserverClient(c);
      }
      if c.agent {
        AddAgentClient(c);
      }
    }

    method AddToCounts(c: Client)
      modifies this
      ensures Contents() == CountIn(old(Contents()), c, true)
    {
      clientCount := clientCount + 1;
      AddToIndexes(c.keys, c.user);
    }

    method AddClient(c: Client)
      requires Valid()
      modifies this
      ensures Valid() && Contents() == Add(old(Contents()), c)
      ensures Inv(old(Contents())) ==> (Inv(Contents()) <==> Compatible(old(Contents()), c))
      ensures Changes(old(users), users, c.user, c.id, Some(c))
    {
      PutKeeps(users, c);
      AddExact(Contents(), c);
      AddChanges(Contents(), c);
      var isNew := AddToUsers(c);
      AddClassified(c, isNew);
      if isNew {
        AddToCounts(c);
      }
    }

    method RemoveFromUsers(id: ClientId, user: UserId) returns (removed: Option<Client>)
      requires Valid()
      modifies this
      ensures removed == Lookup(Bucket(old(users), user), id)
      ensures removed == None ==> Contents() == old(Contents())
      ensures removed.Some? ==> removed.value.id == id && Contents() == Withdraw(old(Contents()), removed.value)
    {
      removed := None;
      if user !in users || id !in users[user] {
        return;
      }
      HeldUnderItsKeys(users, user, id);
      removed := Some(users[user][id]);
      var rest := users[user] - {id};
      if rest == map[] {
        users := users - {user};
        userCount := userCount - 1;
      } else {
        users := users[user := rest];
      }
      assert users == Drop(old(users), user, id);
    }

    method RemoveSseClient(c: Client)
      modifies this
      ensures Contents() == old(Contents()).(sse := Drop(old(sse), c.user, c.id), sseCount := old(sseCount) - 1)
    {
      if c.user in sse {
        var rest := sse[c.user] - {c.id};
        if rest == map[] {
          sse := sse - {c.user};
        } else {
          sse := sse[c.user := rest];
        }
      }
      sseCount := sseCount - 1;
    }

    method RemoveObserverClient(c: Client)
      modifies this
      ensures Contents() == if !observersOn then old(Contents()) else old(Contents()).(
                observers := Drop(old(observers), c.user, c.id),
                observerCount := old(observerCount)
                  - (if c.user in old(observers) && c.user !in Drop(old(observers), c.user, c.id) then 1 else 0),
                scopes := Drop(old(scopes), c.scope, c.id))
    {
      if !observersOn {
        return;
      }
      if c.user in observers {
        var rest := observers[c.user] - {c.id};
        if rest == map[] {
          observers := observers - {c.user};
          observerCount := observerCount - 1;
        } else {
          observers := observers[c.user := rest];
        }
      }
      scopes := Drop(scopes, c.scope, c.id);
    }

    method RemoveAgentClient(c: Client)
      modifies this
      ensures Contents() == if !agentsOn then old(Contents()) else old(Contents()).(
                agents := Drop(old(agents), c.user, c.id),
                agentCount := old(agentCount)
                  - (if c.user in old(agents) && c.user !in Drop(old(agents), c.user, c.id) then 1 else 0))
    {
      if !agentsOn {
        return;
      }
      if c.user in agents {
        var rest := agents[c.user] - {c.id};
        if rest == map[] {
          agents := agents - {c.user};
          agentCount := agentCount - 1;
        } else {
          agents := agents[c.user := rest];
        }
      }
    }

    method RemoveClassified(c: Client)
      modifies this
      ensures Contents() == Declassify(old(Contents()), c)
    {
      if c.sse {
        RemoveSseClient(c);
      }
      if c.observer {
        RemoveObserverClient(c);
      }
      if c.agent {
        RemoveAgentClient(c);
      }
    }

    method RemoveFromCounts(c: Client)
      modifies this
      ensures Contents() == CountOut(old(Contents()), c)
    {
      owner := owner - {c.id};
      clientCount := clientCount - 1;
      RemoveFromIndexes(c.keys, c.user);
    }

    method RemoveClient(id: ClientId, user: UserId) returns (removed: Option<Client>)
      requires Valid()
      modifies this
      ensures Valid() && Contents() == Remove(old(Contents()), id, user)
      ensures removed == Lookup(Bucket(old(users), user), id)
      ensures Inv(old(Contents())) ==> Inv(Contents())
      ensures Changes(old(users), users, user, id, None)
    {
      HeldUnderItsKeys(users, user, id);
      RemoveExact(Contents(), id, user);
      RemoveChanges(Contents(), id, user);
      removed := RemoveFromUsers(id, user);
      if removed == None {
        return;
      }
      RemoveClassified(removed.value);
      RemoveFromCounts(removed.value);
    }

    /**
     * handleUnregister and RemoveUnsafe. The result tells whether the connection was the current
     * holder of its id: only then is its timeout cancelled and its channel closed.
     */
    method Unregister(c: Client) returns (current: bool)
      requires Valid()
      modifies this
      ensures Valid() && Contents() == Release(old(Contents()), c)
      ensures current <==> In(old(users), c.user, c.id) && old(users)[c.user][c.id].conn == c.conn
      ensures Inv(old(Contents())) ==> Inv(Contents()) && (!current ==> Contents() == old(Contents()))
    {
      SupersededUnchanged(Contents(), c);
      var removed := RemoveClient(c.id, c.user);
      if removed == None {
        return false;
      }
      if removed.value.conn != c.conn {
        AddClient(removed.value);
        return false;
      }
      return true;
    }

    /** CleanupHalfRegistered: the same on the registry, but the connection is closed in any case. */
    method CleanupHalfRegistered(c: Client) returns (cancelTimeout: bool, close: bool)
      requires Valid()
      modifies this
      ensures Valid() && Contents() == Release(old(Contents()), c) && close
      ensures cancelTimeout <==> In(old(users), c.user, c.id) && old(users)[c.user][c.id].conn == c.conn
      ensures Inv(old(Contents())) ==> Inv(Contents()) && (!cancelTimeout ==> Contents() == old(Contents()))
    {
      SupersededUnchanged(Contents(), c);
      cancelTimeout, close := false, true;
      var removed := RemoveClient(c.id, c.user);
      if removed != None && removed.value.conn != c.conn {
        AddClient(removed.value);
      } else if removed != None {
        cancelTimeout := true;
      }
    }
  }

  /** The registrations change at one user and id alone. */
  ghost predicate Changes(before: Store, after: Store, user: UserId, id: ClientId, now: Option<Client>) {
    forall u, i :: Lookup(Bucket(after, u), i) == if u == user && i == id then now else Lookup(Bucket(before, u), i)
  }

  lemma AddChanges(s: State, c: Client)
    ensures Changes(s.users, Add(s, c).users, c.user, c.id, Some(c))
  {
    AddFields(s, c);
    forall u, i
      ensures Lookup(Bucket(Put(s.users, c.user, c), u), i)
              == if u == c.user && i == c.id then Some(c) else Lookup(Bucket(s.users, u), i)
    {
      BucketPut(s.users, c.user, c, u);
    }
  }

  lemma RemoveChanges(s: State, id: ClientId, user: UserId)
    requires WellKeyed(s.users)
    ensures Changes(s.users, Remove(s, id, user).users, user, id, None)
  {
    if In(s.users, user, id) {
      var c := s.users[user][id];
      assert c.user == user && c.id == id;
      DiscardFields(s, c);
      forall u, i
        ensures Lookup(Bucket(Drop(s.users, user, id), u), i)
                == if u == user && i == id then None else Lookup(Bucket(s.users, u), i)
      {
        LookupDrop(s.users, user, c, u, i);
      }
    }
  }

  lemma AddExact(s: State, c: Client)
    ensures Inv(s) ==> (Inv(Add(s, c)) <==> Compatible(s, c))
  {
    if Inv(s) {
      AddKeepsInv(s, c);
    }
  }

  lemma RemoveExact(s: State, id: ClientId, user: UserId)
    ensures Inv(s) ==> Inv(Remove(s, id, user))
  {
    if Inv(s) {
      RemoveKeepsInv(s, id, user);
    }
  }

  lemma SupersededUnchanged(s: State, c: Client)
    ensures Inv(s) ==> Inv(Release(s, c))
    ensures Inv(s) && !(In(s.users, c.user, c.id) && s.users[c.user][c.id].conn == c.conn) ==> Release(s, c) == s
  {
    if Inv(s) {
      ReleaseExact(s, c);
    }
  }

  lemma PutKeeps(users: Store, c: Client)
    ensures WellKeyed(users) ==> WellKeyed(Put(users, c.user, c))
  {
    if WellKeyed(users) {
      PutShape(users, c.user, c);
      forall u, i | In(Put(users, c.user, c), u, i)
        ensures Put(users, c.user, c)[u][i].user == u && Put(users, c.user, c)[u][i].id == i
      {
        BucketPut(users, c.user, c, u);
        assert (u == c.user && i == c.id) || In(users, u, i);
      }
    }
  }

  lemma HeldUnderItsKeys(users: Store, user: UserId, id: ClientId)
    requires WellKeyed(users)
    ensures In(users, user, id) ==> users[user][id].user == user && users[user][id].id == id
    ensures WellKeyed(Drop(users, user, id))
  {
  }
}
