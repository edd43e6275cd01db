/**
 The objects behind BLPOP: the registry template of src/state/BlockingManager.hpp, the serve loop of
 src/state/BlockingManager.cpp, and the push and pop handlers of src/command/impl/ListCommands.cpp.
 */
module BlockingManager {
  import opened Base
  import opened Registrations
  import opened StoreData
  import opened Store
  import opened Commands
  import opened Blocking
  import Runs = BlockingRuns

  class BlockingRegistry<T> {
    var callbacks: map<string, seq<Registration<T>>>
    var idToKeys: map<nat, seq<string>>
    var nextId: nat

    ghost function State(): Index<T>
      reads this
    {
      Index(callbacks, idToKeys, nextId)
    }

    constructor ()
      ensures State() == Index(map[], map[], 1)
    {
      callbacks, idToKeys, nextId := map[], map[], 1;
    }

    method RegisterCallbacks(keys: seq<string>, owner: T) returns (id: nat)
      modifies this
      ensures id == old(nextId) && State() == Joined(old(State()), keys, owner)
    {
      id, nextId := nextId, nextId + 1;
      idToKeys := idToKeys[id := keys];
      for i := 0 to |keys|
        invariant callbacks == Enlisted(old(callbacks), keys[..i], Registration(id, owner))
        invariant nextId == id + 1 && idToKeys == old(idToKeys)[id := keys]
      {
        var key := keys[i];
        var list := if key in callbacks then callbacks[key] else [];
        callbacks := callbacks[key := list + [Registration(id, owner)]];
        assert keys[..i + 1][..i] == keys[..i];
      }
      assert keys[..|keys|] == keys;
    }

    method Unregister(id: nat)
      requires Listed(State()) && NoneEmpty(State())
      modifies this
      ensures State() == Purged(old(State()), {id})
    {
      PurgedIsErased(State(), id);
      if id !in idToKeys {
        return;
      }
      callbacks := EraseEach(callbacks, idToKeys[id], id);
      idToKeys := idToKeys - {id};
    }
  }

  lemma PurgedStaysListed<T>(w: Index<T>, ids: set<nat>)
    requires Listed(w)
    ensures Listed(Purged(w, ids)) && NoneEmpty(Purged(w, ids))
  {
    forall key, r | key in Purged(w, ids).watchers && r in Purged(w, ids).watchers[key]
      ensures r in w.watchers[key] && r.id !in ids
    {
      KeepMembers(w.watchers[key], ids, r);
    }
  }

  /** The serve loop: what it hands out, in order, and what it leaves. */
  method ServeBlpopWaiters<T>(registry: BlockingRegistry<T>, store: Store, key: string)
    returns (deliveries: seq<Delivery<T>>)
    requires Listed(registry.State()) && NoneEmpty(registry.State())
    modifies registry, store
    ensures Served(store.data, registry.State(), deliveries) == Serve(old(store.data), old(registry.State()), key)
  {
    deliveries := [];
    ghost var whole := Serve(store.data, registry.State(), key);
    while true
      invariant Listed(registry.State()) && NoneEmpty(registry.State())
      invariant
        var rest := Serve(store.data, registry.State(), key);
        rest.(deliveries := deliveries + rest.deliveries) == whole
      decreases |At(registry.State(), key)|
    {
      if key !in registry.callbacks || registry.callbacks[key] == [] {
        break;
      }
      ghost var before := store.data;
      var popped := store.LPop(key, 1);
      if !popped.Popped? || popped.items == [] {
        break;
      }
      var first := registry.callbacks[key][0];
      ServeRound(before, registry.State(), key, deliveries);
      PurgedStaysListed(registry.State(), {first.id});
      registry.Unregister(first.id);
      deliveries := deliveries + [Delivery(first, key, popped.items[0])];
    }
  }

  /** RPUSH: the push, then the waiters of the key. The reply is the length before anyone is served. */
  method RPush(registry: BlockingRegistry<nat>, store: Store, key: string, values: seq<string>)
    returns (length: nat, deliveries: seq<Delivery<nat>>)
    requires Listed(registry.State()) && NoneEmpty(registry.State())
    modifies registry, store
    ensures Runs.World(store.data, registry.State(), deliveries) ==
            Runs.AfterWrite(Runs.World(old(store.data), old(registry.State()), []), RPushOp(key, values), 0)
    ensures length == |ItemsAt(old(store.data), key)| + |values|
  {
    length := store.RPush(key, values);
    deliveries := ServeBlpopWaiters(registry, store, key);
    assert [] + deliveries == deliveries;
  }

  method LPush(registry: BlockingRegistry<nat>, store: Store, key: string, values: seq<string>)
    returns (length: nat, deliveries: seq<Delivery<nat>>)
    requires Listed(registry.State()) && NoneEmpty(registry.State())
    modifies registry, store
    ensures Runs.World(store.data, registry.State(), deliveries) ==
            Runs.AfterWrite(Runs.World(old(store.data), old(registry.State()), []), LPushOp(key, values), 0)
    ensures length == |ItemsAt(old(store.data), key)| + |values|
  {
    length := store.LPush(key, values);
    deliveries := ServeBlpopWaiters(registry, store, key);
    assert [] + deliveries == deliveries;
  }

  /** BLPOP: the first item of the first key that has a list, or a place in the queues of all keys. */
  method Blpop(registry: BlockingRegistry<nat>, store: Store, client: nat, keys: seq<string>)
    returns (found: Option<(string, string)>)
    requires NoEmptyList(store.data)
    modifies registry, store
    ensures Runs.World(store.data, registry.State(), []) ==
            Runs.AfterBlpop(Runs.World(old(store.data), old(registry.State()), []), client, keys)
    ensures found.None? <==> forall i :: 0 <= i < |keys| ==> !HasList(old(store.data), keys[i])
    ensures found.Some? ==>
              exists k: nat :: Runs.IsFirstList(old(store.data), keys, k) &&
                               found == Some((keys[k], ItemsAt(old(store.data), keys[k])[0]))
  {
    for i := 0 to |keys|
      invariant store.data == old(store.data) && registry.State() == old(registry.State())
      invariant forall j :: 0 <= j < i ==> !HasList(store.data, keys[j])
    {
      var popped := store.LPop(keys[i], 1);
      if popped.Popped? {
        Runs.FirstListIsFirst(old(store.data), keys, i);
        assert Runs.IsFirstList(old(store.data), keys, i);
        return Some((keys[i], popped.items[0]));
      }
    }
    Runs.FirstListFinds(store.data, keys);
    var id := registry.RegisterCallbacks(keys, client);
    return None;
  }
}
