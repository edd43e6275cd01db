/**
 Registrations by key and keys by registration id: the shape shared by the WATCH index
 (src/state/WatchManager.cpp) and the blocking registries (src/state/BlockingManager.hpp). An owner
 stands for the callback of a registration.
 */
module Registrations {
  datatype Registration<T> = Registration(id: nat, owner: T)

  datatype Index<T> = Index(watchers: map<string, seq<Registration<T>>>, idToKeys: map<nat, seq<string>>, nextId: nat)

  function Lookup<T>(watchers: map<string, seq<Registration<T>>>, key: string): seq<Registration<T>> {
    if key in watchers then watchers[key] else []
  }

  function At<T>(w: Index<T>, key: string): seq<Registration<T>> {
    Lookup(w.watchers, key)
  }

  function KeysOf<T>(w: Index<T>, id: nat): seq<string> {
    if id in w.idToKeys then w.idToKeys[id] else []
  }

  /** The registrations whose ids are not in `ids`, in order. */
  function Keep<T>(regs: seq<Registration<T>>, ids: set<nat>): (kept: seq<Registration<T>>)
    ensures |kept| <= |regs|
  {
    if regs == [] then []
    else (if regs[0].id in ids then [] else [regs[0]]) + Keep(regs[1..], ids)
  }

  /** Everything registered under `ids` is gone from both maps, and no key keeps an empty list. */
  function Purged<T>(w: Index<T>, ids: set<nat>): Index<T> {
    Index(map key | key in w.watchers && Keep(w.watchers[key], ids) != [] :: Keep(w.watchers[key], ids),
          w.idToKeys - ids, w.nextId)
  }

  /** Every registration's key is listed under its id. */
  ghost predicate Listed<T>(w: Index<T>) {
    forall key, r :: key in w.watchers && r in w.watchers[key] ==> r.id in w.idToKeys && key in w.idToKeys[r.id]
  }

  lemma {:induction false} KeepMembers<T>(regs: seq<Registration<T>>, ids: set<nat>, r: Registration<T>)
    ensures r in Keep(regs, ids) <==> r in regs && r.id !in ids
  {
    if regs != [] {
      KeepMembers(regs[1..], ids, r);
      assert r in regs <==> r == regs[0] || r in regs[1..];
    }
  }

  lemma {:induction false} KeepTwice<T>(regs: seq<Registration<T>>, a: set<nat>, b: set<nat>)
    ensures Keep(Keep(regs, a), b) == Keep(regs, a + b)
  {
    if regs != [] {
      KeepTwice(regs[1..], a, b);
      if regs[0].id !in a {
        assert ([regs[0]] + Keep(regs[1..], a))[1..] == Keep(regs[1..], a);
      } else {
        assert [] + Keep(regs[1..], a) == Keep(regs[1..], a);
      }
    }
  }

  lemma {:induction false} KeepAll<T>(regs: seq<Registration<T>>, ids: set<nat>)
    requires forall r :: r in regs ==> r.id !in ids
    ensures Keep(regs, ids) == regs
  {
    if regs != [] {
      assert forall r :: r in regs[1..] ==> r in regs;
      KeepAll(regs[1..], ids);
    }
  }

  lemma PurgedMembers<T>(w: Index<T>, ids: set<nat>, key: string, r: Registration<T>)
    ensures r in At(Purged(w, ids), key) <==> r in At(w, key) && r.id !in ids
  {
    KeepMembers(At(w, key), ids, r);
  }

  lemma PurgedTwice<T>(w: Index<T>, a: set<nat>, b: set<nat>)
    ensures Purged(Purged(w, a), b) == Purged(w, a + b)
  {
    var twice, once := Purged(Purged(w, a), b), Purged(w, a + b);
    forall key
      ensures key in twice.watchers <==> key in once.watchers
      ensures key in twice.watchers ==> twice.watchers[key] == once.watchers[key]
    {
      if key in w.watchers {
        KeepTwice(w.watchers[key], a, b);
      }
    }
    assert twice.watchers == once.watchers;
    assert twice.idToKeys == once.idToKeys;
  }

  ghost predicate NoneEmpty<T>(w: Index<T>) {
    forall key :: key in w.watchers ==> w.watchers[key] != []
  }

  lemma PurgeNone<T>(w: Index<T>)
    requires NoneEmpty(w)
    ensures Purged(w, {}) == w
  {
    forall key | key in w.watchers ensures Keep(w.watchers[key], {}) == w.watchers[key] {
      KeepAll(w.watchers[key], {});
    }
    assert Purged(w, {}).watchers == w.watchers;
  }

  // ---------------------------------------------------------------- erasing key by key

  /** One key's list loses the registrations of `id`, and the key goes if nothing is left. */
  function Erased<T>(
    watchers: map<string, seq<Registration<T>>>, key: string, id: nat): map<string, seq<Registration<T>>>
  {
    if key !in watchers then watchers
    else
      var kept := Keep(watchers[key], {id});
      if kept == [] then watchers - {key} else watchers[key := kept]
  }

  /** The same for each of `keys` in turn. */
  function ErasedAll<T>(
    watchers: map<string, seq<Registration<T>>>, keys: seq<string>, id: nat): map<string, seq<Registration<T>>>
  {
    if keys == [] then watchers else Erased(ErasedAll(watchers, keys[..|keys| - 1], id), keys[|keys| - 1], id)
  }

  lemma {:induction false} ErasedAllAt<T>(
    watchers: map<string, seq<Registration<T>>>, keys: seq<string>, id: nat, key: string)
    ensures
      var after := ErasedAll(watchers, keys, id);
      && (key in after <==> key in watchers && (key in keys ==> Keep(watchers[key], {id}) != []))
      && (key in after ==> after[key] == if key in keys then Keep(watchers[key], {id}) else watchers[key])
  {
    if keys != [] {
      var before, last := keys[..|keys| - 1], keys[|keys| - 1];
      ErasedAllAt(watchers, before, id, key);
      assert keys == before + [last];
      if key in watchers {
        KeepTwice(watchers[key], {id}, {id});
        assert {id} + {id} == {id};
      }
    }
  }

  lemma KeptElsewhere<T>(w: Index<T>, id: nat, key: string)
    requires Listed(w) && key in w.watchers && (id in w.idToKeys ==> key !in w.idToKeys[id])
    ensures Keep(w.watchers[key], {id}) == w.watchers[key]
  {
    KeepAll(w.watchers[key], {id});
  }

  /** Erasing an id from the keys listed for it erases it everywhere. */
  lemma ErasingListedKeysPurges<T>(w: Index<T>, id: nat)
    requires Listed(w) && NoneEmpty(w)
    ensures Purged(w, {id}).watchers == ErasedAll(w.watchers, KeysOf(w, id), id)
  {
    var after := ErasedAll(w.watchers, KeysOf(w, id), id);
    forall key | key in w.watchers
      ensures key in after <==> Keep(w.watchers[key], {id}) != []
      ensures key in after ==> after[key] == Keep(w.watchers[key], {id})
    {
      ErasedAllAt(w.watchers, KeysOf(w, id), id, key);
      if key !in KeysOf(w, id) {
        KeptElsewhere(w, id, key);
      }
    }
    forall key | key in after ensures key in w.watchers {
      ErasedAllAt(w.watchers, KeysOf(w, id), id, key);
    }
  }

  lemma PurgedIsErased<T>(w: Index<T>, id: nat)
    requires Listed(w) && NoneEmpty(w)
    ensures Purged(w, {id}) ==
            if id in w.idToKeys then Index(ErasedAll(w.watchers, w.idToKeys[id], id), w.idToKeys - {id}, w.nextId)
            else w
  {
    ErasingListedKeysPurges(w, id);
  }

  /** The loop of `unwatch` and `unregister` over the keys of an id. */
  method EraseEach<T>(watchers: map<string, seq<Registration<T>>>, keys: seq<string>, id: nat)
    returns (after: map<string, seq<Registration<T>>>)
    ensures after == ErasedAll(watchers, keys, id)
  {
    after := watchers;
    for i := 0 to |keys|
      invariant after == ErasedAll(watchers, keys[..i], id)
    {
      var key := keys[i];
      if key in after {
        var registrations := Keep(after[key], {id});
        after := if registrations == [] then after - {key} else after[key := registrations];
      }
      assert keys[..i + 1][..i] == keys[..i];
    }
    assert keys[..|keys|] == keys;
  }
}
