/**
 The WATCH index (src/state/WatchManager.cpp): registrations by key and keys by registration id. An
 owner stands for the callback of a registration, which marks one connection's transaction dirty.
 */
module Watches {
  import opened Registrations

  /** A new registration goes to the back of its key's list. */
  function Added<T>(w: Index<T>, key: string, owner: T): Index<T> {
    Index(w.watchers[key := At(w, key) + [Registration(w.nextId, owner)]],
          w.idToKeys[w.nextId := KeysOf(w, w.nextId) + [key]],
          w.nextId + 1)
  }

  /** Each key's registrations are in the order of their ids. */
  predicate Increasing<T>(regs: seq<Registration<T>>) {
    forall i, j :: 0 <= i < j < |regs| ==> regs[i].id < regs[j].id
  }

  ghost predicate ListsOk<T>(w: Index<T>) {
    forall key :: key in w.watchers ==> w.watchers[key] != [] && Increasing(w.watchers[key])
  }

  /** Every registration is known by its id, under its key and no other. */
  ghost predicate Forward<T>(w: Index<T>) {
    forall key, r :: key in w.watchers && r in w.watchers[key] ==>
      0 < r.id < w.nextId && r.id in w.idToKeys && w.idToKeys[r.id] == [key]
  }

  ghost predicate Registered<T>(w: Index<T>, id: nat, key: string) {
    key in w.watchers && exists r :: r in w.watchers[key] && r.id == id
  }

  /** Every known id stands for one key and a registration there. */
  ghost predicate Backward<T>(w: Index<T>) {
    forall id :: id in w.idToKeys ==>
      0 < id < w.nextId && |w.idToKeys[id]| == 1 && Registered(w, id, w.idToKeys[id][0])
  }

  /** The two maps describe the same relation; ids are nonzero, unique, and below the next one. */
  ghost predicate Consistent<T>(w: Index<T>) {
    w.nextId > 0 && ListsOk(w) && Forward(w) && Backward(w)
  }

  lemma ConsistentIsListed<T>(w: Index<T>)
    requires Consistent(w)
    ensures Listed(w) && NoneEmpty(w)
  {}

  // ---------------------------------------------------------------- the index stays consistent

  lemma {:induction false} KeepIncreasing<T>(regs: seq<Registration<T>>, ids: set<nat>)
    requires Increasing(regs)
    ensures Increasing(Keep(regs, ids))
  {
    if regs != [] {
      KeepIncreasing(regs[1..], ids);
      var rest := Keep(regs[1..], ids);
      forall j | 0 <= j < |rest| ensures regs[0].id < rest[j].id {
        KeepMembers(regs[1..], ids, rest[j]);
      }
    }
  }

  lemma AddedForward<T>(w: Index<T>, key: string, owner: T)
    requires Consistent(w)
    ensures ListsOk(Added(w, key, owner)) && Forward(Added(w, key, owner))
  {
    var v := Added(w, key, owner);
    assert v.watchers[key] == At(w, key) + [Registration(w.nextId, owner)];
    assert KeysOf(w, w.nextId) == [];
    forall k, r | k in v.watchers && r in v.watchers[k]
      ensures 0 < r.id < v.nextId && r.id in v.idToKeys && v.idToKeys[r.id] == [k]
    {
      assert r in At(w, k) || (k == key && r.id == w.nextId);
    }
  }

  lemma AddedBackward<T>(w: Index<T>, key: string, owner: T)
    requires Consistent(w)
    ensures Backward(Added(w, key, owner))
  {
    var v := Added(w, key, owner);
    forall id | id in v.idToKeys ensures |v.idToKeys[id]| == 1 && Registered(v, id, v.idToKeys[id][0]) {
      if id == w.nextId {
        assert Registration(w.nextId, owner) in v.watchers[key];
      } else {
        var r :| r in w.watchers[w.idToKeys[id][0]] && r.id == id;
        assert r in v.watchers[v.idToKeys[id][0]];
      }
    }
  }

  lemma AddedConsistent<T>(w: Index<T>, key: string, owner: T)
    requires Consistent(w)
    ensures Consistent(Added(w, key, owner))
  {
    AddedForward(w, key, owner);
    AddedBackward(w, key, owner);
  }

  lemma PurgedForward<T>(w: Index<T>, ids: set<nat>)
    requires Consistent(w)
    ensures ListsOk(Purged(w, ids)) && Forward(Purged(w, ids))
  {
    var v := Purged(w, ids);
    forall key | key in v.watchers ensures Increasing(v.watchers[key]) {
      KeepIncreasing(w.watchers[key], ids);
    }
    forall key, r | key in v.watchers && r in v.watchers[key]
      ensures 0 < r.id < v.nextId && r.id in v.idToKeys && v.idToKeys[r.id] == [key]
    {
      KeepMembers(w.watchers[key], ids, r);
    }
  }

  lemma PurgedBackward<T>(w: Index<T>, ids: set<nat>)
    requires Consistent(w)
    ensures Backward(Purged(w, ids))
  {
    var v := Purged(w, ids);
    forall id | id in v.idToKeys ensures Registered(v, id, v.idToKeys[id][0]) {
      var key := w.idToKeys[id][0];
      var r :| r in w.watchers[key] && r.id == id;
      KeepMembers(w.watchers[key], ids, r);
    }
  }

  lemma PurgedConsistent<T>(w: Index<T>, ids: set<nat>)
    requires Consistent(w)
    ensures Consistent(Purged(w, ids))
  {
    PurgedForward(w, ids);
    PurgedBackward(w, ids);
  }

  // ---------------------------------------------------------------- agreement with the connections

  /** Every registration is one its owner believes it holds. */
  ghost predicate Held<T>(w: Index<T>, watched: map<T, map<string, nat>>) {
    forall key, r :: key in w.watchers && r in w.watchers[key] ==>
      r.owner in watched && key in watched[r.owner] && watched[r.owner][key] == r.id
  }

  /** Whatever a connection believes it watches is registered. */
  ghost predicate Real<T>(w: Index<T>, watched: map<T, map<string, nat>>) {
    forall c, key :: c in watched && key in watched[c] ==>
      key in w.watchers && Registration(watched[c][key], c) in w.watchers[key]
  }

  /** The index and what each connection believes it watches describe the same relation. */
  ghost predicate Agreed<T>(w: Index<T>, watched: map<T, map<string, nat>>) {
    Held(w, watched) && Real(w, watched)
  }

  lemma SameIdSameRegistration<T>(w: Index<T>, key: string, r: Registration<T>, other: string, q: Registration<T>)
    requires Consistent(w) && key in w.watchers && r in w.watchers[key]
    requires other in w.watchers && q in w.watchers[other] && r.id == q.id
    ensures key == other && r == q
  {
    assert [key] == w.idToKeys[r.id] == [other];
    assert key == [key][0] == [other][0] == other;
    var i :| 0 <= i < |w.watchers[key]| && w.watchers[key][i] == r;
    var j :| 0 <= j < |w.watchers[key]| && w.watchers[key][j] == q;
    assert i == j;
  }

  /** The registration ids a connection holds are exactly those of the registrations it owns. */
  lemma OwnsIffHoldsId<T>(w: Index<T>, watched: map<T, map<string, nat>>, c: T, key: string, r: Registration<T>)
    requires Consistent(w) && Agreed(w, watched) && c in watched && key in w.watchers && r in w.watchers[key]
    ensures r.id in watched[c].Values <==> r.owner == c
  {
    if r.id in watched[c].Values {
      var other :| other in watched[c] && watched[c][other] == r.id;
      SameIdSameRegistration(w, key, r, other, Registration(r.id, c));
    }
  }

  /** Clearing one connection's watches removes all its registrations and none of any other's. */
  lemma ClearRemovesExactly<T>(w: Index<T>, watched: map<T, map<string, nat>>, c: T, key: string, r: Registration<T>)
    requires Consistent(w) && Agreed(w, watched) && c in watched
    ensures r in At(Purged(w, watched[c].Values), key) <==> r in At(w, key) && r.owner != c
  {
    PurgedMembers(w, watched[c].Values, key, r);
    if r in At(w, key) {
      OwnsIffHoldsId(w, watched, c, key, r);
    }
  }

  lemma ClearKeepsHeld<T>(w: Index<T>, watched: map<T, map<string, nat>>, c: T, after: map<T, map<string, nat>>)
    requires Consistent(w) && Agreed(w, watched) && c in watched
    requires forall d :: d in watched && d != c ==> d in after && after[d] == watched[d]
    ensures Held(Purged(w, watched[c].Values), after)
  {
    var v := Purged(w, watched[c].Values);
    forall key, r | key in v.watchers && r in v.watchers[key]
      ensures r.owner in after && key in after[r.owner] && after[r.owner][key] == r.id
    {
      ClearRemovesExactly(w, watched, c, key, r);
      assert r in At(w, key) && r.owner != c;
    }
  }

  lemma OthersStayReal<T>(
    w: Index<T>, v: Index<T>, watched: map<T, map<string, nat>>, c: T, after: map<T, map<string, nat>>)
    requires Real(w, watched)
    requires forall key, r :: r in At(w, key) && r.owner != c ==> r in At(v, key)
    requires forall d, key :: d in after && key in after[d] ==>
               d != c && d in watched && key in watched[d] && watched[d][key] == after[d][key]
    ensures Real(v, after)
  {
    forall d, key | d in after && key in after[d]
      ensures key in v.watchers && Registration(after[d][key], d) in v.watchers[key]
    {
      assert Registration(watched[d][key], d) in At(w, key);
      assert Registration(watched[d][key], d) in At(v, key);
    }
  }

  lemma ClearKeepsReal<T>(w: Index<T>, watched: map<T, map<string, nat>>, c: T, after: map<T, map<string, nat>>)
    requires Consistent(w) && Agreed(w, watched) && c in watched
    requires forall d, key :: d in after && key in after[d] ==>
               d != c && d in watched && key in watched[d] && watched[d][key] == after[d][key]
    ensures Real(Purged(w, watched[c].Values), after)
  {
    forall key, r | r in At(w, key) && r.owner != c ensures r in At(Purged(w, watched[c].Values), key) {
      ClearRemovesExactly(w, watched, c, key, r);
    }
    OthersStayReal(w, Purged(w, watched[c].Values), watched, c, after);
  }

  /** After clearing, the connection may stay, watching nothing, or be forgotten. */
  lemma ClearKeepsAgreed<T>(w: Index<T>, watched: map<T, map<string, nat>>, c: T)
    requires Consistent(w) && Agreed(w, watched) && c in watched
    ensures Agreed(Purged(w, watched[c].Values), watched[c := map[]])
    ensures Agreed(Purged(w, watched[c].Values), watched - {c})
  {
    ClearKeepsHeld(w, watched, c, watched[c := map[]]);
    ClearKeepsReal(w, watched, c, watched[c := map[]]);
    ClearKeepsHeld(w, watched, c, watched - {c});
    ClearKeepsReal(w, watched, c, watched - {c});
  }

  function WithKey(watched: map<string, nat>, key: string, id: nat): map<string, nat> {
    watched[key := id]
  }

  lemma AddKeepsHeld<T>(w: Index<T>, watched: map<T, map<string, nat>>, c: T, key: string)
    requires Agreed(w, watched) && c in watched && key !in watched[c]
    ensures Held(Added(w, key, c), watched[c := WithKey(watched[c], key, w.nextId)])
  {
    var v, after := Added(w, key, c), watched[c := WithKey(watched[c], key, w.nextId)];
    forall k, r | k in v.watchers && r in v.watchers[k]
      ensures r.owner in after && k in after[r.owner] && after[r.owner][k] == r.id
    {
      assert r in At(w, k) || (k == key && r == Registration(w.nextId, c));
    }
  }

  lemma AddKeepsReal<T>(w: Index<T>, watched: map<T, map<string, nat>>, c: T, key: string)
    requires Agreed(w, watched) && c in watched && key !in watched[c]
    ensures Real(Added(w, key, c), watched[c := WithKey(watched[c], key, w.nextId)])
  {
    var v, after := Added(w, key, c), watched[c := WithKey(watched[c], key, w.nextId)];
    forall d, k | d in after && k in after[d]
      ensures k in v.watchers && Registration(after[d][k], d) in v.watchers[k]
    {
      assert (d == c && k == key) || Registration(after[d][k], d) in At(w, k);
      assert Registration(w.nextId, c) in v.watchers[key];
    }
  }

  // ---------------------------------------------------------------- WATCH with several keys

  /** WATCH registers each key that is not watched yet, in argument order. */
  function AddedAll<T>(
    w: Index<T>, watched: map<string, nat>, keys: seq<string>, owner: T): (Index<T>, map<string, nat>)
  {
    if keys == [] then (w, watched)
    else
      var (v, now) := AddedAll(w, watched, keys[..|keys| - 1], owner);
      var key := keys[|keys| - 1];
      if key in now then (v, now) else (Added(v, key, owner), WithKey(now, key, v.nextId))
  }

  lemma UpdateTwice<T, V>(m: map<T, V>, c: T, first: V, second: V)
    ensures m[c := first][c := second] == m[c := second]
  {}

  lemma AddOneKeepsAgreed<T>(w: Index<T>, watched: map<T, map<string, nat>>, c: T, key: string)
    requires Consistent(w) && Agreed(w, watched) && c in watched && key !in watched[c]
    ensures Consistent(Added(w, key, c)) && Agreed(Added(w, key, c), watched[c := WithKey(watched[c], key, w.nextId)])
  {
    AddedConsistent(w, key, c);
    AddKeepsHeld(w, watched, c, key);
    AddKeepsReal(w, watched, c, key);
  }

  lemma {:induction false} AddAllKeepsAgreed<T>(w: Index<T>, watched: map<T, map<string, nat>>, keys: seq<string>, c: T)
    requires Consistent(w) && Agreed(w, watched) && c in watched
    ensures
      var (v, now) := AddedAll(w, watched[c], keys, c);
      Consistent(v) && Agreed(v, watched[c := now])
  {
    if keys == [] {
      assert watched[c := watched[c]] == watched;
    } else {
      var before, key := keys[..|keys| - 1], keys[|keys| - 1];
      AddAllKeepsAgreed(w, watched, before, c);
      var (v, now) := AddedAll(w, watched[c], before, c);
      if key !in now {
        AddOneKeepsAgreed(v, watched[c := now], c, key);
        UpdateTwice(watched, c, now, WithKey(now, key, v.nextId));
      }
    }
  }

  /** After WATCH the connection watches what it did and the new keys, and keeps its earlier ids. */
  lemma {:induction false} AddedAllWatches<T>(w: Index<T>, watched: map<string, nat>, keys: seq<string>, owner: T)
    ensures
      var now := AddedAll(w, watched, keys, owner).1;
      && now.Keys == watched.Keys + (set key | key in keys)
      && forall key :: key in watched ==> now[key] == watched[key]
  {
    if keys != [] {
      AddedAllWatches(w, watched, keys[..|keys| - 1], owner);
      assert keys == keys[..|keys| - 1] + [keys[|keys| - 1]];
    }
  }

  /** The owners marked dirty when `key` is written. */
  function Owners<T>(w: Index<T>, key: string): set<T> {
    set r | r in At(w, key) :: r.owner
  }

  /** A write to `key` reaches exactly the connections that watch it. */
  lemma OwnersAreWatchers<T>(w: Index<T>, watched: map<T, map<string, nat>>, key: string, c: T)
    requires Agreed(w, watched)
    ensures c in Owners(w, key) <==> c in watched && key in watched[c]
  {
    if c in watched && key in watched[c] {
      assert Registration(watched[c][key], c) in At(w, key);
    }
  }
}
