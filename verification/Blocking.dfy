/**
 BLPOP waiters (src/state/BlockingManager.hpp, src/state/BlockingManager.cpp): who waits on which keys,
 and how pushed items are handed out.
 */
module Blocking {
  import opened Registrations
  import opened StoreData
  import Ops = StoreOps

  /** A waiter was given an item of `key`. */
  datatype Delivery<T> = Delivery(to: Registration<T>, key: string, value: string)

  datatype Served<T> = Served(data: Data, index: Index<T>, deliveries: seq<Delivery<T>>)

  // ---------------------------------------------------------------- registering

  function Enlisted<T>(watchers: map<string, seq<Registration<T>>>, keys: seq<string>, r: Registration<T>)
    : map<string, seq<Registration<T>>>
  {
    if keys == [] then watchers
    else
      var before, key := Enlisted(watchers, keys[..|keys| - 1], r), keys[|keys| - 1];
      before[key := Lookup(before, key) + [r]]
  }

  /** A new waiter queues at each of its keys, once for every time the key is named. */
  function Joined<T>(w: Index<T>, keys: seq<string>, owner: T): Index<T> {
    Index(Enlisted(w.watchers, keys, Registration(w.nextId, owner)), w.idToKeys[w.nextId := keys], w.nextId + 1)
  }

  // ---------------------------------------------------------------- serving

  /** The serve loop: while someone waits at `key` and an item is there, the front waiter gets the front item. */
  function Serve<T>(data: Data, w: Index<T>, key: string): Served<T>
    decreases |At(w, key)|
  {
    if At(w, key) == [] then Served(data, w, [])
    else
      var popped := Ops.LPop(data, key, 1);
      if !popped.result.Popped? || popped.result.items == [] then Served(popped.data, w, [])
      else
        var first := At(w, key)[0];
        PurgingServes(w, key);
        var rest := Serve(popped.data, Purged(w, {first.id}), key);
        rest.(deliveries := [Delivery(first, key, popped.result.items[0])] + rest.deliveries)
  }

  lemma PurgingServes<T>(w: Index<T>, key: string)
    requires At(w, key) != []
    ensures
      var regs := At(w, key);
      At(Purged(w, {regs[0].id}), key) == Keep(regs[1..], {regs[0].id})
  {}

  /** One round of the serve loop, for a loop that collects the deliveries made so far. */
  lemma ServeRound<T>(data: Data, w: Index<T>, key: string, made: seq<Delivery<T>>)
    requires At(w, key) != [] && Ops.LPop(data, key, 1).result.Popped? && Ops.LPop(data, key, 1).result.items != []
    ensures
      var popped, first := Ops.LPop(data, key, 1), At(w, key)[0];
      var now, next := Serve(data, w, key), Serve(popped.data, Purged(w, {first.id}), key);
      && now.(deliveries := made + now.deliveries) ==
         next.(deliveries := (made + [Delivery(first, key, popped.result.items[0])]) + next.deliveries)
      && |At(Purged(w, {first.id}), key)| < |At(w, key)|
  {
    PurgingServes(w, key);
  }

  /** The distinct waiters of a queue, each at its first place. */
  function Waiters<T>(regs: seq<Registration<T>>): seq<Registration<T>>
    decreases |regs|
  {
    if regs == [] then [] else [regs[0]] + Waiters(Keep(regs[1..], {regs[0].id}))
  }

  /** Item i goes to waiter i, as far as both last. */
  function Handed<T>(waiters: seq<Registration<T>>, items: seq<string>, key: string): seq<Delivery<T>> {
    if waiters == [] || items == [] then []
    else [Delivery(waiters[0], key, items[0])] + Handed(waiters[1..], items[1..], key)
  }

  ghost function Ids<T>(waiters: seq<Registration<T>>): set<nat> {
    set r | r in waiters :: r.id
  }

  /** Nothing stored is an empty list. */
  predicate NoEmptyList(data: Data) {
    forall key :: key in data ==> data[key] != List([])
  }

  /** The store with the first `n` items of the list at `key` gone. */
  function Taken(data: Data, key: string, n: nat): Data
    requires n <= |ItemsAt(data, key)|
  {
    if n == 0 then data
    else if n == |ItemsAt(data, key)| then data - {key}
    else data[key := List(ItemsAt(data, key)[n..])]
  }

  lemma TakenOne(data: Data, key: string)
    requires ItemsAt(data, key) != []
    ensures Ops.LPop(data, key, 1) == Ops.Update(Taken(data, key, 1), Ops.Popped([ItemsAt(data, key)[0]]))
    ensures ItemsAt(Taken(data, key, 1), key) == ItemsAt(data, key)[1..]
  {
    assert ItemsAt(data, key)[..1] == [ItemsAt(data, key)[0]];
  }

  lemma TakenMore(data: Data, key: string, n: nat)
    requires 0 < n <= |ItemsAt(data, key)|
    ensures ItemsAt(Taken(data, key, 1), key) == ItemsAt(data, key)[1..]
    ensures Taken(Taken(data, key, 1), key, n - 1) == Taken(data, key, n)
  {
    var items := ItemsAt(data, key);
    if 1 < n < |items| {
      assert items[1..][n - 1..] == items[n..];
    }
  }

  lemma IdsOfFirst<T>(waiters: seq<Registration<T>>, n: nat)
    requires 0 < n <= |waiters|
    ensures {waiters[0].id} + Ids(waiters[1..][..n - 1]) == Ids(waiters[..n])
  {
    assert waiters[..n] == [waiters[0]] + waiters[1..][..n - 1];
  }

  lemma ServeNone<T>(data: Data, w: Index<T>, key: string)
    requires NoneEmpty(w) && (key in data ==> data[key] != List([]))
    requires At(w, key) == [] || ItemsAt(data, key) == []
    ensures Serve(data, w, key) == Served(data, Purged(w, {}), [])
    ensures Ids(Waiters(At(w, key))[..0]) == {}
  {
    PurgeNone(w);
  }

  lemma ServeFirst<T>(data: Data, w: Index<T>, key: string)
    requires At(w, key) != [] && ItemsAt(data, key) != []
    ensures
      var first, items := At(w, key)[0], ItemsAt(data, key);
      var rest := Serve(Taken(data, key, 1), Purged(w, {first.id}), key);
      && |At(Purged(w, {first.id}), key)| < |At(w, key)|
      && Serve(data, w, key) == rest.(deliveries := [Delivery(first, key, items[0])] + rest.deliveries)
      && Waiters(At(w, key)) == [first] + Waiters(At(Purged(w, {first.id}), key))
  {
    TakenOne(data, key);
    PurgingServes(w, key);
  }

  /** The outcome of a fair handing-out at `key`. */
  ghost function Fair<T>(data: Data, w: Index<T>, key: string, waiters: seq<Registration<T>>): Served<T> {
    var items := ItemsAt(data, key);
    var n := Ops.Min(|waiters|, |items|);
    Served(Taken(data, key, n), Purged(w, Ids(waiters[..n])), Handed(waiters, items, key))
  }

  lemma HandedFirst<T>(first: Registration<T>, others: seq<Registration<T>>, items: seq<string>, key: string)
    requires items != []
    ensures Handed([first] + others, items, key) == [Delivery(first, key, items[0])] + Handed(others, items[1..], key)
  {
    assert ([first] + others)[1..] == others;
  }

  lemma FairStep<T>(data: Data, w: Index<T>, key: string, first: Registration<T>, others: seq<Registration<T>>)
    requires ItemsAt(data, key) != []
    ensures
      var rest := Fair(Taken(data, key, 1), Purged(w, {first.id}), key, others);
      Fair(data, w, key, [first] + others) ==
      rest.(deliveries := [Delivery(first, key, ItemsAt(data, key)[0])] + rest.deliveries)
  {
    var waiters := [first] + others;
    var n := Ops.Min(|waiters|, |ItemsAt(data, key)|);
    HandedFirst(first, others, ItemsAt(data, key), key);
    assert waiters[1..] == others;
    TakenMore(data, key, n);
    IdsOfFirst(waiters, n);
    PurgedTwice(w, {first.id}, Ids(others[..n - 1]));
  }

  /**
   Serving is fair and loses nothing: item i goes to the i-th oldest distinct waiter, as far as both
   last; the list keeps the rest in order; and exactly the served waiters leave, from all their keys.
   */
  lemma {:induction false} ServeIsFair<T>(data: Data, w: Index<T>, key: string)
    requires NoneEmpty(w) && (key in data ==> data[key] != List([]))
    ensures Serve(data, w, key) == Fair(data, w, key, Waiters(At(w, key)))
    decreases |At(w, key)|
  {
    if At(w, key) == [] || ItemsAt(data, key) == [] {
      ServeNone(data, w, key);
    } else {
      var first := At(w, key)[0];
      var v := Purged(w, {first.id});
      ServeFirst(data, w, key);
      ServeIsFair(Taken(data, key, 1), v, key);
      FairStep(data, w, key, first, Waiters(At(v, key)));
    }
  }

  // ---------------------------------------------------------------- what fair means

  lemma {:induction false} HandedAt<T>(waiters: seq<Registration<T>>, items: seq<string>, key: string, i: nat)
    requires i < |waiters| && i < |items|
    ensures |Handed(waiters, items, key)| == Ops.Min(|waiters|, |items|)
    ensures Handed(waiters, items, key)[i] == Delivery(waiters[i], key, items[i])
  {
    if 1 < |waiters| && 1 < |items| {
      HandedAt(waiters[1..], items[1..], key, if i == 0 then 0 else i - 1);
    }
  }

  /** Registrations at a key stand in the order of their ids; equal ids are one client naming the key twice. */
  predicate Sorted<T>(regs: seq<Registration<T>>) {
    forall i, j :: 0 <= i < j < |regs| ==> regs[i].id <= regs[j].id
  }

  lemma {:induction false} KeepSorted<T>(regs: seq<Registration<T>>, ids: set<nat>)
    requires Sorted(regs)
    ensures Sorted(Keep(regs, ids))
  {
    if regs != [] {
      KeepSorted(regs[1..], ids);
      var rest := Keep(regs[1..], ids);
      forall j | 0 <= j < |rest| ensures regs[0].id <= rest[j].id {
        KeepMembers(regs[1..], ids, rest[j]);
      }
    }
  }

  lemma {:induction false} WaitersMembers<T>(regs: seq<Registration<T>>, r: Registration<T>)
    requires r in Waiters(regs)
    ensures r in regs
    decreases |regs|
  {
    var others := Keep(regs[1..], {regs[0].id});
    if r in Waiters(others) {
      WaitersMembers(others, r);
      KeepMembers(regs[1..], {regs[0].id}, r);
    }
  }

  lemma {:induction false} EveryIdWaits<T>(regs: seq<Registration<T>>, r: Registration<T>)
    requires r in regs
    ensures exists q :: q in Waiters(regs) && q.id == r.id
    decreases |regs|
  {
    if r.id == regs[0].id {
      assert regs[0] in Waiters(regs);
    } else {
      var others := Keep(regs[1..], {regs[0].id});
      KeepMembers(regs[1..], {regs[0].id}, r);
      EveryIdWaits(others, r);
      var q :| q in Waiters(others) && q.id == r.id;
      assert q in Waiters(regs);
    }
  }

  predicate Oldest<T>(waiters: seq<Registration<T>>) {
    forall i, j :: 0 <= i < j < |waiters| ==> waiters[i].id < waiters[j].id
  }

  lemma OldestInFront<T>(first: Registration<T>, others: seq<Registration<T>>)
    requires Oldest(others) && forall r :: r in others ==> first.id < r.id
    ensures Oldest([first] + others)
  {}

  /** Waiters are served oldest first, and no waiter twice. */
  lemma {:induction false} WaitersOldestFirst<T>(regs: seq<Registration<T>>)
    requires Sorted(regs)
    ensures Oldest(Waiters(regs))
    decreases |regs|
  {
    if regs != [] {
      var others := Keep(regs[1..], {regs[0].id});
      KeepSorted(regs[1..], {regs[0].id});
      WaitersOldestFirst(others);
      forall r | r in Waiters(others) ensures regs[0].id < r.id {
        WaitersMembers(others, r);
        KeepMembers(regs[1..], {regs[0].id}, r);
      }
      OldestInFront(regs[0], Waiters(others));
    }
  }

  lemma KeepServed<T>(regs: seq<Registration<T>>, first: Registration<T>, waiters: seq<Registration<T>>, n: nat)
    requires 0 < n <= |waiters| && waiters[0] == first
    ensures Keep(regs, Ids(waiters[..n])) == Keep(Keep(regs, {first.id}), Ids(waiters[1..][..n - 1]))
  {
    IdsOfFirst(waiters, n);
    KeepTwice(regs, {first.id}, Ids(waiters[1..][..n - 1]));
  }

  /** Once the first `n` are served, the others wait in the order they had. */
  lemma {:induction false} RestKeepWaiting<T>(regs: seq<Registration<T>>, n: nat)
    requires n <= |Waiters(regs)|
    ensures Waiters(Keep(regs, Ids(Waiters(regs)[..n]))) == Waiters(regs)[n..]
    decreases |regs|
  {
    if n == 0 {
      assert Ids(Waiters(regs)[..0]) == {};
      KeepAll(regs, {});
    } else {
      var others := Keep(regs[1..], {regs[0].id});
      KeepServed(regs, regs[0], Waiters(regs), n);
      assert Waiters(regs)[1..] == Waiters(others);
      assert Keep(regs, {regs[0].id}) == others;
      RestKeepWaiting(others, n - 1);
      assert Waiters(regs)[1..][n - 1..] == Waiters(regs)[n..];
    }
  }

  function Values<T>(deliveries: seq<Delivery<T>>): seq<string> {
    if deliveries == [] then [] else [deliveries[0].value] + Values(deliveries[1..])
  }

  lemma {:induction false} HandedValues<T>(waiters: seq<Registration<T>>, items: seq<string>, key: string)
    ensures Values(Handed(waiters, items, key)) == items[..Ops.Min(|waiters|, |items|)]
  {
    if waiters != [] && items != [] {
      HandedValues(waiters[1..], items[1..], key);
      var n := Ops.Min(|waiters|, |items|);
      assert items[..n] == [items[0]] + items[1..][..n - 1];
    }
  }

  /** Serving neither loses, repeats nor reorders an item: what was handed out and what is left make the list. */
  lemma ServeConservesItems<T>(data: Data, w: Index<T>, key: string)
    requires NoneEmpty(w) && (key in data ==> data[key] != List([]))
    ensures var s := Serve(data, w, key); Values(s.deliveries) + ItemsAt(s.data, key) == ItemsAt(data, key)
  {
    var waiters, items := Waiters(At(w, key)), ItemsAt(data, key);
    ServeIsFair(data, w, key);
    HandedValues(waiters, items, key);
    TakenLeaves(data, key, Ops.Min(|waiters|, |items|));
  }

  lemma TakenLeaves(data: Data, key: string, n: nat)
    requires n <= |ItemsAt(data, key)|
    ensures ItemsAt(data, key)[..n] + ItemsAt(Taken(data, key, n), key) == ItemsAt(data, key)
  {}
}
