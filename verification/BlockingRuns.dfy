/** Runs of writes, BLPOPs and timeouts: no wakeup is lost and no waiter is served twice. */
module BlockingRuns {
  import opened Base
  import opened Registrations
  import opened StoreData
  import opened Commands
  import opened Blocking
  import Ops = StoreOps

  /** The store, who waits, and everything handed to waiters so far. */
  datatype World<T> = World(data: Data, index: Index<T>, delivered: seq<Delivery<T>>)

  datatype Step<T> = Write(op: Op, now: nat) | Blpop(client: T, keys: seq<string>) | Timeout(id: nat)

  predicate Pushes(op: Op) {
    op.RPushOp? || op.LPushOp?
  }

  /** A push comes with at least one value, as the argument check of RPUSH and LPUSH demands. */
  predicate Checked(op: Op) {
    Pushes(op) ==> op.values != []
  }

  /** The first of the keys that holds a list. */
  function FirstList(data: Data, keys: seq<string>): Option<string> {
    if keys == [] then None
    else if HasList(data, keys[0]) then Some(keys[0])
    else FirstList(data, keys[1..])
  }

  /** A write command; a push then serves the waiters of its key. */
  function AfterWrite<T>(s: World<T>, op: Op, now: nat): World<T> {
    var data := Run(s.data, op, now).data;
    if !Pushes(op) then s.(data := data)
    else
      var served := Serve(data, s.index, op.key);
      World(served.data, served.index, s.delivered + served.deliveries)
  }

  /** BLPOP takes an item at once if one of its keys has any, and otherwise waits. */
  function AfterBlpop<T>(s: World<T>, client: T, keys: seq<string>): World<T> {
    match FirstList(s.data, keys)
    case Some(key) => s.(data := Ops.LPop(s.data, key, 1).data)
    case None => s.(index := Joined(s.index, keys, client))
  }

  function AfterTimeout<T>(s: World<T>, id: nat): World<T> {
    s.(index := Purged(s.index, {id}))
  }

  predicate Enabled<T>(step: Step<T>) {
    step.Write? ==> Checked(step.op)
  }

  function After<T>(s: World<T>, step: Step<T>): World<T> {
    match step
    case Write(op, now) => AfterWrite(s, op, now)
    case Blpop(client, keys) => AfterBlpop(s, client, keys)
    case Timeout(id) => AfterTimeout(s, id)
  }

  function AfterAll<T>(steps: seq<Step<T>>): World<T> {
    if steps == [] then World(map[], Index(map[], map[], 1), [])
    else After(AfterAll(steps[..|steps| - 1]), steps[|steps| - 1])
  }

  // ---------------------------------------------------------------- invariants

  ghost predicate Bounded<T>(w: Index<T>) {
    && (forall key, r :: key in w.watchers && r in w.watchers[key] ==> r.id < w.nextId)
    && (forall id :: id in w.idToKeys ==> id < w.nextId)
  }

  ghost predicate AllSorted<T>(w: Index<T>) {
    forall key :: key in w.watchers ==> Sorted(w.watchers[key])
  }

  ghost predicate QueuesOk<T>(w: Index<T>) {
    NoneEmpty(w) && Listed(w) && Bounded(w) && AllSorted(w)
  }

  /** No stored list is empty, and no key has both a waiter and a stored list. */
  ghost predicate NoneForgotten<T>(data: Data, w: Index<T>) {
    NoEmptyList(data) && forall key :: key in w.watchers ==> !HasList(data, key)
  }

  /** Each delivery went to a different waiter, and none of them waits any more. */
  ghost predicate ServedOnce<T>(delivered: seq<Delivery<T>>, w: Index<T>) {
    && (forall i, j :: 0 <= i < j < |delivered| ==> delivered[i].to.id != delivered[j].to.id)
    && (forall i :: 0 <= i < |delivered| ==> delivered[i].to.id < w.nextId && delivered[i].to.id !in w.idToKeys)
  }

  ghost predicate Inv<T>(s: World<T>) {
    QueuesOk(s.index) && NoneForgotten(s.data, s.index) && ServedOnce(s.delivered, s.index)
  }

  // ---------------------------------------------------------------- queues

  lemma PurgedQueuesOk<T>(w: Index<T>, ids: set<nat>)
    requires QueuesOk(w)
    ensures QueuesOk(Purged(w, ids))
  {
    var v := Purged(w, ids);
    forall key, r | key in v.watchers && r in v.watchers[key]
      ensures r in w.watchers[key] && r.id !in ids
    {
      KeepMembers(w.watchers[key], ids, r);
    }
    forall key | key in v.watchers ensures Sorted(v.watchers[key]) {
      KeepSorted(w.watchers[key], ids);
    }
  }

  function Copies<T>(r: Registration<T>, n: nat): (copies: seq<Registration<T>>)
    ensures |copies| == n && forall i :: 0 <= i < n ==> copies[i] == r
  {
    if n == 0 then [] else Copies(r, n - 1) + [r]
  }

  function Count(keys: seq<string>, key: string): nat {
    if keys == [] then 0 else Count(keys[..|keys| - 1], key) + (if keys[|keys| - 1] == key then 1 else 0)
  }

  lemma {:induction false} CountPositive(keys: seq<string>, key: string)
    ensures Count(keys, key) > 0 <==> key in keys
  {
    if keys != [] {
      CountPositive(keys[..|keys| - 1], key);
      assert keys == keys[..|keys| - 1] + [keys[|keys| - 1]];
    }
  }

  lemma AppendCopy<T>(regs: seq<Registration<T>>, r: Registration<T>, n: nat)
    ensures (regs + Copies(r, n)) + [r] == regs + Copies(r, n + 1)
  {}

  /** A key's queue grows by the new registration, once for every time the key is named. */
  lemma {:induction false} EnlistedAt<T>(
    watchers: map<string, seq<Registration<T>>>, keys: seq<string>, r: Registration<T>, key: string)
    ensures key in Enlisted(watchers, keys, r) <==> key in watchers || Count(keys, key) > 0
    ensures Lookup(Enlisted(watchers, keys, r), key) == Lookup(watchers, key) + Copies(r, Count(keys, key))
  {
    if keys != [] {
      var before := keys[..|keys| - 1];
      EnlistedAt(watchers, before, r, key);
      AppendCopy(Lookup(watchers, key), r, Count(before, key));
    }
  }

  lemma JoinedAt<T>(w: Index<T>, keys: seq<string>, client: T, key: string)
    requires QueuesOk(w) && key in Joined(w, keys, client).watchers
    ensures
      var regs, last := Joined(w, keys, client).watchers[key], Registration(w.nextId, client);
      && regs != [] && Sorted(regs)
      && forall r :: r in regs ==> r in At(w, key) || (r == last && key in keys)
  {
    EnlistedAt(w.watchers, keys, Registration(w.nextId, client), key);
    CountPositive(keys, key);
  }

  lemma JoinedQueuesOk<T>(w: Index<T>, keys: seq<string>, client: T)
    requires QueuesOk(w)
    ensures QueuesOk(Joined(w, keys, client))
  {
    forall key | key in Joined(w, keys, client).watchers {
      JoinedAt(w, keys, client, key);
    }
  }

  // ---------------------------------------------------------------- no lost wakeup

  /** Only a push makes a list, and no write leaves an empty one. */
  lemma OtherWritesMakeNoList(data: Data, op: Op, now: nat)
    requires NoEmptyList(data) && !Pushes(op)
    ensures
      var after := Run(data, op, now).data;
      && NoEmptyList(after)
      && forall key :: HasList(after, key) ==> HasList(data, key)
  {}

  lemma PushMakesList(data: Data, op: Op, now: nat) returns (items: seq<string>)
    requires Pushes(op) && Checked(op)
    ensures items != [] && Run(data, op, now).data == data[op.key := List(items)]
  {
    items := if op.RPushOp? then ItemsAt(data, op.key) + op.values else Ops.Reversed(op.values) + ItemsAt(data, op.key);
  }

  /** After serving, either the items or the waiters of the key are used up. */
  lemma OneSideRunsOut<T>(data: Data, w: Index<T>, key: string)
    requires NoneEmpty(w) && (key in data ==> data[key] != List([]))
    ensures var s := Serve(data, w, key); key !in s.index.watchers || ItemsAt(s.data, key) == []
  {
    ServeIsFair(data, w, key);
    var regs := At(w, key);
    var n := Ops.Min(|Waiters(regs)|, |ItemsAt(data, key)|);
    if n == |Waiters(regs)| {
      RestKeepWaiting(regs, n);
    }
  }

  lemma PushKeepsNoneForgotten<T>(data: Data, w: Index<T>, key: string, items: seq<string>)
    requires NoneForgotten(data, w) && NoneEmpty(w) && items != []
    ensures var s := Serve(data[key := List(items)], w, key); NoneForgotten(s.data, s.index)
  {
    var pushed := data[key := List(items)];
    ServeIsFair(pushed, w, key);
    OneSideRunsOut(pushed, w, key);
  }

  lemma {:induction false} FirstListFinds(data: Data, keys: seq<string>)
    ensures
      match FirstList(data, keys)
      case Some(key) => key in keys && HasList(data, key)
      case None => forall key :: key in keys ==> !HasList(data, key)
  {
    if keys != [] {
      FirstListFinds(data, keys[1..]);
    }
  }

  /** `keys[k]` is the first of the keys that holds a list. */
  ghost predicate IsFirstList(data: Data, keys: seq<string>, k: nat) {
    && k < |keys| && HasList(data, keys[k])
    && forall i :: 0 <= i < k ==> !HasList(data, keys[i])
  }

  lemma {:induction false} FirstListIsFirst(data: Data, keys: seq<string>, k: nat)
    requires IsFirstList(data, keys, k)
    ensures FirstList(data, keys) == Some(keys[k])
  {
    if k > 0 {
      assert keys[1..][k - 1] == keys[k];
      FirstListIsFirst(data, keys[1..], k - 1);
    }
  }

  /** If any of the keys holds a list, one of them is the first to do so. */
  lemma {:induction false} SomeFirstList(data: Data, keys: seq<string>) returns (k: nat)
    requires exists key :: key in keys && HasList(data, key)
    ensures IsFirstList(data, keys, k)
  {
    if HasList(data, keys[0]) {
      k := 0;
    } else {
      var key :| key in keys && HasList(data, key);
      assert key in keys[1..];
      k := SomeFirstList(data, keys[1..]);
      k := k + 1;
    }
  }

  /** BLPOP takes the front item of the first key that holds a list, and nothing else changes. */
  lemma BlpopTakesFromTheFirst<T>(s: World<T>, client: T, keys: seq<string>, k: nat)
    requires IsFirstList(s.data, keys, k) && NoEmptyList(s.data)
    ensures
      var after := AfterBlpop(s, client, keys);
      && after == s.(data := after.data) && ItemsAt(after.data, keys[k]) == ItemsAt(s.data, keys[k])[1..]
      && forall key :: key != keys[k] ==>
           (key in after.data <==> key in s.data) && (key in after.data ==> after.data[key] == s.data[key])
  {
    FirstListIsFirst(s.data, keys, k);
  }

  /** If none holds a list, BLPOP takes nothing and waits, last in line, once for every time a key is named. */
  lemma BlpopWaits<T>(s: World<T>, client: T, keys: seq<string>, key: string)
    requires forall k :: k in keys ==> !HasList(s.data, k)
    ensures
      var after, r := AfterBlpop(s, client, keys), Registration(s.index.nextId, client);
      && after.data == s.data && after.delivered == s.delivered
      && At(after.index, key) == At(s.index, key) + Copies(r, Count(keys, key))
  {
    FirstListFinds(s.data, keys);
    EnlistedAt(s.index.watchers, keys, Registration(s.index.nextId, client), key);
  }

  lemma BlpopKeepsNoneForgotten<T>(s: World<T>, client: T, keys: seq<string>)
    requires NoneForgotten(s.data, s.index) && QueuesOk(s.index)
    ensures NoneForgotten(AfterBlpop(s, client, keys).data, AfterBlpop(s, client, keys).index)
  {
    FirstListFinds(s.data, keys);
    if FirstList(s.data, keys).None? {
      forall key | key in Joined(s.index, keys, client).watchers ensures key in s.index.watchers || key in keys {
        EnlistedAt(s.index.watchers, keys, Registration(s.index.nextId, client), key);
        CountPositive(keys, key);
      }
    }
  }

  lemma CommandsAreChecked(cmd: Command)
    requires Modelled(cmd) && ToOp(cmd).Ok?
    ensures Checked(ToOp(cmd).value)
  {}

  // ---------------------------------------------------------------- nobody is served twice

  lemma {:induction false} HandedLength<T>(waiters: seq<Registration<T>>, items: seq<string>, key: string)
    ensures |Handed(waiters, items, key)| == Ops.Min(|waiters|, |items|)
  {
    if waiters != [] && items != [] {
      HandedLength(waiters[1..], items[1..], key);
    }
  }

  lemma DeliveriesAreWaiters<T>(data: Data, w: Index<T>, key: string)
    requires QueuesOk(w) && (key in data ==> data[key] != List([]))
    ensures
      var s := Serve(data, w, key);
      && (forall i, j :: 0 <= i < j < |s.deliveries| ==> s.deliveries[i].to.id < s.deliveries[j].to.id)
      && (forall i :: 0 <= i < |s.deliveries| ==>
            s.deliveries[i].to in At(w, key) && s.deliveries[i].to.id !in s.index.idToKeys)
      && s.index.nextId == w.nextId && s.index.idToKeys.Keys <= w.idToKeys.Keys
  {
    ServeIsFair(data, w, key);
    var s, waiters, items := Serve(data, w, key), Waiters(At(w, key)), ItemsAt(data, key);
    HandedLength(waiters, items, key);
    var n := |s.deliveries|;
    WaitersOldestFirst(At(w, key));
    forall i | 0 <= i < n
      ensures s.deliveries[i].to == waiters[i] && waiters[i] in At(w, key) && waiters[i].id in Ids(waiters[..n])
    {
      HandedAt(waiters, items, key, i);
      WaitersMembers(At(w, key), waiters[i]);
      assert waiters[..n][i] == waiters[i];
    }
  }

  lemma ServeKeepsServedOnce<T>(delivered: seq<Delivery<T>>, data: Data, w: Index<T>, key: string)
    requires QueuesOk(w) && ServedOnce(delivered, w) && (key in data ==> data[key] != List([]))
    ensures var s := Serve(data, w, key); ServedOnce(delivered + s.deliveries, s.index)
  {
    DeliveriesAreWaiters(data, w, key);
  }

  // ---------------------------------------------------------------- every run

  lemma WriteKeepsInv<T>(s: World<T>, op: Op, now: nat)
    requires Inv(s) && Checked(op)
    ensures Inv(AfterWrite(s, op, now))
  {
    var data := Run(s.data, op, now).data;
    if Pushes(op) {
      var items := PushMakesList(s.data, op, now);
      PushKeepsNoneForgotten(s.data, s.index, op.key, items);
      ServeKeepsServedOnce(s.delivered, data, s.index, op.key);
      ServeIsFair(data, s.index, op.key);
      PurgedQueuesOk(s.index, Ids(Waiters(At(s.index, op.key))[..Ops.Min(|Waiters(At(s.index, op.key))|, |items|)]));
    } else {
      OtherWritesMakeNoList(s.data, op, now);
    }
  }

  lemma StepKeepsInv<T>(s: World<T>, step: Step<T>)
    requires Inv(s) && Enabled(step)
    ensures Inv(After(s, step))
  {
    match step
    case Write(op, now) => WriteKeepsInv(s, op, now);
    case Blpop(client, keys) =>
      BlpopKeepsNoneForgotten(s, client, keys);
      JoinedQueuesOk(s.index, keys, client);
    case Timeout(id) => PurgedQueuesOk(s.index, {id});
  }

  /**
   In every reachable state: no stored list is empty, no key has both a waiter and a stored list, and no
   waiter has been served twice or still waits after being served.
   */
  lemma {:induction false} NoLostWakeup<T>(steps: seq<Step<T>>)
    requires forall i :: 0 <= i < |steps| ==> Enabled(steps[i])
    ensures Inv(AfterAll(steps))
  {
    if steps != [] {
      NoLostWakeup(steps[..|steps| - 1]);
      StepKeepsInv(AfterAll(steps[..|steps| - 1]), steps[|steps| - 1]);
    }
  }

  // ---------------------------------------------------------------- timeouts

  /** The id was given out, nobody waits under it any more, and it was never served. */
  ghost predicate GaveUp<T>(s: World<T>, id: nat) {
    && id < s.index.nextId && id !in s.index.idToKeys
    && forall i :: 0 <= i < |s.delivered| ==> s.delivered[i].to.id != id
  }

  lemma StepGivesUp<T>(s: World<T>, step: Step<T>, id: nat)
    requires Inv(s) && Enabled(step) && (GaveUp(s, id) || (step == Timeout(id) && id in s.index.idToKeys))
    ensures GaveUp(After(s, step), id)
  {
    if step.Write? && Pushes(step.op) {
      var items := PushMakesList(s.data, step.op, step.now);
      DeliveriesAreWaiters(Run(s.data, step.op, step.now).data, s.index, step.op.key);
    }
  }

  /** A waiter that times out before it is served is never served afterwards, whatever is pushed. */
  lemma {:induction false} NeverServedAfterTimeout<T>(steps: seq<Step<T>>, i: nat, id: nat)
    requires forall k :: 0 <= k < |steps| ==> Enabled(steps[k])
    requires i < |steps| && steps[i] == Timeout(id) && id in AfterAll(steps[..i]).index.idToKeys
    ensures GaveUp(AfterAll(steps), id)
    decreases |steps|
  {
    var n := |steps| - 1;
    NoLostWakeup(steps[..n]);
    if i < n {
      assert steps[..n][..i] == steps[..i];
      NeverServedAfterTimeout(steps[..n], i, id);
    }
    StepGivesUp(AfterAll(steps[..n]), steps[n], id);
  }
}
