/** First come, first served: at each key, waiters are served in the order in which they came. */
module ServingOrder {
  import opened Registrations
  import opened StoreData
  import opened Commands
  import opened Blocking
  import opened BlockingRuns
  import Ops = StoreOps

  /** At each key the waiters served so far came in this order, and before all who wait there. */
  ghost predicate InOrder<T>(delivered: seq<Delivery<T>>, w: Index<T>) {
    && (forall i, j :: 0 <= i < j < |delivered| && delivered[i].key == delivered[j].key ==>
          delivered[i].to.id < delivered[j].to.id)
    && (forall i, r :: 0 <= i < |delivered| && r in At(w, delivered[i].key) ==> delivered[i].to.id < r.id)
  }

  lemma PurgeKeepsOrder<T>(delivered: seq<Delivery<T>>, w: Index<T>, ids: set<nat>)
    requires InOrder(delivered, w)
    ensures InOrder(delivered, Purged(w, ids))
  {
    forall i, r | 0 <= i < |delivered| && r in At(Purged(w, ids), delivered[i].key) ensures delivered[i].to.id < r.id {
      PurgedMembers(w, ids, delivered[i].key, r);
    }
  }

  lemma JoinedMembers<T>(w: Index<T>, keys: seq<string>, owner: T, key: string, r: Registration<T>)
    requires r in At(Joined(w, keys, owner), key)
    ensures r in At(w, key) || r == Registration(w.nextId, owner)
  {
    EnlistedAt(w.watchers, keys, Registration(w.nextId, owner), key);
  }

  lemma JoinKeepsOrder<T>(delivered: seq<Delivery<T>>, w: Index<T>, keys: seq<string>, owner: T)
    requires InOrder(delivered, w) && forall i :: 0 <= i < |delivered| ==> delivered[i].to.id < w.nextId
    ensures InOrder(delivered, Joined(w, keys, owner))
  {
    forall i, r | 0 <= i < |delivered| && r in At(Joined(w, keys, owner), delivered[i].key)
      ensures delivered[i].to.id < r.id
    {
      JoinedMembers(w, keys, owner, delivered[i].key, r);
    }
  }

  /** Serving the front waiter keeps the order, because nobody at the key came before it. */
  lemma FrontKeepsOrder<T>(delivered: seq<Delivery<T>>, w: Index<T>, key: string, value: string)
    requires InOrder(delivered, w) && At(w, key) != [] && Sorted(At(w, key))
    ensures var first := At(w, key)[0]; InOrder(delivered + [Delivery(first, key, value)], Purged(w, {first.id}))
  {
    var first := At(w, key)[0];
    PurgeKeepsOrder(delivered, w, {first.id});
    forall r | r in At(Purged(w, {first.id}), key) ensures first.id < r.id {
      PurgedMembers(w, {first.id}, key, r);
    }
  }

  lemma {:induction false} ServeKeepsOrder<T>(delivered: seq<Delivery<T>>, data: Data, w: Index<T>, key: string)
    requires InOrder(delivered, w) && QueuesOk(w)
    ensures InOrder(delivered + Serve(data, w, key).deliveries, Serve(data, w, key).index)
    decreases |At(w, key)|
  {
    var popped := Ops.LPop(data, key, 1);
    if At(w, key) == [] || !popped.result.Popped? || popped.result.items == [] {
      assert delivered + [] == delivered;
    } else {
      var first, value := At(w, key)[0], popped.result.items[0];
      ServeRound(data, w, key, delivered);
      PurgedQueuesOk(w, {first.id});
      FrontKeepsOrder(delivered, w, key, value);
      ServeKeepsOrder(delivered + [Delivery(first, key, value)], popped.data, Purged(w, {first.id}), key);
    }
  }

  lemma StepKeepsOrder<T>(s: World<T>, step: Step<T>)
    requires Inv(s) && InOrder(s.delivered, s.index)
    ensures InOrder(After(s, step).delivered, After(s, step).index)
  {
    match step
    case Write(op, now) =>
      if Pushes(op) { ServeKeepsOrder(s.delivered, Run(s.data, op, now).data, s.index, op.key); }
    case Blpop(client, keys) => JoinKeepsOrder(s.delivered, s.index, keys, client);
    case Timeout(id) => PurgeKeepsOrder(s.delivered, s.index, {id});
  }

  /** Over every run the waiters served at a key came in the order in which they are served. */
  lemma {:induction false} FirstComeFirstServed<T>(steps: seq<Step<T>>)
    requires forall i :: 0 <= i < |steps| ==> Enabled(steps[i])
    ensures InOrder(AfterAll(steps).delivered, AfterAll(steps).index)
  {
    if steps != [] {
      var n := |steps| - 1;
      FirstComeFirstServed(steps[..n]);
      NoLostWakeup(steps[..n]);
      StepKeepsOrder(AfterAll(steps[..n]), steps[n]);
    }
  }
}

/** The same for the store thread, where EXECs are suspended and go on inside pushes. */
module SuspensionOrder {
  import opened StoreData
  import opened Registrations
  import opened Blocking
  import opened Transactions
  import opened RedisTransactions
  import opened Suspension
  import opened SuspensionRuns
  import opened ServingOrder
  import B = BlockingRuns
  import L = StoreThreadLedger

  /** Nobody in the queue came before this one. */
  ghost predicate CameFirst(queue: seq<Registration<Waiter>>, r: Registration<Waiter>) {
    r in queue && forall q :: q in queue ==> r.id <= q.id
  }

  /** A round of serving hands the front item to whoever came first, and goes on with the rest of that one's EXEC. */
  lemma RoundServesFirst<T>(s: Thread<T>, now: nat, first: Registration<Waiter>)
    requires Inv(s) && s.stack != [] && s.stack[0].Serve? && HasList(s.server.store.data, s.stack[0].key)
    requires CameFirst(Queue(s.server.store, s.stack[0].key), first) && L.OneOwner(s.server.store)
    ensures
      var w, v, key := s.server.store, Go(s, now).server.store, s.stack[0].key;
      var items := ItemsAt(w.data, key);
      && items != [] && v.delivered == w.delivered + [Delivery(first, key, items[0])]
      && ItemsAt(v.data, key) == items[1..] && v.index == Purged(w.index, {first.id})
      && Go(s, now).stack == [Replied(first.owner.request), Run(first.owner.rest)] + [s.stack[0]] + s.stack[1..]
  {
    var queue := Queue(s.server.store, s.stack[0].key);
    assert queue[0] in queue && B.AllSorted(s.server.store.index);
    var i :| 0 <= i < |queue| && queue[i] == first;
    assert queue[0].id <= queue[i].id;
  }

  lemma StoreUntouched<T>(s: Thread<T>, c: T, request: Resp.RespValue, t: Thread<T>)
    requires Inv(s) && Next(s, Request(c, request), t)
    ensures t.server.store == s.server.store
  {
    if RunsNothing(s.server.conns[c], KindOf(request)) {
      OnlyRunningCommandsHaveEffect(RedisEngine, s.server, c, request, _ => 0);
    }
  }

  ghost predicate OrderKept(w: World) {
    InOrder(w.delivered, w.index)
  }

  lemma RunKeepsOrder<T>(s: Thread<T>, now: nat)
    requires Inv(s) && OrderKept(s.server.store) && s.stack != [] && s.stack[0].Run? && s.stack[0].queue != []
    ensures OrderKept(Go(s, now).server.store)
  {
    var w, queue := s.server.store, s.stack[0].queue;
    if MustWait(w, queue[0]) {
      JoinKeepsOrder(w.delivered, w.index, ActOf(queue[0]).keys, Waiter(queue[0], queue[1..]));
    }
  }

  lemma RoundKeepsOrder<T>(s: Thread<T>, now: nat)
    requires Inv(s) && OrderKept(s.server.store) && s.stack != [] && s.stack[0].Serve?
    ensures OrderKept(Go(s, now).server.store)
  {
    var w, key := s.server.store, s.stack[0].key;
    if Queue(w, key) != [] {
      if HasList(w.data, key) {
        ServedOneOk(w, key);
        FrontKeepsOrder(w.delivered, w.index, key, ItemsAt(w.data, key)[0]);
      } else {
        NothingToServe(w, key);
      }
    }
  }

  lemma StepKeepsOrder<T>(s: Thread<T>, step: Step<T>, t: Thread<T>)
    requires Inv(s) && Next(s, step, t) && OrderKept(s.server.store)
    ensures OrderKept(t.server.store)
  {
    match step
    case Request(c, request) => StoreUntouched(s, c, request, t);
    case Timeout(_, waiter) => PurgeKeepsOrder(s.server.store.delivered, s.server.store.index, {waiter.id});
    case Goes(now) =>
      if s.stack[0].Serve? { RoundKeepsOrder(s, now); }
      else if s.stack[0].Run? && s.stack[0].queue != [] { RunKeepsOrder(s, now); }
    case _ =>
  }

  /** Over every run, with EXECs suspended and resumed inside pushes, waiters are served at a key in order. */
  lemma {:induction false} FirstComeFirstServed<T>(states: seq<Thread<T>>, steps: seq<Step<T>>, i: nat)
    requires IsRun(states, steps) && i < |states|
    ensures InOrder(states[i].server.store.delivered, states[i].server.store.index)
    decreases i
  {
    if i > 0 {
      FirstComeFirstServed(states, steps, i - 1);
      RunKeepsInv(states, steps, i - 1);
      StepAt(states, steps, i - 1);
      StepKeepsOrder(states[i - 1], steps[i - 1], states[i]);
    }
  }
}
