/** How long a BLPOP waits: until it is served or times out, and no longer. */
module BlockingHistory {
  import opened Registrations
  import opened StoreData
  import opened Commands
  import opened Blocking
  import opened BlockingRuns
  import Ops = StoreOps

  /** The waiter `id` of `client` queues at each of `keys`. */
  ghost predicate Waits<T>(w: Index<T>, id: nat, client: T, keys: seq<string>) {
    && id in w.idToKeys && w.idToKeys[id] == keys
    && forall key :: key in keys ==> Registration(id, client) in At(w, key)
  }

  /** Something was handed to `id`. */
  ghost predicate Given<T>(delivered: seq<Delivery<T>>, id: nat) {
    exists i :: 0 <= i < |delivered| && delivered[i].to.id == id
  }

  lemma GivenEither<T>(before: seq<Delivery<T>>, made: seq<Delivery<T>>, id: nat)
    ensures Given(before + made, id) <==> Given(before, id) || Given(made, id)
  {
    if Given(before, id) {
      var i :| 0 <= i < |before| && before[i].to.id == id;
      assert (before + made)[i].to.id == id;
    }
    if Given(made, id) {
      var i :| 0 <= i < |made| && made[i].to.id == id;
      assert (before + made)[|before| + i].to.id == id;
    }
  }

  // ---------------------------------------------------------------- one step

  lemma PurgedKeepsWaits<T>(w: Index<T>, ids: set<nat>, id: nat, client: T, keys: seq<string>)
    requires Waits(w, id, client, keys) && id !in ids
    ensures Waits(Purged(w, ids), id, client, keys)
  {
    forall key | key in keys ensures Registration(id, client) in At(Purged(w, ids), key) {
      PurgedMembers(w, ids, key, Registration(id, client));
    }
  }

  lemma JoinedKeepsWaits<T>(w: Index<T>, others: seq<string>, other: T, id: nat, client: T, keys: seq<string>)
    requires QueuesOk(w) && Waits(w, id, client, keys)
    ensures Waits(Joined(w, others, other), id, client, keys)
  {
    forall key | key in keys ensures Registration(id, client) in At(Joined(w, others, other), key) {
      EnlistedAt(w.watchers, others, Registration(w.nextId, other), key);
    }
  }

  lemma JoinedWaits<T>(w: Index<T>, client: T, keys: seq<string>)
    ensures Waits(Joined(w, keys, client), w.nextId, client, keys)
  {
    var r := Registration(w.nextId, client);
    forall key | key in keys ensures r in At(Joined(w, keys, client), key) {
      EnlistedAt(w.watchers, keys, r, key);
      CountPositive(keys, key);
      assert Copies(r, Count(keys, key))[0] == r;
    }
  }

  /** Exactly those who are handed something leave. */
  lemma ServedLeave<T>(data: Data, w: Index<T>, key: string) returns (ids: set<nat>)
    requires NoneEmpty(w) && (key in data ==> data[key] != List([]))
    ensures Serve(data, w, key).index == Purged(w, ids)
    ensures forall id :: id in ids <==> Given(Serve(data, w, key).deliveries, id)
  {
    ServeIsFair(data, w, key);
    var s, waiters, items := Serve(data, w, key), Waiters(At(w, key)), ItemsAt(data, key);
    var n := Ops.Min(|waiters|, |items|);
    ids := Ids(waiters[..n]);
    HandedLength(waiters, items, key);
    forall i | 0 <= i < n ensures s.deliveries[i].to == waiters[i] == waiters[..n][i] {
      HandedAt(waiters, items, key, i);
    }
    forall id ensures id in ids <==> Given(s.deliveries, id) {
      if id in ids {
        var r :| r in waiters[..n] && r.id == id;
        var i :| 0 <= i < n && waiters[..n][i] == r;
        assert s.deliveries[i].to.id == id;
      }
    }
  }

  lemma WriteKeepsWaits<T>(s: World<T>, op: Op, now: nat, id: nat, client: T, keys: seq<string>)
    requires Inv(s) && Checked(op) && Waits(s.index, id, client, keys) && !Given(AfterWrite(s, op, now).delivered, id)
    ensures Waits(AfterWrite(s, op, now).index, id, client, keys)
  {
    if Pushes(op) {
      var items := PushMakesList(s.data, op, now);
      var data := Run(s.data, op, now).data;
      var ids := ServedLeave(data, s.index, op.key);
      GivenEither(s.delivered, Serve(data, s.index, op.key).deliveries, id);
      PurgedKeepsWaits(s.index, ids, id, client, keys);
    }
  }

  lemma StepKeepsWaits<T>(s: World<T>, step: Step<T>, id: nat, client: T, keys: seq<string>)
    requires Inv(s) && Enabled(step) && Waits(s.index, id, client, keys)
    requires step != Timeout(id) && !Given(After(s, step).delivered, id)
    ensures Waits(After(s, step).index, id, client, keys)
  {
    match step
    case Write(op, now) => WriteKeepsWaits(s, op, now, id, client, keys);
    case Blpop(other, others) => JoinedKeepsWaits(s.index, others, other, id, client, keys);
    case Timeout(other) => PurgedKeepsWaits(s.index, {other}, id, client, keys);
  }

  /** The id was given out, and nobody waits under it any more. */
  ghost predicate Left<T>(w: Index<T>, id: nat) {
    id < w.nextId && id !in w.idToKeys
  }

  lemma StaysAway<T>(s: World<T>, step: Step<T>, id: nat)
    requires Inv(s) && Enabled(step) && Left(s.index, id)
    ensures Left(After(s, step).index, id)
  {
    if step.Write? && Pushes(step.op) {
      var items := PushMakesList(s.data, step.op, step.now);
      DeliveriesAreWaiters(Run(s.data, step.op, step.now).data, s.index, step.op.key);
    }
  }

  lemma StaysGiven<T>(s: World<T>, step: Step<T>, id: nat)
    requires Given(s.delivered, id)
    ensures Given(After(s, step).delivered, id)
  {
    var i :| 0 <= i < |s.delivered| && s.delivered[i].to.id == id;
    assert After(s, step).delivered[i].to.id == id;
  }

  // ---------------------------------------------------------------- every run

  /** A waiter `id` of the BLPOP sent as step i gave up before step j. */
  ghost predicate TimedOut<T>(steps: seq<Step<T>>, i: nat, j: nat, id: nat) {
    exists k :: i < k < j <= |steps| && steps[k] == Timeout(id)
  }

  /** Where a waiter stands: it has been served or has timed out, or it queues at all its keys. */
  ghost predicate Stands<T>(s: World<T>, timedOut: bool, id: nat, client: T, keys: seq<string>) {
    if timedOut || Given(s.delivered, id) then Left(s.index, id) else Waits(s.index, id, client, keys)
  }

  lemma StepStands<T>(s: World<T>, step: Step<T>, timedOut: bool, id: nat, client: T, keys: seq<string>)
    requires Inv(s) && Enabled(step) && Stands(s, timedOut, id, client, keys)
    ensures Stands(After(s, step), timedOut || step == Timeout(id), id, client, keys)
  {
    var t := After(s, step);
    StepKeepsInv(s, step);
    if timedOut || Given(s.delivered, id) {
      StaysAway(s, step, id);
      if Given(s.delivered, id) { StaysGiven(s, step, id); }
    } else if step != Timeout(id) && !Given(t.delivered, id) {
      StepKeepsWaits(s, step, id, client, keys);
    } else if Given(t.delivered, id) {
      assert ServedOnce(t.delivered, t.index);
    }
  }

  lemma BlpopStands<T>(s: World<T>, client: T, keys: seq<string>)
    requires Inv(s) && forall key :: key in keys ==> !HasList(s.data, key)
    ensures Stands(After(s, Blpop(client, keys)), false, s.index.nextId, client, keys)
  {
    FirstListFinds(s.data, keys);
    JoinedWaits(s.index, client, keys);
  }

  lemma TimedOutNext<T>(steps: seq<Step<T>>, i: nat, j: nat, id: nat)
    requires i < j < |steps|
    ensures TimedOut(steps, i, j + 1, id) <==> TimedOut(steps, i, j, id) || steps[j] == Timeout(id)
  {}

  function StateAt<T>(steps: seq<Step<T>>, j: nat): World<T>
    requires j <= |steps|
  {
    AfterAll(steps[..j])
  }

  lemma StateNext<T>(steps: seq<Step<T>>, j: nat)
    requires j < |steps| && forall k :: 0 <= k < |steps| ==> Enabled(steps[k])
    ensures Inv(StateAt(steps, j)) && StateAt(steps, j + 1) == After(StateAt(steps, j), steps[j])
  {
    NoLostWakeup(steps[..j]);
    assert steps[..j + 1][..j] == steps[..j] && steps[..j + 1][j] == steps[j];
  }

  ghost predicate Carries(stands: (nat, bool) -> bool, over: bool, k: nat) {
    (stands(k, true) ==> stands(k + 1, true)) && (stands(k, false) ==> stands(k + 1, over))
  }

  lemma {:induction false} CarriedOn<T>(stands: (nat, bool) -> bool, steps: seq<Step<T>>, i: nat, j: nat, id: nat)
    requires i < j <= |steps| && stands(i + 1, false)
    requires forall k :: i < k < j ==> Carries(stands, steps[k] == Timeout(id), k)
    ensures stands(j, TimedOut(steps, i, j, id))
    decreases j
  {
    if j > i + 1 {
      CarriedOn(stands, steps, i, j - 1, id);
      assert Carries(stands, steps[j - 1] == Timeout(id), j - 1);
      TimedOutNext(steps, i, j - 1, id);
    }
  }

  ghost function Standing<T>(steps: seq<Step<T>>, id: nat, client: T, keys: seq<string>): (nat, bool) -> bool {
    (k: nat, timedOut: bool) => k <= |steps| && Stands(StateAt(steps, k), timedOut, id, client, keys)
  }

  lemma StandingCarries<T>(steps: seq<Step<T>>, id: nat, client: T, keys: seq<string>, k: nat)
    requires k < |steps| && forall i :: 0 <= i < |steps| ==> Enabled(steps[i])
    ensures Carries(Standing(steps, id, client, keys), steps[k] == Timeout(id), k)
  {
    StateNext(steps, k);
    var s := StateAt(steps, k);
    if Stands(s, true, id, client, keys) { StepStands(s, steps[k], true, id, client, keys); }
    if Stands(s, false, id, client, keys) { StepStands(s, steps[k], false, id, client, keys); }
  }

  lemma StandingBegins<T>(steps: seq<Step<T>>, id: nat, client: T, keys: seq<string>, i: nat)
    requires i < |steps| && (forall k :: 0 <= k < |steps| ==> Enabled(steps[k])) && steps[i] == Blpop(client, keys)
    requires forall key :: key in keys ==> !HasList(StateAt(steps, i).data, key)
    requires id == StateAt(steps, i).index.nextId
    ensures Standing(steps, id, client, keys)(i + 1, false)
  {
    StateNext(steps, i);
    BlpopStands(StateAt(steps, i), client, keys);
  }

  /**
   Over every run a BLPOP that found no list queues at all its keys until it is served or times out, and
   from then on at none.
   */
  lemma WaitsUntilServedOrTimedOut<T>(
    steps: seq<Step<T>>, i: nat, j: nat, client: T, keys: seq<string>, id: nat)
    requires i < j <= |steps| && (forall k :: 0 <= k < |steps| ==> Enabled(steps[k])) && steps[i] == Blpop(client, keys)
    requires forall key :: key in keys ==> !HasList(StateAt(steps, i).data, key)
    requires id == StateAt(steps, i).index.nextId
    ensures Stands(StateAt(steps, j), TimedOut(steps, i, j, id), id, client, keys)
  {
    StandingBegins(steps, id, client, keys, i);
    forall k | i < k < j ensures Carries(Standing(steps, id, client, keys), steps[k] == Timeout(id), k) {
      StandingCarries(steps, id, client, keys, k);
    }
    CarriedOn(Standing(steps, id, client, keys), steps, i, j, id);
  }
}

/** BLPOP as its client meets it. */
module BlpopLaws {
  import opened Resp
  import opened StoreData
  import opened Commands
  import opened Blocking
  import opened RedisTransactions
  import opened ListLaws
  import B = BlockingRuns
  import H = BlockingHistory

  function Asking(name: string, keys: seq<string>, timeout: string): RespValue {
    Request([name] + (keys + [timeout]))
  }

  /** The last word is the timeout, and the words between are the keys. */
  lemma AskingReads(name: string, keys: seq<string>, timeout: string)
    requires ParseKind(name) == BLPop && keys != []
    ensures
      var request := Asking(name, keys, timeout);
      && IsRequest(request) && KindOf(request) == BLPop && |ParseCommand(request).args| >= 2
      && BlpopKeys(ParseCommand(request)) == keys
  {
    CommandOfRequest([name] + (keys + [timeout]));
    assert ([name] + (keys + [timeout]))[1..] == keys + [timeout];
    assert (keys + [timeout])[..|keys|] == keys;
  }

  lemma TakesFront(w: World, waiter: Waiter, keys: seq<string>, k: nat)
    requires B.IsFirstList(w.data, keys, k) && NoEmptyList(w.data)
    ensures
      var after, key := B.AfterBlpop(w, waiter, keys), keys[k];
      && after == w.(data := after.data) && OnlyAt(w.data, after.data, key)
      && [ItemsAt(w.data, key)[0]] + Drained(after.data, key) == Drained(w.data, key)
  {
    B.BlpopTakesFromTheFirst(w, waiter, keys, k);
    DrainedIsItems(w.data, keys[k]);
    DrainedIsItems(B.AfterBlpop(w, waiter, keys).data, keys[k]);
  }

  /**
   BLPOP k1 .. kn timeout, if some key holds a list: the reply names the first such key and its front item, that item
   is gone, nothing else changes and nothing is announced.
   */
  lemma BlpopSent(w: World, name: string, keys: seq<string>, timeout: string, k: nat)
    requires ParseKind(name) == BLPop && B.IsFirstList(w.data, keys, k) && NoEmptyList(w.data)
    ensures
      var request, key := Asking(name, keys, timeout), keys[k];
      && IsRequest(request) && KindOf(request) == BLPop
      && var e, before := RunBlpop(w, request), Drained(w.data, key);
         && before != [] && e.reply == Serialize(Request([key, before[0]])) && e.notified == []
         && e.store == w.(data := e.store.data) && OnlyAt(w.data, e.store.data, key)
         && Drained(e.store.data, key) == before[1..]
  {
    var request := Asking(name, keys, timeout);
    AskingReads(name, keys, timeout);
    TakesFront(w, Waiter(request, []), keys, k);
    B.FirstListIsFirst(w.data, keys, k);
  }

  /** If none does: it queues at every key, nothing is popped and nothing is sent. */
  lemma BlpopSentWaits(w: World, name: string, keys: seq<string>, timeout: string)
    requires ParseKind(name) == BLPop && keys != [] && forall key :: key in keys ==> !HasList(w.data, key)
    ensures
      var request := Asking(name, keys, timeout);
      && IsRequest(request) && KindOf(request) == BLPop
      && var e := RunBlpop(w, request);
         && e.reply == "" && e.notified == [] && e.store == w.(index := e.store.index)
         && H.Waits(e.store.index, w.index.nextId, Waiter(request, []), keys)
  {
    var request := Asking(name, keys, timeout);
    AskingReads(name, keys, timeout);
    B.FirstListFinds(w.data, keys);
    H.JoinedWaits(w.index, Waiter(request, []), keys);
  }
}
