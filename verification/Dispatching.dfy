/**
 The objects that keep the transaction state: one WatchManager for the server, one TransactionManager
 for each connection, and the dispatcher with the commands it drives.
 */
module Dispatching {
  import opened Resp
  import opened Commands
  import opened Registrations
  import opened Watches
  import opened Transactions
  import opened TransactionRuns

  class WatchManager {
    var watchers: map<string, seq<Registration<TransactionManager>>>
    var idToKeys: map<nat, seq<string>>
    var nextId: nat

    ghost function State(): Index<TransactionManager>
      reads this
    {
      Index(watchers, idToKeys, nextId)
    }

    constructor ()
      ensures State() == Index(map[], map[], 1)
    {
      watchers, idToKeys, nextId := map[], map[], 1;
    }

    method Watch(key: string, owner: TransactionManager) returns (id: nat)
      modifies this
      ensures id == old(nextId) && State() == Added(old(State()), key, owner)
    {
      id, nextId := nextId, nextId + 1;
      var registrations := if key in watchers then watchers[key] else [];
      watchers := watchers[key := registrations + [Registration(id, owner)]];
      var keys := if id in idToKeys then idToKeys[id] else [];
      idToKeys := idToKeys[id := keys + [key]];
    }

    method Unwatch(id: nat)
      requires Consistent(State())
      modifies this
      ensures State() == Purged(old(State()), {id})
    {
      ConsistentIsListed(State());
      PurgedIsErased(State(), id);
      if id !in idToKeys {
        return;
      }
      watchers := EraseEach(watchers, idToKeys[id], id);
      idToKeys := idToKeys - {id};
    }

    /** Marks every connection dirty that has a registration at `key`. */
    method NotifyWrite(key: string)
      modifies Owners(State(), key)
      ensures forall tm :: tm in Owners(State(), key) ==> tm.dirty
      ensures forall tm :: tm in Owners(State(), key) ==> old(tm.Value()).(dirty := true) == tm.Value()
    {
      if key !in watchers { return; }
      var registrations := watchers[key];
      for i := 0 to |registrations|
        invariant forall tm :: tm in Owners(State(), key) ==>
          tm.Value() == old(tm.Value()) || tm.Value() == old(tm.Value()).(dirty := true)
        invariant forall j :: 0 <= j < i ==> registrations[j].owner.dirty
      {
        registrations[i].owner.MarkDirty();
      }
      forall tm | tm in Owners(State(), key) ensures tm.dirty {
        var j :| 0 <= j < |registrations| && registrations[j].owner == tm;
      }
    }
  }

  class TransactionManager {
    const watchManager: WatchManager
    var active: bool
    var dirty: bool
    var queue: seq<RespValue>
    var watched: map<string, nat>

    ghost function Value(): Conn
      reads this
    {
      Conn(active, dirty, queue, watched)
    }

    constructor (watchManager: WatchManager)
      ensures this.watchManager == watchManager && Value() == Idle
    {
      this.watchManager := watchManager;
      active, dirty, queue, watched := false, false, [], map[];
    }

    method Begin()
      modifies this
      ensures Value() == old(Value()).(active := true, queue := [])
    {
      active, queue := true, [];
    }

    method MarkDirty()
      modifies this
      ensures Value() == old(Value()).(dirty := true)
    {
      dirty := true;
    }

    method QueueCommand(request: RespValue)
      modifies this
      ensures Value() == old(Value()).(queue := old(queue) + [request])
    {
      queue := queue + [request];
    }

    method PopQueuedCommands() returns (commands: seq<RespValue>)
      modifies this
      ensures commands == old(queue) && Value() == old(Value()).(queue := [])
    {
      commands, queue := queue, [];
    }

    /** Takes note of a key; its registration id comes later. */
    method WatchKey(key: string) returns (added: bool)
      modifies this
      ensures added <==> key !in old(watched)
      ensures Value() == old(Value()).(watched := if added then WithKey(old(watched), key, 0) else old(watched))
    {
      added := key !in watched;
      if added { watched := watched[key := 0]; }
    }

    method AssociateWatchId(key: string, id: nat)
      modifies this
      ensures Value() ==
          old(Value()).(watched := if key in old(watched) then WithKey(old(watched), key, id) else old(watched))
    {
      if key in watched { watched := watched[key := id]; }
    }

    /** Drops every watch of this connection, one registration at a time. The dirty flag stays. */
    method ClearWatches()
      requires Consistent(watchManager.State())
      modifies this, watchManager
      ensures Value() == old(Value()).(watched := map[])
      ensures watchManager.State() == Purged(old(watchManager.State()), old(watched).Values)
    {
      ghost var was := watchManager.State();
      ghost var done: set<nat> := {};
      var left := watched.Keys;
      ConsistentIsListed(was);
      PurgeNone(was);
      while left != {}
        invariant left <= watched.Keys && Value() == old(Value())
        invariant done == set key | key in watched && key !in left :: watched[key]
        invariant watchManager.State() == Purged(was, done) && Consistent(watchManager.State())
      {
        var key :| key in left;
        PurgedConsistent(watchManager.State(), {watched[key]});
        PurgedTwice(was, done, {watched[key]});
        watchManager.Unwatch(watched[key]);
        left := left - {key};
        done := done + {watched[key]};
      }
      assert done == watched.Values;
      watched := map[];
    }

    method FinishTransaction()
      modifies this
      ensures Value() == old(Value()).(active := false, dirty := false)
    {
      active, dirty := false, false;
    }

    method Reset()
      requires Consistent(watchManager.State())
      modifies this, watchManager
      ensures Value() == Idle
      ensures watchManager.State() == Purged(old(watchManager.State()), old(watched).Values)
    {
      ClearWatches();
      FinishTransaction();
      queue := [];
    }
  }

  /** The store, what is propagated, and all connections, as commands find them on the store thread. */
  class StoreThread<S> {
    const engine: Engine<S>
    const watchManager: WatchManager
    var store: S
    var stream: string
    ghost var conns: set<TransactionManager>

    ghost function State(): Server<S, TransactionManager>
      reads this, watchManager, conns
    {
      Server(store, stream, watchManager.State(), map tm | tm in conns :: tm.Value())
    }

    ghost predicate Valid()
      reads this, watchManager, conns
    {
      Inv(engine, State()) && forall tm :: tm in conns ==> tm.watchManager == watchManager
    }

    constructor (engine: Engine<S>, store: S)
      ensures Valid() && this.engine == engine && fresh(watchManager)
      ensures State() == Server(store, "", Index(map[], map[], 1), map[])
    {
      this.engine, this.store, this.stream := engine, store, "";
      watchManager := new WatchManager();
      conns := {};
    }

    method Connect() returns (tm: TransactionManager)
      requires Valid()
      modifies this
      ensures Valid() && fresh(tm)
      ensures Next(engine, old(State()), Step.Connect(tm), State())
    {
      tm := new TransactionManager(watchManager);
      conns := conns + {tm};
      StepKeepsInv(engine, old(State()), Step.Connect(tm), State());
    }

    method Disconnect(tm: TransactionManager)
      requires Valid() && tm in conns
      modifies this, watchManager, tm
      ensures Valid()
      ensures Next(engine, old(State()), Step.Disconnect(tm), State())
    {
      tm.ClearWatches();
      conns := conns - {tm};
      StepKeepsInv(engine, old(State()), Step.Disconnect(tm), State());
    }

    /** What a notification does, connection by connection. */
    twostate lemma NotifiedState(key: string)
      requires unchanged(this) && unchanged(watchManager)
      requires forall tm :: tm in conns ==>
                 tm.Value() ==
                 if tm in Owners(watchManager.State(), key) then old(tm.Value()).(dirty := true) else old(tm.Value())
      ensures State().conns == Notified(old(State().conns), watchManager.State(), [key])
    {
      forall tm | tm in conns
        ensures Hit(watchManager.State(), [key], tm) <==> tm in Owners(watchManager.State(), key)
      {
        assert key in [key];
      }
    }

    method NotifyOne(key: string)
      requires Valid()
      modifies conns
      ensures State() == old(State()).(conns := Notified(old(State().conns), old(State().index), [key]))
    {
      OwnersHold(watchManager.State(), State().conns, key);
      watchManager.NotifyWrite(key);
      NotifiedState(key);
    }

    /** Announces written keys, one after the other. */
    method Notify(keys: seq<string>)
      requires Valid()
      modifies conns
      ensures Valid() && State() == old(State()).(conns := Notified(old(State().conns), old(State().index), keys))
    {
      ghost var was := State();
      NotifiedNone(was.conns, was.index);
      for i := 0 to |keys|
        invariant Valid() && State() == was.(conns := Notified(was.conns, was.index, keys[..i]))
      {
        NotifiedTwice(was.conns, was.index, keys[..i], [keys[i]]);
        assert keys[..i + 1] == keys[..i] + [keys[i]];
        NotifiedKeepsInv(engine, was.conns, was.index, keys[..i + 1]);
        NotifyOne(keys[i]);
      }
      assert keys[..|keys|] == keys;
    }

    method PutStore(store: S)
      requires Valid()
      modifies this
      ensures Valid() && conns == old(conns) && State() == old(State()).(store := store)
    {
      this.store := store;
      assert State().conns == old(State().conns);
    }

    method Propagate(bytes: string)
      requires Valid()
      modifies this
      ensures Valid() && conns == old(conns) && State() == old(State()).(stream := old(stream) + bytes)
    {
      stream := stream + bytes;
      assert State().conns == old(State().conns);
    }

    /** Runs an ordinary command, announces what it wrote, and propagates it if it is a write. */
    method RunCommand(request: RespValue, now: nat) returns (reply: string)
      requires Valid() && IsRequest(request)
      modifies this, conns
      ensures Valid() && conns == old(conns) && State() == Ran(engine, old(State()), request, now)
      ensures reply == EffectOf(engine, old(store), request, now).reply
    {
      var kind := engine.kind(request);
      if !Known(kind) {
        reply := "-ERR unknown command '" + Name(request) + "'\r\n";
        NotifiedNone(State().conns, State().index);
        return;
      }
      var done := engine.run(store, request, now);
      PutStore(done.store);
      Notify(done.notified);
      if IsWrite(kind) {
        Propagate(Serialize(request));
      }
      reply := done.reply;
    }

    /** The EXEC loop: each queued command runs and its result is kept in its place. */
    method RunQueue(commands: seq<RespValue>, clock: nat -> nat) returns (results: seq<string>)
      requires Valid() && AllOrdinary(engine, commands)
      modifies this, conns
      ensures Valid() && conns == old(conns) && State() == RanAll(engine, old(State()), commands, clock)
      ensures results == Replies(engine, old(store), commands, clock)
    {
      ghost var was := State();
      results := [];
      for i := 0 to |commands|
        invariant Valid() && conns == old(conns) && State() == RanAll(engine, was, commands[..i], clock)
        invariant results == Replies(engine, was.store, commands[..i], clock)
      {
        StoreOfRanAll(engine, was, commands[..i], clock);
        assert commands[..i + 1][..i] == commands[..i];
        var result := RunCommand(commands[i], clock(i));
        results := results + [result];
      }
      assert commands[..|commands|] == commands;
    }

    /** The new state when one connection and the index change. */
    twostate lemma OneConn(tm: TransactionManager)
      requires tm in conns && conns == old(conns) && store == old(store) && stream == old(stream)
      requires forall other :: other in conns && other != tm ==> unchanged(other)
      ensures State() == old(State()).(index := watchManager.State(), conns := old(State().conns)[tm := tm.Value()])
    {}

    method Multi(tm: TransactionManager) returns (reply: string)
      requires Valid() && tm in conns
      modifies tm
      ensures Reply(State(), reply) == DoMulti(old(State()), tm)
    {
      if tm.active {
        return "-ERR MULTI calls can not be nested\r\n";
      }
      tm.Begin();
      OneConn(tm);
      reply := "+OK\r\n";
    }

    /** The registration loop of WATCH. */
    method RegisterWatches(tm: TransactionManager, keys: seq<string>)
      requires Valid() && tm in conns
      modifies tm, watchManager
      ensures tm.Value() == old(tm.Value()).(watched := tm.watched)
      ensures (watchManager.State(), tm.watched) == AddedAll(old(watchManager.State()), old(tm.watched), keys, tm)
    {
      for i := 0 to |keys|
        invariant tm.Value() == old(tm.Value()).(watched := tm.watched)
        invariant (watchManager.State(), tm.watched) ==
            AddedAll(old(watchManager.State()), old(tm.watched), keys[..i], tm)
      {
        assert keys[..i + 1][..i] == keys[..i];
        var key := keys[i];
        var added := tm.WatchKey(key);
        if added {
          var id := watchManager.Watch(key, tm);
          tm.AssociateWatchId(key, id);
          UpdateTwice(AddedAll(old(watchManager.State()), old(tm.watched), keys[..i], tm).1, key, 0, id);
        }
      }
      assert keys[..|keys|] == keys;
    }

    method Watch(tm: TransactionManager, name: string, args: seq<string>) returns (reply: string)
      requires Valid() && tm in conns
      modifies tm, watchManager
      ensures Reply(State(), reply) == DoWatch(old(State()), tm, name, args)
    {
      if tm.active {
        return "-ERR WATCH inside MULTI is not allowed\r\n";
      }
      if args == [] {
        return "-ERR wrong number of arguments for '" + name + "' command\r\n";
      }
      RegisterWatches(tm, args);
      OneConn(tm);
      reply := "+OK\r\n";
    }

    method Unwatch(tm: TransactionManager, name: string, args: seq<string>) returns (reply: string)
      requires Valid() && tm in conns
      modifies tm, watchManager
      ensures Reply(State(), reply) == DoUnwatch(old(State()), tm, name, args)
    {
      if args != [] {
        return "-ERR wrong number of arguments for '" + name + "' command\r\n";
      }
      tm.ClearWatches();
      OneConn(tm);
      reply := "+OK\r\n";
    }

    method ResetConnection(tm: TransactionManager)
      requires Valid() && tm in conns
      modifies tm, watchManager
      ensures Valid() && State() == Transactions.Reset(old(State()), tm)
    {
      tm.Reset();
      OneConn(tm);
      ResetKeepsInv(engine, old(State()), tm);
    }

    method Discard(tm: TransactionManager) returns (reply: string)
      requires Valid() && tm in conns
      modifies tm, watchManager
      ensures Reply(State(), reply) == DoDiscard(old(State()), tm)
    {
      if !tm.active {
        return "-ERR DISCARD without MULTI\r\n";
      }
      ResetConnection(tm);
      reply := "+OK\r\n";
    }

    method TakeQueue(tm: TransactionManager) returns (commands: seq<RespValue>)
      requires Valid() && tm in conns
      modifies tm
      ensures Valid() && commands == old(tm.queue)
      ensures State() == old(State()).(conns := old(State().conns)[tm := old(tm.Value()).(queue := [])])
    {
      SameWatchesIndexOk(State().index, State().conns, tm, tm.Value().(queue := []));
      commands := tm.PopQueuedCommands();
      OneConn(tm);
    }

    method Exec(tm: TransactionManager, clock: nat -> nat) returns (reply: string)
      requires Valid() && tm in conns
      modifies this, watchManager, conns
      ensures conns == old(conns) && AllOrdinary(engine, old(tm.queue))
      ensures Reply(State(), reply) == DoExec(engine, old(State()), tm, clock)
    {
      assert old(State()).conns[tm] == tm.Value();
      if !tm.active {
        return "-ERR EXEC without MULTI\r\n";
      }
      if tm.dirty {
        ResetConnection(tm);
        return ABORTED;
      }
      var commands := TakeQueue(tm);
      ResetConnection(tm);
      assert State().conns == old(State()).conns[tm := Idle];
      var results := RunQueue(commands, clock);
      reply := ExecReply(results);
    }

    method Ordinary(tm: TransactionManager, request: RespValue, now: nat) returns (reply: string)
      requires Valid() && tm in conns && IsOrdinary(engine, request)
      modifies this, conns
      ensures conns == old(conns) && Reply(State(), reply) == DoOrdinary(engine, old(State()), tm, request, now)
    {
      if tm.active {
        tm.QueueCommand(request);
        OneConn(tm);
        return "+QUEUED\r\n";
      }
      reply := RunCommand(request, now);
    }

    method Control(tm: TransactionManager, kind: Kind, name: string, args: seq<string>) returns (reply: string)
      requires Valid() && tm in conns && kind in {Kind.Multi, Kind.Watch, Kind.Unwatch, Kind.Discard}
      modifies tm, watchManager
      ensures Reply(State(), reply) == DoControl(old(State()), tm, kind, name, args)
    {
      match kind
      case Multi => reply := Multi(tm);
      case Watch => reply := Watch(tm, name, args);
      case Unwatch => reply := Unwatch(tm, name, args);
      case Discard => reply := Discard(tm);
    }

    method Route(tm: TransactionManager, request: RespValue, clock: nat -> nat) returns (reply: string)
      requires Valid() && tm in conns && IsRequest(request)
      modifies this, watchManager, conns
      ensures conns == old(conns) && AllOrdinary(engine, old(tm.queue))
      ensures Reply(State(), reply) == Transactions.Dispatch(engine, old(State()), tm, request, clock)
    {
      assert old(State()).conns[tm] == tm.Value();
      var kind := engine.kind(request);
      if kind == Kind.Exec {
        reply := Exec(tm, clock);
      } else if IsTransactionControl(kind) {
        reply := Control(tm, kind, Name(request), Args(request));
      } else {
        reply := Ordinary(tm, request, clock(0));
      }
    }

    /** One request on one connection: the server takes the step the run theorems speak of. */
    method Dispatch(tm: TransactionManager, request: RespValue, clock: nat -> nat) returns (reply: string)
      requires Valid() && tm in conns && IsRequest(request)
      modifies this, watchManager, conns
      ensures Valid() && conns == old(conns) && AllOrdinary(engine, old(tm.queue))
      ensures Next(engine, old(State()), Step.Request(tm, request, clock), State())
      ensures reply == Transactions.Dispatch(engine, old(State()), tm, request, clock).text
    {
      reply := Route(tm, request, clock);
      DispatchKeepsInv(engine, old(State()), tm, request, clock);
    }
  }

  lemma OwnersHold<T>(index: Index<T>, conns: map<T, Conn>, key: string)
    requires IndexOk(index, conns)
    ensures Owners(index, key) <= conns.Keys
  {
    forall c | c in Owners(index, key) ensures c in conns {
      OwnersAreWatchers(index, WatchedOf(conns), key, c);
    }
  }

  lemma NotifiedNone<T>(conns: map<T, Conn>, index: Index<T>)
    ensures Notified(conns, index, []) == conns
  {}
}
