/**
 The server's own commands in the transaction system: the write commands, and BLPOP with its waiters, on a
 store that is shared by all connections.
 */
module RedisTransactions {
  import opened Base
  import opened Resp
  import opened Text
  import opened StoreData
  import opened StreamIds
  import opened Streams
  import opened Commands
  import opened Blocking
  import opened Transactions
  import opened TransactionRuns
  import B = BlockingRuns

  function KindOf(request: RespValue): Kind {
    if IsRequest(request) then ParseCommand(request).kind else Unknown
  }

  /** A blocked BLPOP, and the commands of its EXEC that go on once it is answered. */
  datatype Waiter = Waiter(request: RespValue, rest: seq<RespValue>)

  type World = B.World<Waiter>

  /** The keys of a BLPOP: all its arguments but the timeout. */
  function BlpopKeys(cmd: Command): seq<string>
    requires |cmd.args| >= 2
  {
    cmd.args[..|cmd.args| - 1]
  }

  /** BLPOP takes from the first key that holds a list, and announces nothing. If none does it waits. */
  function RunBlpop(w: World, request: RespValue): Effect<World>
    requires IsRequest(request) && KindOf(request) == BLPop
  {
    var cmd := ParseCommand(request);
    if |cmd.args| < 2 then Effect(w, "-ERR wrong number of arguments for '" + cmd.name + "' command\r\n", [])
    else
      var keys := BlpopKeys(cmd);
      var reply := match B.FirstList(w.data, keys)
        case None => ""
        case Some(key) => if ItemsAt(w.data, key) == [] then "" else BulkArray([key, ItemsAt(w.data, key)[0]]);
      Effect(B.AfterBlpop(w, Waiter(request, []), keys), reply, [])
  }

  /** A write command; a push also serves the waiters of its key. */
  function RunOp(w: World, op: Op, now: nat): Effect<World> {
    var o := Run(w.data, op, now);
    Effect(B.AfterWrite(w, op, now), o.reply, o.notified)
  }

  function RunRequest(w: World, request: RespValue, now: nat): Effect<World> {
    if !IsRequest(request) then Effect(w, "", [])
    else
      var cmd := ParseCommand(request);
      if cmd.kind == BLPop then RunBlpop(w, request)
      else if !Modelled(cmd) then Effect(w, "", [])
      else
        match ToOp(cmd)
        case Err(e) => Effect(w, e, [])
        case Ok(op) => RunOp(w, op, now)
  }

  const RedisEngine: Engine<World> := Engine(KindOf, RunRequest)

  /** The requests whose effect on the store is given: all but SET with expiry and an LPOP with a bad count. */
  predicate Handled(request: RespValue) {
    IsRequest(request) && var cmd := ParseCommand(request); cmd.kind == BLPop || Modelled(cmd) || !IsWrite(cmd.kind)
  }

  /** What is stored at a key, where a stream without entries counts as nothing. */
  function Content(data: Data, key: string): Option<Value> {
    if key in data && data[key] != Stream([]) then Some(data[key]) else None
  }

  /** The request is a BLPOP that takes from `key` at once. */
  predicate PopsFrom(w: World, request: RespValue, key: string) {
    && IsRequest(request) && ParseCommand(request).kind == BLPop && |ParseCommand(request).args| >= 2
    && B.FirstList(w.data, BlpopKeys(ParseCommand(request))) == Some(key)
  }

  /** WAIT, and XREAD with BLOCK, may have to wait for their reply. */
  predicate MayPark(request: RespValue) {
    IsRequest(request) && var cmd := ParseCommand(request);
    cmd.kind == Wait || (cmd.kind == XRead && exists i :: 0 <= i < |cmd.args| && Lowercase(cmd.args[i]) == "block")
  }

  predicate NobodyWaits(w: World) {
    w.index.watchers == map[]
  }

  /** With nobody blocked, a write does to the data what it does alone. */
  lemma NobodyIsServed(w: World, op: Op, now: nat)
    requires NobodyWaits(w)
    ensures B.AfterWrite(w, op, now) == w.(data := Run(w.data, op, now).data)
  {
    if B.Pushes(op) {
      var data := Run(w.data, op, now).data;
      assert Serve(data, w.index, op.key) == Served(data, w.index, []);
      assert w.delivered + [] == w.delivered;
    }
  }

  // ---------------------------------------------------------------- what is announced

  /** An XADD at an absent key is rejected exactly when its ID cannot be read or is 0-0. */
  predicate BadFirstId(pattern: string, now: nat) {
    match ParseStreamId(pattern, now)
    case Err(_) => true
    case Ok(parts) => parts == IdParts(0, 0, false)
  }

  /**
   A write changes a key without announcing it exactly when it is an XADD at an absent key with an ID that
   cannot be read or is 0-0: it leaves an empty stream behind.
   */
  lemma SilentChangeIsRejectedXAdd(data: Data, op: Op, now: nat, key: string)
    ensures
      var o := Run(data, op, now);
      var changed := (key in data) != (key in o.data) || (key in data && data[key] != o.data[key]);
      changed && key !in o.notified <==> op.XAddOp? && op.key == key && key !in data && BadFirstId(op.pattern, now)
  {
    if op.XAddOp? && key !in data {
      assert ParseLastId(LastIdOf([])) == Ok(NoLast);
    }
  }

  /** BLPOP changes exactly the key it takes from, and makes its list shorter. */
  lemma BlpopMoves(w: World, request: RespValue, key: string)
    requires NoEmptyList(w.data) && IsRequest(request) && KindOf(request) == BLPop
    ensures
      var after := RunBlpop(w, request).store.data;
      if PopsFrom(w, request, key) then |ItemsAt(after, key)| < |ItemsAt(w.data, key)|
      else Content(after, key) == Content(w.data, key)
  {
    var cmd := ParseCommand(request);
    if |cmd.args| >= 2 {
      B.FirstListFinds(w.data, BlpopKeys(cmd));
    }
  }

  /** It does happen: another client's BLPOP takes from a watched list, and the watcher's EXEC still runs. */
  lemma PopBehindTheWatchersBack<T>(s: Server<World, T>, c: T, d: T, key: string, request: RespValue, clock: nat -> nat)
    requires B.Inv(s.store) && Inv(RedisEngine, s) && c in s.conns && d in s.conns && c != d && !s.conns[d].active
    requires key in s.conns[c].watched && s.conns[c].active && !s.conns[c].dirty
    requires PopsFrom(s.store, request, key)
    ensures
      var t := Dispatch(RedisEngine, s, d, request, clock).server;
      && Next(RedisEngine, s, Request(d, request, clock), t)
      && Content(t.store.data, key) != Content(s.store.data, key)
      && t.conns == s.conns && DoExec(RedisEngine, t, c, clock).text != ABORTED
  {
    BlpopMoves(s.store, request, key);
    OrdinaryIsRun(RedisEngine, s, d, request, clock);
    assert Notified(s.conns, s.index, []) == s.conns;
    var t := Dispatch(RedisEngine, s, d, request, clock).server;
    RepliesAreNotAborted(Replies(RedisEngine, t.store, s.conns[c].queue, clock));
  }
}
