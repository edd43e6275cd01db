/**
 The store thread command by command (src/command/impl/TransactionCommands.cpp, src/state/BlockingManager.cpp).
 A BLPOP that has to wait suspends the EXEC it belongs to. A push serves its waiters before it replies, and a
 waiter that is served goes on at once with the rest of its EXEC, inside the push. The commands that have begun
 and not yet replied form a stack.
 */
module Suspension {
  import opened Resp
  import opened StoreData
  import opened Commands
  import opened Registrations
  import opened Blocking
  import opened Transactions
  import opened RedisTransactions
  import B = BlockingRuns
  import R = TransactionRuns
  import Ops = StoreOps

  /**
   What the thread has still to do: run commands, serve the waiters of a key, propagate a command that has
   replied.
   */
  datatype Frame = Run(queue: seq<RespValue>) | Serve(key: string) | Replied(request: RespValue)

  /** `stack[0]` is what the thread does now. `parked` are WAITs and XREADs that wait for their reply. */
  datatype Thread<T> = Thread(server: Server<World, T>, stack: seq<Frame>, parked: seq<Waiter>)

  // ---------------------------------------------------------------- one command

  /** What a command does to the store: push, write something else, pop, or nothing. */
  datatype Act = Pushing(op: Op) | Writing(op: Op) | Popping(keys: seq<string>) | Nothing

  function ActOf(request: RespValue): (act: Act)
    ensures act.Pushing? ==> B.Pushes(act.op) && B.Checked(act.op)
    ensures act.Writing? ==> !B.Pushes(act.op)
  {
    if !IsRequest(request) then Nothing
    else
      var cmd := ParseCommand(request);
      if cmd.kind == BLPop then (if |cmd.args| < 2 then Nothing else Popping(BlpopKeys(cmd)))
      else if !Modelled(cmd) then Nothing
      else
        match ToOp(cmd)
        case Ok(op) => if B.Pushes(op) then Pushing(op) else Writing(op)
        case Err(_) => Nothing
  }

  /** A BLPOP none of whose keys holds a list. */
  predicate MustWait(w: World, request: RespValue) {
    ActOf(request).Popping? && B.FirstList(w.data, ActOf(request).keys).None?
  }

  /** It queues at each of its keys, and the rest of its EXEC with it. */
  function Waiting(w: World, request: RespValue, rest: seq<RespValue>): World
    requires MustWait(w, request)
  {
    w.(index := Blocking.Joined(w.index, ActOf(request).keys, Waiter(request, rest)))
  }

  /** Who waits at a key. */
  function Queue(w: World, key: string): seq<Registration<Waiter>> {
    Registrations.At(w.index, key)
  }

  /** What a command that need not wait has done to the data, and announced, before it serves any waiter. */
  function Begun(data: Data, request: RespValue, now: nat): (Data, seq<string>) {
    match ActOf(request)
    case Pushing(op) => var o := Commands.Run(data, op, now); (o.data, o.notified)
    case Writing(op) => var o := Commands.Run(data, op, now); (o.data, o.notified)
    case Popping(keys) =>
      (match B.FirstList(data, keys)
       case Some(key) => (Ops.LPop(data, key, 1).data, [])
       case None => (data, []))
    case Nothing => (data, [])
  }

  /** What follows a command that has begun: serving, if it is a push, then its reply, then the rest of its queue. */
  function Following(request: RespValue, rest: seq<RespValue>): seq<Frame> {
    var act := ActOf(request);
    (if act.Pushing? then [Serve(act.op.key)] else []) + [Replied(request), Run(rest)]
  }

  ghost function RunFirst<T>(s: Thread<T>, queue: seq<RespValue>, below: seq<Frame>, now: nat): Thread<T>
    requires queue != []
  {
    var request, rest, w := queue[0], queue[1..], s.server.store;
    if MustWait(w, request) then
      s.(server := s.server.(store := Waiting(w, request, rest)), stack := below)
    else
      var (data, keys) := Begun(w.data, request, now);
      s.(server := s.server.(store := w.(data := data), conns := Notified(s.server.conns, s.server.index, keys)),
         stack := Following(request, rest) + below)
  }

  /** A waiter's BLPOP replies, and the rest of its EXEC goes on. */
  function Woken(waiter: Waiter): seq<Frame> {
    [Replied(waiter.request), Run(waiter.rest)]
  }

  /** One round of the serve loop. */
  function ServedOne(w: World, key: string): World
    requires Queue(w, key) != []
  {
    var popped, first := Ops.LPop(w.data, key, 1), Queue(w, key)[0];
    if !popped.result.Popped? || popped.result.items == [] then w.(data := popped.data)
    else B.World(popped.data, Purged(w.index, {first.id}), w.delivered + [Delivery(first, key, popped.result.items[0])])
  }

  function ServeFirst<T>(s: Thread<T>, key: string, below: seq<Frame>): Thread<T> {
    var w := s.server.store;
    if Queue(w, key) == [] then s.(stack := below)
    else
      var popped := Ops.LPop(w.data, key, 1);
      var more := popped.result.Popped? && popped.result.items != [];
      s.(server := s.server.(store := ServedOne(w, key)),
         stack := if more then Woken(Queue(w, key)[0].owner) + [Serve(key)] + below else below)
  }

  /** A command is propagated when it has replied. */
  function Sent<T>(server: Server<World, T>, request: RespValue): Server<World, T> {
    if IsRequest(request) then server.(stream := server.stream + Propagated(RedisEngine, request)) else server
  }

  /** The thread does the next thing on its stack. */
  ghost function Go<T>(s: Thread<T>, now: nat): Thread<T> {
    if s.stack == [] then s
    else
      var below := s.stack[1..];
      match s.stack[0]
      case Run(queue) => if queue == [] then s.(stack := below) else RunFirst(s, queue, below, now)
      case Serve(key) => ServeFirst(s, key, below)
      case Replied(request) => s.(server := Sent(s.server, request), stack := below)
  }

  // ---------------------------------------------------------------- steps

  /** A request arrives: an EXEC that runs and a command outside MULTI go on the stack, the others are done at once. */
  ghost function Accept<T>(s: Thread<T>, c: T, request: RespValue): Thread<T>
    requires c in s.server.conns && AllOrdinary(RedisEngine, s.server.conns[c].queue) && IsRequest(request)
  {
    var conn, kind := s.server.conns[c], KindOf(request);
    if kind == Exec && conn.active && !conn.dirty then s.(server := Reset(s.server, c), stack := [Run(conn.queue)])
    else if !IsTransactionControl(kind) && !conn.active then s.(stack := [Run([request])])
    else s.(server := Dispatch(RedisEngine, s.server, c, request, _ => 0).server)
  }

  /**
   `Parks` is a WAIT or blocking XREAD that does not reply at once. It `Resumes` when it does: between commands, or,
   for an XREAD, inside the XADD that wakes it.
   */
  datatype Step<T> =
    | Connect(c: T)
    | Disconnect(c: T)
    | Request(c: T, request: RespValue)
    | Timeout(key: string, waiter: Registration<Waiter>)
    | Goes(now: nat)
    | Parks
    | Resumes(i: nat)

  function Without(parked: seq<Waiter>, i: nat): seq<Waiter>
    requires i < |parked|
  {
    parked[..i] + parked[i + 1..]
  }

  ghost predicate Next<T>(s: Thread<T>, step: Step<T>, t: Thread<T>) {
    match step
    case Connect(c) =>
      s.stack == [] && c !in s.server.conns && t == s.(server := s.server.(conns := s.server.conns[c := Idle]))
    case Disconnect(c) =>
      && s.stack == [] && c in s.server.conns
      && t == s.(server := s.server.(
             index := Purged(s.server.index, s.server.conns[c].watched.Values), conns := s.server.conns - {c}))
    case Request(c, request) =>
      && s.stack == [] && c in s.server.conns && AllOrdinary(RedisEngine, s.server.conns[c].queue)
      && IsRequest(request) && t == Accept(s, c, request)
    case Timeout(key, waiter) =>
      && s.stack == [] && waiter in Queue(s.server.store, key)
      && t == s.(server := s.server.(store := B.AfterTimeout(s.server.store, waiter.id)), stack := Woken(waiter.owner))
    case Goes(now) => s.stack != [] && t == Go(s, now)
    case Parks =>
      && s.stack != [] && s.stack[0].Run? && s.stack[0].queue != [] && MayPark(s.stack[0].queue[0])
      && t == s.(stack := s.stack[1..], parked := s.parked + [Waiter(s.stack[0].queue[0], s.stack[0].queue[1..])])
    case Resumes(i) =>
      i < |s.parked| && t == s.(stack := Woken(s.parked[i]) + s.stack, parked := Without(s.parked, i))
  }

  // ---------------------------------------------------------------- what every step keeps

  ghost predicate StoreOk(w: World) {
    B.QueuesOk(w.index) && NoEmptyList(w.data) && B.ServedOnce(w.delivered, w.index)
  }

  /** Whoever waits at a key that holds a list is about to be served. */
  ghost predicate Wakeups(w: World, stack: seq<Frame>) {
    forall key :: key in w.index.watchers && HasList(w.data, key) ==> Serve(key) in stack
  }

  /** Whoever watches a key whose waiters are being served is dirty. */
  ghost predicate Warned<T>(conns: map<T, Conn>, stack: seq<Frame>) {
    forall key, c :: Serve(key) in stack && c in conns && key in conns[c].watched ==> conns[c].dirty
  }

  ghost predicate Inv<T>(s: Thread<T>) {
    && R.Inv(RedisEngine, s.server) && StoreOk(s.server.store)
    && Wakeups(s.server.store, s.stack) && Warned(s.server.conns, s.stack)
  }

  /** A command makes no empty list, and only a push makes a list where there was none. */
  lemma BegunLists(data: Data, request: RespValue, now: nat)
    requires NoEmptyList(data)
    ensures
      var after, act := Begun(data, request, now).0, ActOf(request);
      NoEmptyList(after) &&
      forall key :: HasList(after, key) ==> HasList(data, key) || (act.Pushing? && act.op.key == key)
  {
    match ActOf(request)
    case Pushing(op) => var items := B.PushMakesList(data, op, now);
    case Writing(op) => B.OtherWritesMakeNoList(data, op, now);
    case Popping(keys) => B.FirstListFinds(data, keys);
    case Nothing =>
  }

  /** A waiter joins only queues of keys without a list. */
  lemma WaitKeeps(w: World, request: RespValue, rest: seq<RespValue>, stack: seq<Frame>)
    requires StoreOk(w) && Wakeups(w, stack) && MustWait(w, request)
    ensures StoreOk(Waiting(w, request, rest)) && Wakeups(Waiting(w, request, rest), stack)
  {
    var keys := ActOf(request).keys;
    var joined := Waiting(w, request, rest).index;
    B.JoinedQueuesOk(w.index, keys, Waiter(request, rest));
    B.FirstListFinds(w.data, keys);
    forall key | key in joined.watchers ensures key in w.index.watchers || key in keys {
      B.EnlistedAt(w.index.watchers, keys, Registration(w.index.nextId, Waiter(request, rest)), key);
      B.CountPositive(keys, key);
    }
  }

  lemma InBelow(stack: seq<Frame>, frame: Frame)
    requires stack != [] && frame in stack && frame != stack[0]
    ensures frame in stack[1..]
  {}

  /** Taking something else off the stack leaves all serving to be done. */
  lemma PopKeepsWakeups(w: World, stack: seq<Frame>)
    requires Wakeups(w, stack) && stack != [] && !stack[0].Serve?
    ensures Wakeups(w, stack[1..])
  {
    forall key | key in w.index.watchers && HasList(w.data, key) ensures Serve(key) in stack[1..] {
      InBelow(stack, Serve(key));
    }
  }

  lemma BegunKeepsStore(w: World, request: RespValue, rest: seq<RespValue>, now: nat, below: seq<Frame>)
    requires StoreOk(w) && Wakeups(w, below)
    ensures
      var after := w.(data := Begun(w.data, request, now).0);
      StoreOk(after) && Wakeups(after, Following(request, rest) + below)
  {
    BegunLists(w.data, request, now);
    var after, act, stack := Begun(w.data, request, now).0, ActOf(request), Following(request, rest) + below;
    forall key | key in w.index.watchers && HasList(after, key) ensures Serve(key) in stack {
      if act.Pushing? && act.op.key == key {
        assert stack[0] == Serve(key);
      }
    }
  }

  /** A round of the serve loop that finds a waiter and an item. */
  lemma ServedOneOk(w: World, key: string)
    requires StoreOk(w) && Queue(w, key) != [] && HasList(w.data, key)
    ensures
      var after := ServedOne(w, key);
      && Ops.LPop(w.data, key, 1).result.Popped? && Ops.LPop(w.data, key, 1).result.items != []
      && StoreOk(after) && after.index.watchers.Keys <= w.index.watchers.Keys
      && (forall other :: HasList(after.data, other) ==> HasList(w.data, other))
      && (forall other :: other != key ==> Content(after.data, other) == Content(w.data, other))
  {
    var first := Queue(w, key)[0];
    B.PurgedQueuesOk(w.index, {first.id});
    assert first in w.index.watchers[key];
  }

  lemma NothingToServe(w: World, key: string)
    requires StoreOk(w) && Queue(w, key) != [] && !HasList(w.data, key)
    ensures ServedOne(w, key) == w
    ensures !Ops.LPop(w.data, key, 1).result.Popped? || Ops.LPop(w.data, key, 1).result.items == []
  {}

  lemma ServeKeepsStore<T>(s: Thread<T>, key: string)
    requires StoreOk(s.server.store) && Wakeups(s.server.store, s.stack) && s.stack != [] && s.stack[0] == Serve(key)
    ensures
      var t := ServeFirst(s, key, s.stack[1..]);
      StoreOk(t.server.store) && Wakeups(t.server.store, t.stack)
  {
    var w, below := s.server.store, s.stack[1..];
    var t := ServeFirst(s, key, below);
    if Queue(w, key) != [] {
      if HasList(w.data, key) { ServedOneOk(w, key); } else { NothingToServe(w, key); }
    }
    forall other | other in t.server.store.index.watchers && HasList(t.server.store.data, other)
      ensures Serve(other) in t.stack
    {
      assert Serve(other) in s.stack;
      if other != key {
        InBelow(s.stack, Serve(other));
      } else {
        assert w.index.watchers[key] != [];
        assert t.stack[2] == Serve(key);
      }
    }
  }

  // ---------------------------------------------------------------- watches

  lemma PopKeepsWarned<T>(conns: map<T, Conn>, stack: seq<Frame>)
    requires Warned(conns, stack) && stack != []
    ensures Warned(conns, stack[1..])
  {}

  lemma PushIsAnnounced(data: Data, request: RespValue, now: nat)
    ensures ActOf(request).Pushing? ==> ActOf(request).op.key in Begun(data, request, now).1
  {}

  lemma BegunKeepsWatches<T>(s: Thread<T>, request: RespValue, rest: seq<RespValue>, now: nat, below: seq<Frame>)
    requires R.Inv(RedisEngine, s.server) && Warned(s.server.conns, below)
    ensures
      var conns := Notified(s.server.conns, s.server.index, Begun(s.server.store.data, request, now).1);
      && Warned(conns, Following(request, rest) + below)
      && R.IndexOk(s.server.index, conns) && R.QueuesOk(RedisEngine, conns)
  {
    var keys := Begun(s.server.store.data, request, now).1;
    var conns := Notified(s.server.conns, s.server.index, keys);
    R.NotifiedKeepsInv(RedisEngine, s.server.conns, s.server.index, keys);
    forall key, c | Serve(key) in Following(request, rest) + below && c in conns && key in conns[c].watched
      ensures conns[c].dirty
    {
      R.NotifiedDirty(s.server.index, s.server.conns, keys, c);
      if Serve(key) !in below {
        assert ActOf(request).Pushing? && key == ActOf(request).op.key;
        PushIsAnnounced(s.server.store.data, request, now);
      }
    }
  }

  // ---------------------------------------------------------------- every step

  lemma RunFirstKeepsInv<T>(s: Thread<T>, now: nat)
    requires Inv(s) && s.stack != [] && s.stack[0].Run? && s.stack[0].queue != []
    ensures Inv(Go(s, now))
  {
    var w, queue, below := s.server.store, s.stack[0].queue, s.stack[1..];
    PopKeepsWakeups(w, s.stack);
    PopKeepsWarned(s.server.conns, s.stack);
    if MustWait(w, queue[0]) {
      WaitKeeps(w, queue[0], queue[1..], below);
    } else {
      BegunKeepsStore(w, queue[0], queue[1..], now, below);
      BegunKeepsWatches(s, queue[0], queue[1..], now, below);
    }
  }

  lemma ServeFirstKeepsInv<T>(s: Thread<T>, now: nat)
    requires Inv(s) && s.stack != [] && s.stack[0].Serve?
    ensures Inv(Go(s, now))
  {
    ServeKeepsStore(s, s.stack[0].key);
    forall key | Serve(key) in Go(s, now).stack ensures Serve(key) in s.stack {}
  }

  lemma GoKeepsInv<T>(s: Thread<T>, now: nat)
    requires Inv(s)
    ensures Inv(Go(s, now))
  {
    if s.stack != [] {
      match s.stack[0]
      case Run(queue) =>
        if queue != [] { RunFirstKeepsInv(s, now); }
        else {
          PopKeepsWakeups(s.server.store, s.stack);
          PopKeepsWarned(s.server.conns, s.stack);
        }
      case Serve(_) => ServeFirstKeepsInv(s, now);
      case Replied(_) =>
        PopKeepsWakeups(s.server.store, s.stack);
        PopKeepsWarned(s.server.conns, s.stack);
    }
  }

  lemma AcceptKeepsInv<T>(s: Thread<T>, c: T, request: RespValue)
    requires Inv(s) && s.stack == [] && c in s.server.conns && IsRequest(request)
    ensures Inv(Accept(s, c, request))
  {
    var conn, kind := s.server.conns[c], KindOf(request);
    if kind == Exec && conn.active && !conn.dirty {
      R.ResetKeepsInv(RedisEngine, s.server, c);
    } else if IsTransactionControl(kind) || conn.active {
      R.DispatchKeepsInv(RedisEngine, s.server, c, request, _ => 0);
      OnlyRunningCommandsHaveEffect(RedisEngine, s.server, c, request, _ => 0);
    }
  }

  lemma ResumeKeeps<T>(s: Thread<T>, waiter: Waiter)
    requires Inv(s)
    ensures Wakeups(s.server.store, Woken(waiter) + s.stack) && Warned(s.server.conns, Woken(waiter) + s.stack)
  {
    forall key ensures Serve(key) in Woken(waiter) + s.stack <==> Serve(key) in s.stack {}
  }

  lemma StepKeepsInv<T>(s: Thread<T>, step: Step<T>, t: Thread<T>)
    requires Inv(s) && Next(s, step, t)
    ensures Inv(t)
  {
    match step
    case Connect(c) => R.StepKeepsInv(RedisEngine, s.server, R.Connect(c), t.server);
    case Disconnect(c) => R.StepKeepsInv(RedisEngine, s.server, R.Disconnect(c), t.server);
    case Request(c, request) => AcceptKeepsInv(s, c, request);
    case Timeout(key, waiter) => B.PurgedQueuesOk(s.server.store.index, {waiter.id});
    case Goes(now) => GoKeepsInv(s, now);
    case Parks =>
      PopKeepsWakeups(s.server.store, s.stack);
      PopKeepsWarned(s.server.conns, s.stack);
    case Resumes(i) => ResumeKeeps(s, s.parked[i]);
  }
}
