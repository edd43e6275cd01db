/**
 Transactions over all connections: the dispatcher (src/command/execution/TransactionDispatcher.cpp), the
 transaction state of each connection (src/command/execution/TransactionManager.cpp), MULTI, EXEC,
 DISCARD, WATCH and UNWATCH. What an ordinary command does is a parameter.
 */
module Transactions {
  import opened Base
  import opened Decimal
  import opened Resp
  import opened Commands
  import opened Registrations
  import opened Watches

  /** What a command did on the store thread: new store, reply, and the keys it announced as written. */
  datatype Effect<S> = Effect(store: S, reply: string, notified: seq<string>)

  /** How requests are classified by name, and what ordinary commands do to a store under a clock. */
  datatype Engine<!S> = Engine(kind: RespValue -> Kind, run: (S, RespValue, nat) -> Effect<S>)

  datatype Conn = Conn(active: bool, dirty: bool, queue: seq<RespValue>, watched: map<string, nat>)

  const Idle := Conn(false, false, [], map[])

  /** The store, the bytes propagated to replicas, the WATCH index, and the connections. */
  datatype Server<S, T> = Server(store: S, stream: string, index: Index<T>, conns: map<T, Conn>)

  /** REPLCONF and PSYNC have no handler for clients. */
  predicate Known(kind: Kind) {
    kind !in {Unknown, Replconf, Psync}
  }

  function Name(request: RespValue): string
    requires IsRequest(request)
  {
    request.elements[0].Str()
  }

  function Args(request: RespValue): seq<string>
    requires IsRequest(request)
  {
    Strs(request.elements[1..])
  }

  /** A request that is not transaction control. */
  predicate IsOrdinary<S>(e: Engine<S>, request: RespValue) {
    IsRequest(request) && !IsTransactionControl(e.kind(request))
  }

  // ---------------------------------------------------------------- ordinary commands

  function EffectOf<S>(e: Engine<S>, store: S, request: RespValue, now: nat): Effect<S>
    requires IsRequest(request)
  {
    if Known(e.kind(request)) then e.run(store, request, now)
    else Effect(store, "-ERR unknown command '" + Name(request) + "'\r\n", [])
  }

  function Propagated<S>(e: Engine<S>, request: RespValue): string
    requires IsRequest(request)
  {
    if IsWrite(e.kind(request)) then Serialize(request) else ""
  }

  /** `c` watches one of the written keys. */
  ghost predicate Hit<T>(index: Index<T>, keys: seq<string>, c: T) {
    exists key :: key in keys && c in Owners(index, key)
  }

  /** Every connection watching one of the written keys becomes dirty. */
  ghost function Notified<T>(conns: map<T, Conn>, index: Index<T>, keys: seq<string>): map<T, Conn> {
    map c | c in conns :: if Hit(index, keys, c) then conns[c].(dirty := true) else conns[c]
  }

  /** An ordinary command runs: store, then notifications, then propagation. */
  ghost function Ran<S, T>(e: Engine<S>, s: Server<S, T>, request: RespValue, now: nat): Server<S, T>
    requires IsRequest(request)
  {
    var done := EffectOf(e, s.store, request, now);
    Server(done.store, s.stream + Propagated(e, request), s.index, Notified(s.conns, s.index, done.notified))
  }

  // ---------------------------------------------------------------- queues

  predicate AllOrdinary<S>(e: Engine<S>, queue: seq<RespValue>) {
    forall i :: 0 <= i < |queue| ==> IsOrdinary(e, queue[i])
  }

  /** Requests run one after the other; `clock(k)` is the time the k-th of them reads. */
  ghost function RanAll<S, T>(e: Engine<S>, s: Server<S, T>, queue: seq<RespValue>, clock: nat -> nat): Server<S, T>
    requires AllOrdinary(e, queue)
  {
    if queue == [] then s
    else
      var n := |queue| - 1;
      Ran(e, RanAll(e, s, queue[..n], clock), queue[n], clock(n))
  }

  /** Their replies, in order. */
  function Replies<S>(e: Engine<S>, store: S, queue: seq<RespValue>, clock: nat -> nat): seq<string>
    requires AllOrdinary(e, queue)
  {
    if queue == [] then []
    else
      var n := |queue| - 1;
      Replies(e, store, queue[..n], clock) +
          [EffectOf(e, StoreAfter(e, store, queue[..n], clock), queue[n], clock(n)).reply]
  }

  /** The store after running them. */
  function StoreAfter<S>(e: Engine<S>, store: S, queue: seq<RespValue>, clock: nat -> nat): S
    requires AllOrdinary(e, queue)
  {
    if queue == [] then store
    else
      var n := |queue| - 1;
      EffectOf(e, StoreAfter(e, store, queue[..n], clock), queue[n], clock(n)).store
  }

  /** The keys they announce, in order. */
  function KeysWritten<S>(e: Engine<S>, store: S, queue: seq<RespValue>, clock: nat -> nat): seq<string>
    requires AllOrdinary(e, queue)
  {
    if queue == [] then []
    else
      var n := |queue| - 1;
      KeysWritten(e, store, queue[..n], clock) +
      EffectOf(e, StoreAfter(e, store, queue[..n], clock), queue[n], clock(n)).notified
  }

  /** The write commands of a queue, in order. */
  function Writes<S>(e: Engine<S>, queue: seq<RespValue>): seq<RespValue>
    requires AllOrdinary(e, queue)
  {
    if queue == [] then []
    else
      var n := |queue| - 1;
      Writes(e, queue[..n]) + (if IsWrite(e.kind(queue[n])) then [queue[n]] else [])
  }

  function Joined(parts: seq<string>): string {
    if parts == [] then "" else Joined(parts[..|parts| - 1]) + parts[|parts| - 1]
  }

  function ExecReply(replies: seq<string>): string {
    "*" + IntText(|replies|) + CRLF + Joined(replies)
  }

  const ABORTED := "*-1\r\n"

  // ---------------------------------------------------------------- dispatch

  /** The connection drops its watches; its dirty flag stays. */
  ghost function Cleared<S, T>(s: Server<S, T>, c: T): Server<S, T>
    requires c in s.conns
  {
    s.(index := Purged(s.index, s.conns[c].watched.Values), conns := s.conns[c := s.conns[c].(watched := map[])])
  }

  /** The transaction ends: no watches, not active, clean, empty queue. */
  ghost function Reset<S, T>(s: Server<S, T>, c: T): Server<S, T>
    requires c in s.conns
  {
    s.(index := Purged(s.index, s.conns[c].watched.Values), conns := s.conns[c := Idle])
  }

  datatype Reply<S, T> = Reply(server: Server<S, T>, text: string)

  ghost function DoWatch<S, T>(s: Server<S, T>, c: T, name: string, args: seq<string>): Reply<S, T>
    requires c in s.conns
  {
    if s.conns[c].active then Reply(s, "-ERR WATCH inside MULTI is not allowed\r\n")
    else if args == [] then Reply(s, "-ERR wrong number of arguments for '" + name + "' command\r\n")
    else
      var (index, watched) := AddedAll(s.index, s.conns[c].watched, args, c);
      Reply(s.(index := index, conns := s.conns[c := s.conns[c].(watched := watched)]), "+OK\r\n")
  }

  ghost function DoUnwatch<S, T>(s: Server<S, T>, c: T, name: string, args: seq<string>): Reply<S, T>
    requires c in s.conns
  {
    if args != [] then Reply(s, "-ERR wrong number of arguments for '" + name + "' command\r\n")
    else Reply(Cleared(s, c), "+OK\r\n")
  }

  /** EXEC: aborts when dirty; otherwise the transaction ends first and then its commands run. */
  ghost function DoExec<S, T>(e: Engine<S>, s: Server<S, T>, c: T, clock: nat -> nat): Reply<S, T>
    requires c in s.conns && AllOrdinary(e, s.conns[c].queue)
  {
    var conn := s.conns[c];
    if !conn.active then Reply(s, "-ERR EXEC without MULTI\r\n")
    else if conn.dirty then Reply(Reset(s, c), ABORTED)
    else Reply(RanAll(e, Reset(s, c), conn.queue, clock), ExecReply(Replies(e, s.store, conn.queue, clock)))
  }

  ghost function DoDiscard<S, T>(s: Server<S, T>, c: T): Reply<S, T>
    requires c in s.conns
  {
    if !s.conns[c].active then Reply(s, "-ERR DISCARD without MULTI\r\n") else Reply(Reset(s, c), "+OK\r\n")
  }

  ghost function DoMulti<S, T>(s: Server<S, T>, c: T): Reply<S, T>
    requires c in s.conns
  {
    if s.conns[c].active then Reply(s, "-ERR MULTI calls can not be nested\r\n")
    else Reply(s.(conns := s.conns[c := s.conns[c].(active := true, queue := [])]), "+OK\r\n")
  }

  /** The transaction-control commands that run nothing. */
  ghost function DoControl<S, T>(s: Server<S, T>, c: T, kind: Kind, name: string, args: seq<string>): Reply<S, T>
    requires c in s.conns && kind in {Multi, Watch, Unwatch, Discard}
  {
    match kind
    case Multi => DoMulti(s, c)
    case Watch => DoWatch(s, c, name, args)
    case Unwatch => DoUnwatch(s, c, name, args)
    case Discard => DoDiscard(s, c)
  }

  /** Inside MULTI an ordinary command is queued; outside it runs. */
  ghost function DoOrdinary<S, T>(e: Engine<S>, s: Server<S, T>, c: T, request: RespValue, now: nat): Reply<S, T>
    requires c in s.conns && IsRequest(request)
  {
    if s.conns[c].active then
      Reply(s.(conns := s.conns[c := s.conns[c].(queue := s.conns[c].queue + [request])]), "+QUEUED\r\n")
    else Reply(Ran(e, s, request, now), EffectOf(e, s.store, request, now).reply)
  }

  /** One request on one connection. */
  ghost function Dispatch<S, T>(e: Engine<S>, s: Server<S, T>, c: T, request: RespValue, clock: nat -> nat): Reply<S, T>
    requires c in s.conns && AllOrdinary(e, s.conns[c].queue) && IsRequest(request)
  {
    var kind := e.kind(request);
    if kind == Exec then DoExec(e, s, c, clock)
    else if IsTransactionControl(kind) then DoControl(s, c, kind, Name(request), Args(request))
    else DoOrdinary(e, s, c, request, clock(0))
  }

  /** To show something of every request, show it of each handler. */
  lemma DispatchCases<S, T>(
    e: Engine<S>, s: Server<S, T>, c: T, request: RespValue, clock: nat -> nat, ok: Server<S, T> -> bool)
    requires c in s.conns && AllOrdinary(e, s.conns[c].queue) && IsRequest(request)
    requires e.kind(request) == Multi ==> ok(DoMulti(s, c).server)
    requires e.kind(request) == Watch ==> ok(DoWatch(s, c, Name(request), Args(request)).server)
    requires e.kind(request) == Unwatch ==> ok(DoUnwatch(s, c, Name(request), Args(request)).server)
    requires e.kind(request) == Exec ==> ok(DoExec(e, s, c, clock).server)
    requires e.kind(request) == Discard ==> ok(DoDiscard(s, c).server)
    requires IsOrdinary(e, request) ==> ok(DoOrdinary(e, s, c, request, clock(0)).server)
    ensures ok(Dispatch(e, s, c, request, clock).server)
  {}

  // ---------------------------------------------------------------- EXEC is a sequential fold

  lemma {:induction false} StoreOfRanAll<S, T>(e: Engine<S>, s: Server<S, T>, queue: seq<RespValue>, clock: nat -> nat)
    requires AllOrdinary(e, queue)
    ensures RanAll(e, s, queue, clock).store == StoreAfter(e, s.store, queue, clock)
    ensures RanAll(e, s, queue, clock).index == s.index
  {
    if queue != [] {
      StoreOfRanAll(e, s, queue[..|queue| - 1], clock);
    }
  }

  lemma RanAllSnoc<S, T>(e: Engine<S>, s: Server<S, T>, queue: seq<RespValue>, clock: nat -> nat, k: nat)
    requires AllOrdinary(e, queue) && k < |queue|
    ensures RanAll(e, s, queue[..k + 1], clock) == Ran(e, RanAll(e, s, queue[..k], clock), queue[k], clock(k))
  {
    assert queue[..k + 1][..k] == queue[..k];
  }

  lemma WritesSnoc<S>(e: Engine<S>, queue: seq<RespValue>)
    requires AllOrdinary(e, queue) && queue != []
    ensures SerializeAll(Writes(e, queue)) ==
            SerializeAll(Writes(e, queue[..|queue| - 1])) + Propagated(e, queue[|queue| - 1])
  {
    var n := |queue| - 1;
    if IsWrite(e.kind(queue[n])) {
      SerializeAllSnoc(Writes(e, queue[..n]), queue[n]);
    } else {
      assert Writes(e, queue[..n]) + [] == Writes(e, queue[..n]);
    }
  }

  lemma {:induction false} WritesPropagated<S, T>(
    e: Engine<S>, s: Server<S, T>, queue: seq<RespValue>, clock: nat -> nat)
    requires AllOrdinary(e, queue)
    ensures RanAll(e, s, queue, clock).stream == s.stream + SerializeAll(Writes(e, queue))
  {
    if queue == [] {
      assert s.stream + "" == s.stream;
    } else {
      var n := |queue| - 1;
      WritesPropagated(e, s, queue[..n], clock);
      WritesSnoc(e, queue);
      Assoc(s.stream, SerializeAll(Writes(e, queue[..n])), Propagated(e, queue[n]));
    }
  }

  /** A clean EXEC: the store and replies of running the queue in order, and its writes propagated in order. */
  lemma CleanExecIsAFold<S, T>(e: Engine<S>, s: Server<S, T>, c: T, request: RespValue, clock: nat -> nat)
    requires c in s.conns && AllOrdinary(e, s.conns[c].queue) && IsRequest(request) && e.kind(request) == Exec
    requires s.conns[c].active && !s.conns[c].dirty
    ensures
      var r, queue := Dispatch(e, s, c, request, clock), s.conns[c].queue;
      && r.server.store == StoreAfter(e, s.store, queue, clock)
      && r.server.stream == s.stream + SerializeAll(Writes(e, queue))
      && r.text == ExecReply(Replies(e, s.store, queue, clock))
  {
    StoreOfRanAll(e, Reset(s, c), s.conns[c].queue, clock);
    WritesPropagated(e, Reset(s, c), s.conns[c].queue, clock);
  }

  lemma {:induction false} ReplyAt<S>(e: Engine<S>, store: S, queue: seq<RespValue>, clock: nat -> nat, k: nat)
    requires AllOrdinary(e, queue) && k < |queue|
    ensures |Replies(e, store, queue, clock)| == |queue|
    ensures Replies(e, store, queue, clock)[k] ==
            EffectOf(e, StoreAfter(e, store, queue[..k], clock), queue[k], clock(k)).reply
  {
    var n := |queue| - 1;
    if n > 0 {
      ReplyAt(e, store, queue[..n], clock, if k < n then k else 0);
    }
    if k < n {
      assert queue[..n][..k] == queue[..k];
    }
  }

  /**
   EXEC does what sending the queue one request at a time would: on a connection outside MULTI, the
   k-th request takes the server from the state after k of them to the state after k + 1, and its reply
   is the k-th of EXEC's replies.
   */
  lemma ExecIsDispatchingOneByOne<S, T>(
    e: Engine<S>, s: Server<S, T>, c: T, queue: seq<RespValue>, clock: nat -> nat, k: nat)
    requires AllOrdinary(e, queue) && k < |queue| && c in s.conns && s.conns[c].queue == [] && !s.conns[c].active
    ensures
      var before := RanAll(e, s, queue[..k], clock);
      && c in before.conns && before.conns[c].queue == []
      && |Replies(e, s.store, queue, clock)| == |queue|
      && Dispatch(e, before, c, queue[k], _ => clock(k)) ==
         Reply(RanAll(e, s, queue[..k + 1], clock), Replies(e, s.store, queue, clock)[k])
  {
    StoreOfRanAll(e, s, queue[..k], clock);
    ConnsAfter(e, s, queue[..k], clock);
    ReplyAt(e, s.store, queue, clock, k);
    assert queue[..k + 1][..k] == queue[..k];
    OrdinaryIsRun(e, RanAll(e, s, queue[..k], clock), c, queue[k], _ => clock(k));
  }

  lemma OrdinaryIsRun<S, T>(e: Engine<S>, s: Server<S, T>, c: T, request: RespValue, clock: nat -> nat)
    requires c in s.conns && !s.conns[c].active && s.conns[c].queue == [] && IsOrdinary(e, request)
    ensures Dispatch(e, s, c, request, clock) ==
            Reply(Ran(e, s, request, clock(0)), EffectOf(e, s.store, request, clock(0)).reply)
  {}

  // ---------------------------------------------------------------- notifications

  lemma NotifiedTwice<T>(conns: map<T, Conn>, index: Index<T>, a: seq<string>, b: seq<string>)
    ensures Notified(Notified(conns, index, a), index, b) == Notified(conns, index, a + b)
  {
    forall c | c in conns ensures Hit(index, a + b, c) <==> Hit(index, a, c) || Hit(index, b, c) {
      if Hit(index, a, c) {
        var key :| key in a && c in Owners(index, key);
        assert key in a + b;
      } else if Hit(index, b, c) {
        var key :| key in b && c in Owners(index, key);
        assert key in a + b;
      }
    }
  }

  /** Commands that run change nothing of a connection but its dirty flag, set if it watches a key they announce. */
  lemma {:induction false} ConnsAfter<S, T>(e: Engine<S>, s: Server<S, T>, queue: seq<RespValue>, clock: nat -> nat)
    requires AllOrdinary(e, queue)
    ensures RanAll(e, s, queue, clock).conns == Notified(s.conns, s.index, KeysWritten(e, s.store, queue, clock))
  {
    if queue == [] {
      assert Notified(s.conns, s.index, []) == s.conns;
    } else {
      var n := |queue| - 1;
      ConnsAfter(e, s, queue[..n], clock);
      StoreOfRanAll(e, s, queue[..n], clock);
      var keys := KeysWritten(e, s.store, queue[..n], clock);
      var done := EffectOf(e, StoreAfter(e, s.store, queue[..n], clock), queue[n], clock(n));
      NotifiedTwice(s.conns, s.index, keys, done.notified);
    }
  }

  lemma ControlHasNoEffect<S, T>(s: Server<S, T>, c: T, kind: Kind, name: string, args: seq<string>)
    requires c in s.conns && kind in {Multi, Watch, Unwatch, Discard}
    ensures DoControl(s, c, kind, name, args).server.store == s.store
    ensures DoControl(s, c, kind, name, args).server.stream == s.stream
  {}

  /** Only a command that runs can change the store or reach the replicas: not a queued, discarded or aborted one. */
  lemma OnlyRunningCommandsHaveEffect<S, T>(e: Engine<S>, s: Server<S, T>, c: T, request: RespValue, clock: nat -> nat)
    requires c in s.conns && AllOrdinary(e, s.conns[c].queue) && IsRequest(request)
    requires if e.kind(request) == Exec then !s.conns[c].active || s.conns[c].dirty || s.conns[c].queue == []
             else IsTransactionControl(e.kind(request)) || s.conns[c].active
    ensures Dispatch(e, s, c, request, clock).server.store == s.store
    ensures Dispatch(e, s, c, request, clock).server.stream == s.stream
  {
    if e.kind(request) in {Multi, Watch, Unwatch, Discard} {
      ControlHasNoEffect(s, c, e.kind(request), Name(request), Args(request));
    }
  }
}
