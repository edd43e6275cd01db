/**
 Requests as commands (src/command/core/Command.hpp, src/command/execution/CommandHandler.cpp) and what
 the write commands do: new data, reply, and the keys announced to watchers.
 */
module Commands {
  import opened Base
  import opened Decimal
  import opened StreamIds
  import opened Resp
  import opened Text
  import opened StoreData
  import opened Streams
  import Ops = StoreOps

  datatype Kind =
    | Ping | Info | Echo | Set | Get | TypeCmd | RPush | LPush | LRange | LLen | LPop | BLPop
    | XAdd | XRange | XRead | Incr | Multi | Watch | Unwatch | Exec | Discard | Replconf | Psync | Wait
    | Unknown

  function KindNamed(n: string): Kind {
    if n == "ping" then Ping else if n == "info" then Info else if n == "echo" then Echo
    else if n == "set" then Set else if n == "get" then Get else if n == "type" then TypeCmd
    else if n == "rpush" then RPush else if n == "lpush" then LPush else if n == "lrange" then LRange
    else if n == "llen" then LLen else if n == "lpop" then LPop else if n == "blpop" then BLPop
    else if n == "xadd" then XAdd else if n == "xrange" then XRange else if n == "xread" then XRead
    else if n == "incr" then Incr else if n == "multi" then Multi else if n == "watch" then Watch
    else if n == "unwatch" then Unwatch else if n == "exec" then Exec else if n == "discard" then Discard
    else if n == "replconf" then Replconf else if n == "psync" then Psync else if n == "wait" then Wait
    else Unknown
  }

  /** A command is named in any case. */
  function ParseKind(name: string): Kind {
    KindNamed(Lowercase(name))
  }

  predicate IsWrite(kind: Kind) {
    kind in {Set, Incr, RPush, LPush, LPop, BLPop, XAdd}
  }

  /** MULTI, WATCH, UNWATCH, EXEC and DISCARD are never queued. */
  predicate IsTransactionControl(kind: Kind) {
    kind in {Multi, Watch, Unwatch, Exec, Discard}
  }

  datatype Command = Command(kind: Kind, name: string, args: seq<string>)

  /** What a handler accepts: an array with at least the command name. */
  predicate IsRequest(v: RespValue) {
    v.Array? && v.elements != []
  }

  function Strs(vs: seq<RespValue>): (r: seq<string>)
    ensures |r| == |vs|
    ensures forall i :: 0 <= i < |vs| ==> r[i] == vs[i].Str()
  {
    if vs == [] then [] else [vs[0].Str()] + Strs(vs[1..])
  }

  function ParseCommand(request: RespValue): Command
    requires IsRequest(request)
  {
    var name := request.elements[0].Str();
    Command(ParseKind(name), name, Strs(request.elements[1..]))
  }

  /** A request made of bulk strings is read as those strings. */
  lemma CommandOfRequest(parts: seq<string>)
    requires parts != []
    ensures IsRequest(Request(parts))
    ensures ParseCommand(Request(parts)) == Command(ParseKind(parts[0]), parts[0], parts[1..])
  {
    assert ParseCommand(Request(parts)).args == parts[1..];
  }

  // ---------------------------------------------------------------- the write commands

  /** A write command with its arguments checked. */
  datatype Op =
    | SetOp(key: string, value: string)
    | IncrOp(key: string)
    | RPushOp(key: string, values: seq<string>)
    | LPushOp(key: string, values: seq<string>)
    | LPopOp(key: string, count: Option<nat>)
    | XAddOp(key: string, pattern: string, fields: seq<(string, string)>)

  /** SET options are read in pairs after the value; EX and PX set an expiry. */
  predicate HasExpiry(args: seq<string>) {
    exists i :: 2 <= i && i + 1 < |args| && i % 2 == 0 && Lowercase(args[i]) in {"ex", "px"}
  }

  /** The write commands whose effect this model gives: no expiry, no blocking pop, a readable LPOP count. */
  predicate Modelled(cmd: Command) {
    match cmd.kind
    case Set => !HasExpiry(cmd.args)
    case LPop => |cmd.args| < 2 || Stoull(cmd.args[1]).Some?
    case BLPop => false
    case _ => IsWrite(cmd.kind)
  }

  function Pairs(args: seq<string>): seq<(string, string)> {
    if |args| < 2 then [] else [(args[0], args[1])] + Pairs(args[2..])
  }

  /** The operation of a write command, or the error reply to its arguments. */
  function ToOp(cmd: Command): Result<Op>
    requires Modelled(cmd)
  {
    var n := |cmd.args|;
    var wrong := Err("-ERR wrong number of arguments for '" + cmd.name + "' command\r\n");
    match cmd.kind
    case Set => if n < 2 then wrong else Ok(SetOp(cmd.args[0], cmd.args[1]))
    case Incr => if n < 1 then wrong else Ok(IncrOp(cmd.args[0]))
    case RPush => if n < 2 then wrong else Ok(RPushOp(cmd.args[0], cmd.args[1..]))
    case LPush => if n < 2 then wrong else Ok(LPushOp(cmd.args[0], cmd.args[1..]))
    case LPop => if n < 1 then wrong else Ok(LPopOp(cmd.args[0], if n < 2 then None else Stoull(cmd.args[1])))
    case XAdd =>
      if n < 4 || n % 2 != 0 then Err("-ERR wrong number of arguments for XADD\r\n")
      else Ok(XAddOp(cmd.args[0], cmd.args[1], Pairs(cmd.args[2..])))
  }

  datatype Outcome = Outcome(data: Data, reply: string, notified: seq<string>)

  function Bulk(s: string): string {
    Serialize(BulkString(s))
  }

  function BulkArray(items: seq<string>): string {
    Serialize(Request(items))
  }

  function PopReply(items: seq<string>, counted: bool): string {
    // Without a count exactly one item is asked for, and a stored list is never empty.
    if counted then BulkArray(items) else if items == [] then "" else Bulk(items[0])
  }

  /** One operation on the store thread. `now` is the clock an XADD with `*` would read. */
  function Run(data: Data, op: Op, now: nat): Outcome {
    match op
    case SetOp(key, value) => Outcome(data[key := StoreData.Text(value)], "+OK\r\n", [key])
    case IncrOp(key) =>
      var u := Ops.Incr(data, key);
      (match u.result
       case Ok(n) => Outcome(u.data, ":" + IntText(n) + CRLF, [key])
       case Err(e) => Outcome(u.data, e, []))
    case RPushOp(key, values) =>
      var d := Ops.RPush(data, key, values);
      Outcome(d, ":" + IntText(|ItemsAt(d, key)|) + CRLF, [key])
    case LPushOp(key, values) =>
      var d := Ops.LPush(data, key, values);
      Outcome(d, ":" + IntText(|ItemsAt(d, key)|) + CRLF, [key])
    case LPopOp(key, count) =>
      var u := Ops.LPop(data, key, if count.Some? then count.value else 1);
      (match u.result
       case KeyNotFound => Outcome(u.data, "$-1\r\n", [])
       case WrongType => Outcome(u.data, Ops.WRONGTYPE, [])
       case Popped(items) => Outcome(u.data, PopReply(items, count.Some?), [key]))
    case XAddOp(key, pattern, fields) =>
      var u := Ops.XAdd(data, key, pattern, fields, now);
      (match u.result
       case Ok(id) => Outcome(u.data, Bulk(id), [key])
       case Err(e) => Outcome(u.data, e + CRLF, []))
  }

  /** A write command on the store thread. */
  function Execute(data: Data, cmd: Command, now: nat): Outcome
    requires Modelled(cmd)
  {
    match ToOp(cmd)
    case Err(e) => Outcome(data, e, [])
    case Ok(op) => Run(data, op, now)
  }

  // ---------------------------------------------------------------- stream order over runs

  /** Operations in the order the store thread runs them, each with the clock it sees. */
  function RunAll(data: Data, ops: seq<(Op, nat)>): Data {
    if ops == [] then data
    else
      var last := ops[|ops| - 1];
      Run(RunAll(data, ops[..|ops| - 1]), last.0, last.1).data
  }

  predicate StreamsOrdered(data: Data) {
    forall key :: key in data && data[key].Stream? ==> Ordered(data[key].entries)
  }

  predicate StreamsInRange(data: Data) {
    forall key :: key in data && data[key].Stream? ==> InRange(data[key].entries)
  }

  /** The write is no XADD that would put its stream out of order. */
  predicate Harmless(data: Data, op: Op, now: nat) {
    now <= INT64_MAX && (op.XAddOp? ==> KeepsOrder(op.pattern, LastIdOf(EntriesAt(data, op.key)), now))
  }

  predicate InDomain(op: Op, now: nat) {
    now <= INT64_MAX && (op.XAddOp? ==> PatternInDomain(op.pattern, now))
  }

  lemma RunKeepsStreamsOrdered(data: Data, op: Op, now: nat)
    requires StreamsOrdered(data) && Harmless(data, op, now)
    ensures StreamsOrdered(Run(data, op, now).data)
  {
    if op.XAddOp? {
      var entries := EntriesAt(data, op.key);
      assert Ordered(entries);
      if GenerateStreamId(op.pattern, LastIdOf(entries), now).Ok? {
        XAddKeepsOrderExactly(entries, op.pattern, now, op.fields);
      }
    }
  }

  /**
   In every reachable store each stream's IDs decode to strictly increasing pairs above 0-0, as long as
   every XADD on the way was harmless.
   */
  lemma {:induction false} StreamsStayOrdered(ops: seq<(Op, nat)>)
    requires forall i :: 0 <= i < |ops| ==> Harmless(RunAll(map[], ops[..i]), ops[i].0, ops[i].1)
    ensures StreamsOrdered(RunAll(map[], ops))
  {
    if ops != [] {
      var n := |ops| - 1;
      forall i | 0 <= i < n ensures Harmless(RunAll(map[], ops[..n][..i]), ops[..n][i].0, ops[..n][i].1) {
        assert ops[..n][..i] == ops[..i];
      }
      StreamsStayOrdered(ops[..n]);
      RunKeepsStreamsOrdered(RunAll(map[], ops[..n]), ops[n].0, ops[n].1);
    }
  }

  lemma XAddKeepsRange(data: Data, op: Op, now: nat)
    requires op.XAddOp? && StreamsOrdered(data) && StreamsInRange(data) && InDomain(op, now)
    ensures Harmless(data, op, now) && StreamsInRange(Run(data, op, now).data)
  {
    var entries := EntriesAt(data, op.key);
    assert Ordered(entries) && InRange(entries);
    InRangeKeepsOrder(entries, op.pattern, now);
    if GenerateStreamId(op.pattern, LastIdOf(entries), now).Ok? {
      XAddStaysInRange(entries, op.pattern, now, op.fields);
    }
  }

  /** Numbers below 2^63 are harmless in every run: order holds, and every stored number stays below 2^63. */
  lemma {:induction false} StreamsStayInRange(ops: seq<(Op, nat)>)
    requires forall i :: 0 <= i < |ops| ==> InDomain(ops[i].0, ops[i].1)
    ensures StreamsOrdered(RunAll(map[], ops)) && StreamsInRange(RunAll(map[], ops))
  {
    if ops != [] {
      var n := |ops| - 1;
      StreamsStayInRange(ops[..n]);
      var data, op, now := RunAll(map[], ops[..n]), ops[n].0, ops[n].1;
      if op.XAddOp? { XAddKeepsRange(data, op, now); }
      RunKeepsStreamsOrdered(data, op, now);
    }
  }

  /** A rejected XADD changes no stream's entries; at most it creates an empty stream at an absent key. */
  lemma RejectedXAddChangesNoEntries(data: Data, key: string, pattern: string, fields: seq<(string, string)>, now: nat)
    requires Ops.XAdd(data, key, pattern, fields, now).result.Err?
    ensures
      var after := Ops.XAdd(data, key, pattern, fields, now).data;
      && (forall k :: EntriesAt(after, k) == EntriesAt(data, k))
      && (after == data || (key !in data && after == data[key := Stream([])]))
  {
  }
}
