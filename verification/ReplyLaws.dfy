/** Whether a client can tell where a reply ends. */
module ReplyLaws {
  import opened Base
  import opened StreamIds
  import opened Resp
  import opened Text
  import opened StoreData
  import opened Streams
  import opened Blocking
  import opened Commands
  import opened CommandLaws
  import opened Transactions
  import Ops = StoreOps

  /** A text with the end of a line as its end, and no other. */
  predicate IsLine(s: string) {
    |s| >= 2 && s[|s| - 2] == '\r' && s[|s| - 1] == '\n' && '\r' !in s[..|s| - 2]
  }

  /** A reply a client can read to its end: a value, or an error on a line. */
  ghost predicate IsWhole(s: string) {
    (exists v :: s == Serialize(v)) || (IsLine(s) && s[0] == '-')
  }

  lemma LineAfter(s: string, line: string)
    requires '\r' !in s && IsLine(line)
    ensures IsLine(s + line)
  {
    assert (s + line)[..|s + line| - 2] == s + line[..|line| - 2];
  }

  lemma NameHasNoReturn(name: string, kind: Kind)
    requires IsWrite(kind) && ParseKind(name) == kind
    ensures '\r' !in name
  {
    NamedBy(Lowercase(name));
    assert '\r' !in NameOf(kind);
    forall i | 0 <= i < |name| ensures name[i] != '\r' {
      assert Lowercase(name)[i] == LowerChar(name[i]);
    }
  }

  lemma WrongArity(name: string)
    requires '\r' !in name
    ensures IsLine("-ERR wrong number of arguments for '" + name + "' command\r\n")
  {
    var start := "-ERR wrong number of arguments for '";
    assert '\r' !in start;
    assert "' command\r\n"[..9] == "' command";
    LineAfter(start + name, "' command\r\n");
  }

  lemma XAddArity()
    ensures IsLine("-ERR wrong number of arguments for XADD\r\n")
  {
    assert "-ERR wrong number of arguments for XADD\r\n"[..39] == "-ERR wrong number of arguments for XADD";
  }

  lemma ArgumentErrorIsWhole(cmd: Command)
    requires Modelled(cmd) && cmd.kind == ParseKind(cmd.name) && ToOp(cmd).Err?
    ensures IsWhole(ToOp(cmd).message)
  {
    if cmd.kind == XAdd { XAddArity(); } else {
      NameHasNoReturn(cmd.name, cmd.kind);
      WrongArity(cmd.name);
    }
  }

  lemma NotIntegerIsWhole()
    ensures IsWhole(Ops.NOT_INTEGER)
  {
    var start, end := "-ERR value is not an integer ", "or out of range\r\n";
    assert '\r' !in start && end[..15] == "or out of range";
    LineAfter(start, end);
  }

  lemma IdErrors(pattern: string, lastId: string, now: nat)
    requires GenerateStreamId(pattern, lastId, now).Err?
    ensures GenerateStreamId(pattern, lastId, now).message in {INVALID, NOT_POSITIVE, NOT_GREATER, "stoull"}
  {}

  lemma NotPositiveHasNoReturn()
    ensures '\r' !in NOT_POSITIVE
  {}

  lemma NotGreaterHasNoReturn()
    ensures '\r' !in NOT_GREATER
  {}

  lemma MessageHasNoReturn(e: string)
    requires e in {INVALID, NOT_POSITIVE, NOT_GREATER, "stoull"}
    ensures '\r' !in e
  {
    if e == NOT_POSITIVE { NotPositiveHasNoReturn(); } else if e == NOT_GREATER { NotGreaterHasNoReturn(); }
  }

  lemma IdErrorIsWhole(pattern: string, lastId: string, now: nat)
    requires GenerateStreamId(pattern, lastId, now).Err?
    ensures IsWhole("-ERR " + GenerateStreamId(pattern, lastId, now).message + CRLF)
  {
    IdErrors(pattern, lastId, now);
    MessageHasNoReturn(GenerateStreamId(pattern, lastId, now).message);
    LineAfter("-ERR " + GenerateStreamId(pattern, lastId, now).message, CRLF);
  }

  lemma WrongTypeIsCutOff()
    ensures !IsWhole(Ops.WRONGTYPE) && IsWhole(Ops.WRONGTYPE + CRLF)
  {
    var s := Ops.WRONGTYPE;
    assert s[0] == '-' && '\r' !in s;
    LineAfter(s, CRLF);
    forall v ensures s != Serialize(v) {
      assert Serialize(v)[0] != '-';
    }
  }

  /** LPOP of a key that holds something other than a list. */
  predicate PopsWrongType(data: Data, op: Op) {
    op.LPopOp? && op.key in data && !data[op.key].List?
  }

  lemma PopIsWhole(data: Data, op: Op, now: nat)
    requires op.LPopOp? && NoEmptyList(data)
    ensures IsWhole(Run(data, op, now).reply) <==> !PopsWrongType(data, op)
  {
    if PopsWrongType(data, op) { WrongTypeIsCutOff(); }
    else if op.key !in data { assert Run(data, op, now).reply == Serialize(Null); }
  }

  lemma AddIsWhole(data: Data, op: Op, now: nat)
    requires op.XAddOp?
    ensures IsWhole(Run(data, op, now).reply)
  {
    if op.key in data && !data[op.key].Stream? { WrongTypeIsCutOff(); }
    else if GenerateStreamId(op.pattern, LastIdOf(EntriesAt(data, op.key)), now).Err? {
      IdErrorIsWhole(op.pattern, LastIdOf(EntriesAt(data, op.key)), now);
    }
  }

  lemma RunIsWhole(data: Data, op: Op, now: nat)
    requires NoEmptyList(data)
    ensures IsWhole(Run(data, op, now).reply) <==> !PopsWrongType(data, op)
  {
    match op
    case SetOp(_, _) => assert Run(data, op, now).reply == Serialize(SimpleString("OK"));
    case IncrOp(key) =>
      NotIntegerIsWhole();
      var u := Ops.Incr(data, key);
      if u.result.Ok? { assert Run(data, op, now).reply == Number(u.result.value); }
    case RPushOp(key, values) =>
      assert Run(data, op, now).reply == Number(|ItemsAt(Ops.RPush(data, key, values), key)|);
    case LPushOp(key, values) =>
      assert Run(data, op, now).reply == Number(|ItemsAt(Ops.LPush(data, key, values), key)|);
    case LPopOp(_, _) => PopIsWhole(data, op, now);
    case XAddOp(_, _, _) => AddIsWhole(data, op, now);
  }

  /**
   Every reply to a write can be read to its end, except that to an LPOP of a key holding something else:
   its error has no end of line, so the next reply runs into it.
   */
  lemma RepliesAreWhole(data: Data, request: RespValue, now: nat)
    requires IsRequest(request) && Modelled(ParseCommand(request)) && NoEmptyList(data)
    ensures
      var cmd := ParseCommand(request);
      IsWhole(Execute(data, cmd, now).reply) <==>
      !(cmd.kind == LPop && cmd.args != [] && cmd.args[0] in data && !data[cmd.args[0]].List?)
  {
    var cmd := ParseCommand(request);
    match ToOp(cmd)
    case Err(_) => ArgumentErrorIsWhole(cmd);
    case Ok(op) => RunIsWhole(data, op, now);
  }

  // ---------------------------------------------------------------- EXEC

  lemma {:induction false} JoinedValues(vs: seq<RespValue>, replies: seq<string>)
    requires |replies| == |vs| && forall i :: 0 <= i < |vs| ==> replies[i] == Serialize(vs[i])
    ensures Transactions.Joined(replies) == SerializeAll(vs)
  {
    if vs != [] {
      var n := |vs| - 1;
      JoinedValues(vs[..n], replies[..n]);
      SerializeAllSnoc(vs[..n], vs[n]);
      assert vs[..n] + [vs[n]] == vs;
    }
  }

  /** The reply to EXEC is the array of the replies it collected, so a client reads back each of them. */
  lemma ExecRepliesWithAnArray(vs: seq<RespValue>, replies: seq<string>)
    requires |replies| == |vs| && forall i :: 0 <= i < |vs| ==> replies[i] == Serialize(vs[i])
    ensures ExecReply(replies) == Serialize(Array(vs))
    ensures WellFormed(Array(vs)) ==> Parse(ExecReply(replies)) == Some(At(Array(vs), |ExecReply(replies)|))
  {
    JoinedValues(vs, replies);
    if WellFormed(Array(vs)) {
      RoundTrip(Array(vs), "");
      assert Serialize(Array(vs)) + "" == Serialize(Array(vs));
    }
  }
}
