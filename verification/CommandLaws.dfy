/** The write commands as a client meets them: the words it sends, the reply it reads, and what is there afterwards. */
module CommandLaws {
  import opened Base
  import opened Decimal
  import opened StreamIds
  import opened Resp
  import opened Text
  import opened StoreData
  import opened Streams
  import opened Commands
  import opened ListLaws
  import Ops = StoreOps

  /** The words that ask for a write or for transaction control. */
  function NameOf(kind: Kind): string
    requires IsWrite(kind) || IsTransactionControl(kind)
  {
    match kind
    case Set => "set"
    case Incr => "incr"
    case RPush => "rpush"
    case LPush => "lpush"
    case LPop => "lpop"
    case BLPop => "blpop"
    case XAdd => "xadd"
    case Multi => "multi"
    case Watch => "watch"
    case Unwatch => "unwatch"
    case Exec => "exec"
    case Discard => "discard"
  }

  lemma WriteNamed(kind: Kind)
    requires IsWrite(kind)
    ensures KindNamed(NameOf(kind)) == kind
  {}

  lemma ControlNamed(kind: Kind)
    requires IsTransactionControl(kind)
    ensures KindNamed(NameOf(kind)) == kind
  {}

  lemma NamedBy(name: string)
    ensures var kind := KindNamed(name); IsWrite(kind) || IsTransactionControl(kind) ==> name == NameOf(kind)
  {}

  /** A request is the command its first word names in any case, with the other words as its arguments in order. */
  lemma RequestIsCommand(name: string, args: seq<string>, kind: Kind)
    requires IsWrite(kind) || IsTransactionControl(kind)
    ensures ParseKind(name) == kind <==> Lowercase(name) == NameOf(kind)
    ensures ParseCommand(Request([name] + args)) == Command(ParseKind(name), name, args)
  {
    NamedBy(Lowercase(name));
    if IsWrite(kind) { WriteNamed(kind); } else { ControlNamed(kind); }
    CommandOfRequest([name] + args);
    assert ([name] + args)[1..] == args;
  }

  function Number(n: int): string {
    Serialize(Integer(IntText(n)))
  }

  // ---------------------------------------------------------------- lists

  lemma RPushRuns(data: Data, key: string, values: seq<string>, now: nat)
    ensures
      var o := Run(data, RPushOp(key, values), now);
      && Drained(o.data, key) == Drained(data, key) + values && OnlyAt(data, o.data, key)
      && o.reply == Number(|Drained(o.data, key)|) && o.notified == [key]
  {
    RPushComesOutLast(data, key, values);
    DrainedIsItems(Ops.RPush(data, key, values), key);
  }

  /** RPUSH key v1 .. vn: they come out last, in this order, and the reply is how many can be popped. */
  lemma RPushSent(data: Data, name: string, key: string, values: seq<string>, now: nat)
    requires values != []
    ensures
      var o := Execute(data, Command(RPush, name, [key] + values), now);
      && Drained(o.data, key) == Drained(data, key) + values && OnlyAt(data, o.data, key)
      && o.reply == Number(|Drained(o.data, key)|) && o.notified == [key]
  {
    assert ([key] + values)[1..] == values;
    assert ToOp(Command(RPush, name, [key] + values)) == Ok(RPushOp(key, values));
    RPushRuns(data, key, values, now);
  }

  lemma LPushRuns(data: Data, key: string, values: seq<string>, now: nat)
    ensures
      var o, n := Run(data, LPushOp(key, values), now), |values|;
      var out := Drained(o.data, key);
      && |out| >= n && out[n..] == Drained(data, key) && (forall i :: 0 <= i < n ==> out[i] == values[n - 1 - i])
      && OnlyAt(data, o.data, key) && o.reply == Number(|out|) && o.notified == [key]
  {
    LPushComesOutFirst(data, key, values);
    DrainedIsItems(Ops.LPush(data, key, values), key);
  }

  /** LPUSH key v1 .. vn: they come out first, the last one before the others. */
  lemma LPushSent(data: Data, name: string, key: string, values: seq<string>, now: nat)
    requires values != []
    ensures
      var o, n := Execute(data, Command(LPush, name, [key] + values), now), |values|;
      var out := Drained(o.data, key);
      && |out| >= n && out[n..] == Drained(data, key) && (forall i :: 0 <= i < n ==> out[i] == values[n - 1 - i])
      && OnlyAt(data, o.data, key) && o.reply == Number(|out|) && o.notified == [key]
  {
    assert ([key] + values)[1..] == values;
    assert ToOp(Command(LPush, name, [key] + values)) == Ok(LPushOp(key, values));
    LPushRuns(data, key, values, now);
  }

  lemma LPopRuns(data: Data, key: string, count: Option<nat>, now: nat)
    requires HasList(data, key) && data[key].items != []
    ensures
      var o, n := Run(data, LPopOp(key, count), now), if count.Some? then count.value else 1;
      var before := Drained(data, key);
      var taken := Ops.Min(n, |before|);
      && before != [] && Drained(o.data, key) == before[taken..] && OnlyAt(data, o.data, key) && o.notified == [key]
      && o.reply == Serialize(if count.Some? then Request(before[..taken]) else BulkString(before[0]))
  {
    var n := if count.Some? then count.value else 1;
    DrainedIsItems(data, key);
    PopMany(data, key, n);
    DrainedIsItems(Ops.LPop(data, key, n).data, key);
    LPopLeavesTheRest(data, key, n);
  }

  /** LPOP key: the front item as a bulk string. */
  lemma LPopSent(data: Data, name: string, key: string, now: nat)
    requires HasList(data, key) && data[key].items != []
    ensures
      var o, before := Execute(data, Command(LPop, name, [key]), now), Drained(data, key);
      && before != [] && o.reply == Serialize(BulkString(before[0])) && Drained(o.data, key) == before[1..]
      && OnlyAt(data, o.data, key) && o.notified == [key]
  {
    assert ToOp(Command(LPop, name, [key])) == Ok(LPopOp(key, None));
    LPopRuns(data, key, None, now);
  }

  /** LPOP key n: an array of the first n items, or of all there are. */
  lemma LPopCountSent(data: Data, name: string, key: string, count: string, now: nat)
    requires HasList(data, key) && data[key].items != [] && Stoull(count).Some?
    ensures
      var o, before := Execute(data, Command(LPop, name, [key, count]), now), Drained(data, key);
      var n := Ops.Min(Stoull(count).value, |before|);
      && o.reply == Serialize(Request(before[..n])) && Drained(o.data, key) == before[n..]
      && OnlyAt(data, o.data, key) && o.notified == [key]
  {
    assert ToOp(Command(LPop, name, [key, count])) == Ok(LPopOp(key, Stoull(count)));
    LPopRuns(data, key, Stoull(count), now);
  }

  /** LPOP of an absent key, with or without a count: a null, and nothing changes. */
  lemma LPopOfNothing(data: Data, cmd: Command, now: nat)
    requires cmd.kind == LPop && Modelled(cmd) && cmd.args != [] && cmd.args[0] !in data
    ensures Execute(data, cmd, now) == Outcome(data, Serialize(Null), [])
  {}

  // ---------------------------------------------------------------- texts

  lemma SetSent(data: Data, name: string, key: string, value: string, now: nat)
    ensures
      var o := Execute(data, Command(Set, name, [key, value]), now);
      && o.reply == Serialize(SimpleString("OK")) && o.notified == [key] && OnlyAt(data, o.data, key)
      && key in o.data && o.data[key] == StoreData.Text(value)
  {
    assert ToOp(Command(Set, name, [key, value])) == Ok(SetOp(key, value));
  }

  lemma IncrSent(data: Data, name: string, key: string, n: int, now: nat)
    requires -INT64_MAX - 1 <= n < INT64_MAX && key in data && data[key] == Counter(n)
    ensures
      var o := Execute(data, Command(Incr, name, [key]), now);
      && o.reply == Number(n + 1) && o.notified == [key] && OnlyAt(data, o.data, key)
      && key in o.data && o.data[key] == Counter(n + 1)
  {
    assert ToOp(Command(Incr, name, [key])) == Ok(IncrOp(key));
    IncrOne(data, key, n);
  }

  /** SET key n, then INCR key: the reply to INCR is one more than the number that was set. */
  lemma SetThenIncr(data: Data, setName: string, incrName: string, key: string, n: int, text: string, now: nat)
    requires -INT64_MAX - 1 <= n < INT64_MAX && text == IntText(n)
    ensures
      var o := Execute(data, Command(Set, setName, [key, text]), now);
      var p := Execute(o.data, Command(Incr, incrName, [key]), now);
      p.reply == Number(n + 1) && p.notified == [key] && OnlyAt(data, p.data, key)
  {
    SetSent(data, setName, key, text, now);
    IncrSent(Execute(data, Command(Set, setName, [key, text]), now).data, incrName, key, n, now);
  }

  // ---------------------------------------------------------------- streams

  /** The arguments taken two by two. */
  ghost predicate ArePairs(fields: seq<(string, string)>, args: seq<string>) {
    2 * |fields| == |args| && forall i :: 0 <= i < |fields| ==> fields[i] == (args[2 * i], args[2 * i + 1])
  }

  lemma {:induction false} PairsAt(args: seq<string>, i: nat)
    requires 2 * i + 1 < |args|
    ensures i < |Pairs(args)| && Pairs(args)[i] == (args[2 * i], args[2 * i + 1])
    decreases i
  {
    if i > 0 { PairsAt(args[2..], i - 1); }
  }

  lemma {:induction false} PairsLength(args: seq<string>)
    ensures |Pairs(args)| == |args| / 2
  {
    if |args| >= 2 { PairsLength(args[2..]); }
  }

  lemma PairsAre(args: seq<string>)
    requires |args| % 2 == 0
    ensures ArePairs(Pairs(args), args)
  {
    PairsLength(args);
    forall i | 0 <= i < |Pairs(args)| ensures Pairs(args)[i] == (args[2 * i], args[2 * i + 1]) {
      PairsAt(args, i);
    }
  }

  /** XADD key id f1 v1 .. fn vn: one more entry with these fields and its ID as the reply, or an error and none. */
  lemma XAddSent(data: Data, name: string, key: string, id: string, args: seq<string>, now: nat)
    requires |args| >= 2 && |args| % 2 == 0 && (key in data ==> data[key].Stream?)
    ensures
      var o := Execute(data, Command(XAdd, name, [key, id] + args), now);
      var before, after := EntriesAt(data, key), EntriesAt(o.data, key);
      && OnlyAt(data, o.data, key)
      && match GenerateStreamId(id, LastIdOf(before), now)
         case Ok(given) =>
           && (exists fields :: ArePairs(fields, args) && after == before + [Entry(given, fields)])
           && o.reply == Serialize(BulkString(given)) && o.notified == [key]
         case Err(e) => after == before && o.reply == "-ERR " + e + CRLF && o.notified == []
  {
    var all := [key, id] + args;
    assert all[0] == key && all[1] == id && all[2..] == args;
    assert ToOp(Command(XAdd, name, all)) == Ok(XAddOp(key, id, Pairs(args)));
    PairsAre(args);
  }
}
