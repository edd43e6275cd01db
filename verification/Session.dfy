/** Case folding (src/util/StringUtils.hpp). */
module Text {
  function LowerChar(c: char): char {
    if 'A' <= c <= 'Z' then (c as int - 'A' as int + 'a' as int) as char else c
  }

  function Lowercase(s: string): (r: string)
    ensures |r| == |s|
  {
    seq(|s|, i requires 0 <= i < |s| => LowerChar(s[i]))
  }
}

/** What travels on a replication link (src/command/impl/ReplicationCommands.cpp, src/replication). */
module ReplicationLink {
  import opened Decimal
  import opened Resp

  /** The placeholder RDB file: magic and version, the EOF opcode 0xFF, eight zero bytes. */
  const Rdb: string := "REDIS0009" + "\U{FF}" + "\0\0\0\0\0\0\0\0"

  function RdbMessage(): string {
    "$" + IntText(|Rdb|) + CRLF + Rdb
  }

  function FullResyncLine(replid: string, offset: nat): string {
    "FULLRESYNC " + replid + " " + IntText(offset)
  }

  /** The reply to PSYNC: the FULLRESYNC line, then the RDB file as a bulk string without final CRLF. */
  function PsyncReply(replid: string, offset: nat): string {
    "+" + FullResyncLine(replid, offset) + CRLF + RdbMessage()
  }

  const GetAck: RespValue := Request(["REPLCONF", "GETACK", "*"])

  /** What a replica sends back. */
  function AckMessage(offset: nat): string {
    Serialize(Request(["REPLCONF", "ACK", IntText(offset)]))
  }
}

/**
 The replica's end of the link (src/replication/ReplicationSession.cpp), from the reply to PSYNC on:
 FULLRESYNC line, RDB header, RDB body, then the stream of propagated commands.
 */
module Session {
  import opened Base
  import opened Decimal
  import opened Resp
  import opened Text

  datatype Phase = AwaitReply | AwaitRdbHeader | AwaitRdbBody(size: nat) | Streaming | Stopped

  /**
   `buf` holds received bytes not yet consumed and `offset` is replica_offset_. `taken` lists every
   command cut from the stream and `acks` every offset sent in a REPLCONF ACK.
   */
  datatype Session = Session(phase: Phase, buf: string, offset: nat, taken: seq<RespValue>, acks: seq<nat>)

  const Fresh: Session := Session(AwaitReply, "", 0, [], [])

  predicate IsGetAck(v: RespValue) {
    && v.Array? && |v.elements| >= 2
    && Lowercase(v.elements[0].Str()) == "replconf"
    && Lowercase(v.elements[1].Str()) == "getack"
  }

  /** The commands handed to the store thread: everything but GETACK. */
  function Posted(taken: seq<RespValue>): seq<RespValue> {
    if taken == [] then []
    else
      var last := taken[|taken| - 1];
      Posted(taken[..|taken| - 1]) + (if IsGetAck(last) then [] else [last])
  }

  /** Position after the last space, if there is one. */
  function AfterLastSpace(s: string): (r: Option<nat>)
    ensures r.Some? ==> r.value <= |s|
  {
    if s == [] then None
    else if s[|s| - 1] == ' ' then Some(|s|)
    else AfterLastSpace(s[..|s| - 1])
  }

  /** `parse_fullresync_offset`: the number after the last space. */
  function ReplyOffset(reply: string): Option<nat> {
    match AfterLastSpace(reply)
    case None => None
    case Some(start) =>
      match FromChars(reply[start..], 0, UINT64_MAX)
      case None => None
      case Some(scanned) => Some(scanned.value)
  }

  function ReadReply(s: Session): Option<Session> {
    match FindCrlf(s.buf, 0)
    case None => None
    case Some(end) =>
      var rest := s.(buf := s.buf[end + 2..]);
      match Parse(s.buf[..end + 2])
      case None => Some(rest.(phase := Stopped))
      case Some(reply) =>
        var offset := if reply.value.SimpleString? then ReplyOffset(reply.value.str) else None;
        Some(rest.(phase := AwaitRdbHeader, offset := if offset.Some? then offset.value else s.offset))
  }

  function ReadRdbHeader(s: Session): Option<Session> {
    match FindCrlf(s.buf, 0)
    case None => None
    case Some(end) =>
      var rest := s.(buf := s.buf[end + 2..]);
      if s.buf[0] != '$' then Some(rest.(phase := Stopped))
      else
        match FromChars(s.buf[1..end], 0, UINT64_MAX)
        case None => Some(rest.(phase := Stopped))
        case Some(size) => Some(rest.(phase := AwaitRdbBody(size.value)))
  }

  function SkipRdbBody(s: Session, size: nat): Option<Session> {
    if |s.buf| < size then None else Some(s.(phase := Streaming, buf := s.buf[size..]))
  }

  /** Cuts one command off the buffer, counts its bytes, and answers it at once if it is a GETACK. */
  function TakeCommand(s: Session): Option<Session> {
    Cut(s, Parse(s.buf))
  }

  function Cut(s: Session, parsed: Option<At<RespValue>>): Option<Session>
    requires parsed.Some? ==> parsed.value.pos <= |s.buf|
  {
    match parsed
    case None => None
    case Some(command) => Some(Took(s, command.value, command.pos, IsGetAck(command.value)))
  }

  /** The session with a command of `size` bytes taken off its buffer, counted, and answered or not. */
  function Took(s: Session, command: RespValue, size: nat, answered: bool): Session
    requires size <= |s.buf|
  {
    var offset := s.offset + size;
    Session(s.phase, s.buf[size..], offset, s.taken + [command], s.acks + (if answered then [offset] else []))
  }

  function Rank(phase: Phase): nat {
    match phase
    case AwaitReply => 3
    case AwaitRdbHeader => 2
    case AwaitRdbBody(_) => 1
    case Streaming => 0
    case Stopped => 0
  }

  /** One completion handler's worth of progress, if the buffer allows it. */
  function StepOnce(s: Session): (r: Option<Session>)
    ensures r.Some? ==>
              || Rank(r.value.phase) < Rank(s.phase)
              || (r.value.phase == s.phase && |r.value.buf| < |s.buf|)
  {
    match s.phase
    case AwaitReply => ReadReply(s)
    case AwaitRdbHeader => ReadRdbHeader(s)
    case AwaitRdbBody(size) => SkipRdbBody(s, size)
    case Streaming => TakeCommand(s)
    case Stopped => None
  }

  /** All the progress the buffered bytes allow. */
  function Advance(s: Session): Session
    decreases Rank(s.phase), |s.buf|
  {
    match StepOnce(s)
    case None => s
    case Some(t) => Advance(t)
  }

  function Feed(s: Session, chunk: string): Session {
    s.(buf := s.buf + chunk)
  }

  /** The session after a series of reads. */
  function Deliver(s: Session, chunks: seq<string>): Session
    decreases |chunks|
  {
    if chunks == [] then s else Deliver(Advance(Feed(s, chunks[0])), chunks[1..])
  }

  function Flatten(chunks: seq<string>): string {
    if chunks == [] then "" else chunks[0] + Flatten(chunks[1..])
  }

  // ---------------------------------------------------------------- reads may be split anywhere

  lemma LineStepStable(s: Session, chunk: string)
    requires FindCrlf(s.buf, 0).Some?
    ensures FindCrlf(s.buf + chunk, 0) == FindCrlf(s.buf, 0)
    ensures var end := FindCrlf(s.buf, 0).value;
            (s.buf + chunk)[..end + 2] == s.buf[..end + 2] && (s.buf + chunk)[end + 2..] == s.buf[end + 2..] + chunk
  {
    var end := FindCrlf(s.buf, 0).value;
    assert (s.buf + chunk)[..end + 2] == s.buf[..end + 2];
    FindCrlfStable(s.buf, s.buf + chunk, 0, end + 2);
  }

  lemma RdbHeaderStable(s: Session, chunk: string)
    requires ReadRdbHeader(s).Some?
    ensures ReadRdbHeader(Feed(s, chunk)) == Some(Feed(ReadRdbHeader(s).value, chunk))
  {
    LineStepStable(s, chunk);
    var end := FindCrlf(s.buf, 0).value;
    assert (s.buf + chunk)[0] == s.buf[0];
    if s.buf[0] == '$' {
      assert end >= 1 && (s.buf + chunk)[1..end] == s.buf[1..end];
    }
  }

  lemma CutStable(s: Session, parsed: Option<At<RespValue>>, chunk: string)
    requires parsed.Some? && parsed.value.pos <= |s.buf|
    ensures Cut(Feed(s, chunk), parsed) == Some(Feed(Cut(s, parsed).value, chunk))
  {
    var n := parsed.value.pos;
    assert (s.buf + chunk)[n..] == s.buf[n..] + chunk;
  }

  lemma CommandStable(s: Session, chunk: string)
    requires TakeCommand(s).Some?
    ensures TakeCommand(Feed(s, chunk)) == Some(Feed(TakeCommand(s).value, chunk))
  {
    ParseIgnoresWhatFollows(s.buf, chunk);
    CutStable(s, Parse(s.buf), chunk);
  }

  /** A step that is possible stays possible, with the same outcome, when more bytes arrive. */
  lemma StepStable(s: Session, chunk: string)
    requires StepOnce(s).Some?
    ensures StepOnce(Feed(s, chunk)) == Some(Feed(StepOnce(s).value, chunk))
  {
    match s.phase
    case AwaitReply => LineStepStable(s, chunk);
    case AwaitRdbHeader => RdbHeaderStable(s, chunk);
    case AwaitRdbBody(size) => assert (s.buf + chunk)[size..] == s.buf[size..] + chunk;
    case Streaming => CommandStable(s, chunk);
    case Stopped =>
  }

  lemma {:induction false} AdvanceThenFeed(s: Session, chunk: string)
    ensures Advance(Feed(Advance(s), chunk)) == Advance(Feed(s, chunk))
    decreases Rank(s.phase), |s.buf|
  {
    match StepOnce(s)
    case None =>
    case Some(t) =>
      StepStable(s, chunk);
      AdvanceThenFeed(t, chunk);
  }

  /** On every byte stream, however it is cut into reads, the session ends where one single read leads. */
  lemma {:induction false} ReadBoundariesDoNotMatter(s: Session, chunks: seq<string>)
    ensures Advance(Deliver(s, chunks)) == Advance(Feed(s, Flatten(chunks)))
    decreases |chunks|
  {
    if chunks == [] {
      assert s.buf + "" == s.buf;
    } else {
      var first, rest := chunks[0], Flatten(chunks[1..]);
      ReadBoundariesDoNotMatter(Advance(Feed(s, first)), chunks[1..]);
      AdvanceThenFeed(Feed(s, first), rest);
      assert s.buf + first + rest == s.buf + (first + rest);
    }
  }
}
