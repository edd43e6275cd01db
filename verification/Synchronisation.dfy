/**
 The replica's session against the bytes a master really sends: the PSYNC reply, then serialised
 commands. Wherever the bytes are cut, exactly the sent commands come out, in order.
 */
module Synchronisation {
  import opened Base
  import opened Decimal
  import opened Resp
  import opened ReplicationLink
  import opened Session

  /**
   A link: what the PSYNC reply said, every command propagated since, and then `noise`: nothing, or all that
   was written from the first error reply of the master on.
   */
  datatype Link = Link(replid: string, origin: nat, commands: seq<RespValue>, noise: string) {
    predicate Valid() {
      NoCrlf(replid) && origin <= UINT64_MAX && AllWellFormed(commands) && IsNoise(noise)
    }
  }

  /** An error reply begins with a byte at which no command can begin. */
  predicate IsNoise(noise: string) {
    noise == "" || noise[0] == '-'
  }

  /** What follows the first `n` commands of a link. */
  function Left(link: Link, n: nat): string
    requires n <= |link.commands|
  {
    SerializeAll(link.commands[n..]) + link.noise
  }

  /** What precedes the command stream, as seen from a phase of the handshake. */
  function Preamble(phase: Phase, link: Link): string {
    match phase
    case AwaitReply => PsyncReply(link.replid, link.origin)
    case AwaitRdbHeader => RdbMessage()
    case AwaitRdbBody(_) => Rdb
    case Streaming => ""
    case Stopped => ""
  }

  /** The bytes of the link a session has not consumed yet. */
  function Unread(s: Session, link: Link): string
    requires |s.taken| <= |link.commands|
  {
    Preamble(s.phase, link) + Left(link, |s.taken|)
  }

  /**
   The session is in step with its link: it holds a prefix of the commands, its buffer and the bytes
   still on the wire are exactly what is left, and its offset counts what it consumed.
   */
  predicate InStep(s: Session, wire: string, link: Link) {
    && link.Valid()
    && !s.phase.Stopped?
    && s.taken <= link.commands
    && (!s.phase.Streaming? ==> s.taken == [] && s.acks == [])
    && (s.phase.AwaitRdbBody? ==> s.phase.size == |Rdb|)
    && s.offset == (if s.phase.AwaitReply? then 0 else link.origin + |SerializeAll(s.taken)|)
    && s.buf + wire == Unread(s, link)
  }

  // ---------------------------------------------------------------- the three handshake steps

  lemma NoCrlfConcat(a: string, b: string)
    requires NoCrlf(a) && NoCrlf(b) && (b == "" || b[0] != '\n')
    ensures NoCrlf(a + b)
  {
    forall i | 0 <= i < |a + b| ensures !CrlfAt(a + b, i) {
      if i < |a| {
        assert !CrlfAt(a, i);
      } else {
        assert !CrlfAt(b, i - |a|);
      }
    }
  }

  lemma FullResyncLineHasNoCrlf(replid: string, offset: nat)
    requires NoCrlf(replid)
    ensures NoCrlf(FullResyncLine(replid, offset))
  {
    var fixed := "FULLRESYNC ";
    assert NoCrlf(fixed);
    assert replid != "" && replid[0] == '\n' ==> fixed[|fixed| - 1] != '\r';
    forall i | 0 <= i < |fixed + replid| ensures !CrlfAt(fixed + replid, i) {
      if i < |fixed| {
        assert fixed[i] != '\r';
      } else {
        assert !CrlfAt(replid, i - |fixed|);
      }
    }
    NoCrlfConcat(fixed + replid, " ");
    DigitsHaveNoCrlf(offset);
    NatTextRoundTrip(offset);
    NoCrlfConcat(fixed + replid + " ", IntText(offset));
  }

  lemma {:induction false} AfterLastSpaceOf(a: string, b: string)
    requires forall i :: 0 <= i < |b| ==> b[i] != ' '
    ensures AfterLastSpace(a + " " + b) == Some(|a| + 1)
    decreases |b|
  {
    var s := a + " " + b;
    if b == "" {
      assert s[|s| - 1] == ' ';
    } else {
      assert s[|s| - 1] == b[|b| - 1];
      assert s[..|s| - 1] == a + " " + b[..|b| - 1];
      AfterLastSpaceOf(a, b[..|b| - 1]);
    }
  }

  /** The offset the master put into the FULLRESYNC line is the one the replica reads out of it. */
  lemma ReplyOffsetOf(replid: string, offset: nat)
    requires offset <= UINT64_MAX
    ensures ReplyOffset(FullResyncLine(replid, offset)) == Some(offset)
  {
    var a := "FULLRESYNC " + replid;
    var line := FullResyncLine(replid, offset);
    NatTextRoundTrip(offset);
    AfterLastSpaceOf(a, IntText(offset));
    assert line[|a| + 1..] == IntText(offset) == IntText(offset) + "";
    FromCharsOfIntText(offset, "", 0, UINT64_MAX);
  }

  /** A line read from the front of a buffer is the first line of all that will ever arrive. */
  lemma FirstLine(buf: string, wire: string, line: string, rest: string)
    requires buf + wire == (line + CRLF) + rest && NoCrlf(line)
    requires FindCrlf(buf, 0).Some?
    ensures FindCrlf(buf, 0) == Some(|line|)
    ensures buf[..|line| + 2] == line + CRLF && buf[|line| + 2..] + wire == rest
  {
    var all := buf + wire;
    assert all[..|line| + 2] == line + CRLF;
    ReadLineAt(all, 0, line);
    assert all[..|buf|] == buf;
    FindCrlfStable(buf, all, 0, |buf|);
    assert buf[..|line| + 2] == all[..|line| + 2];
    assert buf[|line| + 2..] + wire == all[|line| + 2..];
  }

  lemma LineParses(line: string)
    requires NoCrlf(line)
    ensures Parse(("+" + line) + CRLF) == Some(At(SimpleString(line), |line| + 3))
  {
    var reply := SimpleString(line);
    assert ("+" + line) + CRLF == Serialize(reply) == Serialize(reply) + "";
    RoundTrip(reply, "");
  }

  /** The reply line is read as soon as it is complete. */
  lemma ReplyRead(s: Session, wire: string, line: string, rest: string, origin: nat)
    requires s.phase.AwaitReply? && StepOnce(s).Some? && s.buf + wire == (("+" + line) + CRLF) + rest
    requires NoCrlf(line) && NoCrlf("+" + line) && ReplyOffset(line) == Some(origin)
    ensures
      var t := StepOnce(s).value;
      t == s.(phase := AwaitRdbHeader, offset := origin, buf := t.buf) && t.buf + wire == rest
  {
    FirstLine(s.buf, wire, "+" + line, rest);
    LineParses(line);
  }

  lemma ReplyFirst(s: Session, link: Link)
    requires s.phase.AwaitReply? && s.taken == []
    ensures Unread(s, link) ==
            (("+" + FullResyncLine(link.replid, link.origin)) + CRLF) + (RdbMessage() + Left(link, 0))
  {}

  lemma ReplyStep(s: Session, wire: string, link: Link)
    requires InStep(s, wire, link) && s.phase.AwaitReply? && StepOnce(s).Some?
    ensures InStep(StepOnce(s).value, wire, link)
  {
    var line := FullResyncLine(link.replid, link.origin);
    ReplyFirst(s, link);
    FullResyncLineHasNoCrlf(link.replid, link.origin);
    NoCrlfConcat("+", line);
    ReplyOffsetOf(link.replid, link.origin);
    ReplyRead(s, wire, line, RdbMessage() + Left(link, 0), link.origin);
  }

  /** A line that begins with `$` is read as soon as it is complete. */
  lemma HeaderLine(buf: string, wire: string, digits: string, rest: string)
    requires buf + wire == (("$" + digits) + CRLF) + rest && NoCrlf("$" + digits) && FindCrlf(buf, 0).Some?
    ensures
      var end := FindCrlf(buf, 0).value;
      end == |digits| + 1 && buf[0] == '$' && buf[1..end] == digits && buf[end + 2..] + wire == rest
  {
    var header := "$" + digits;
    FirstLine(buf, wire, header, rest);
    assert buf[..|header|] == buf[..|header| + 2][..|header|] == header;
    assert buf[1..|header|] == buf[..|header|][1..];
  }

  lemma RdbDigits()
    ensures NoCrlf("$" + IntText(|Rdb|))
    ensures FromChars(IntText(|Rdb|), 0, UINT64_MAX) == Some(Scanned(|Rdb|, |IntText(|Rdb|)|))
  {
    var n := IntText(|Rdb|);
    DigitsHaveNoCrlf(|Rdb|);
    NatTextRoundTrip(|Rdb|);
    NoCrlfConcat("$", n);
    assert n == n + "";
    FromCharsOfIntText(|Rdb|, "", 0, UINT64_MAX);
  }

  lemma RdbHeaderStep(s: Session, wire: string, link: Link)
    requires InStep(s, wire, link) && s.phase.AwaitRdbHeader? && StepOnce(s).Some?
    ensures InStep(StepOnce(s).value, wire, link)
  {
    var digits, rest := IntText(|Rdb|), Rdb + Left(link, 0);
    assert Unread(s, link) == (("$" + digits) + CRLF) + rest;
    RdbDigits();
    HeaderLine(s.buf, wire, digits, rest);
  }

  lemma RdbBodyStep(s: Session, wire: string, link: Link)
    requires InStep(s, wire, link) && s.phase.AwaitRdbBody? && StepOnce(s).Some?
    ensures InStep(StepOnce(s).value, wire, link)
  {
    assert s.buf[|Rdb|..] + wire == (s.buf + wire)[|Rdb|..] == Left(link, 0);
  }

  // ---------------------------------------------------------------- the command stream

  lemma DropFront(buf: string, wire: string, first: string, rest: string)
    requires buf + wire == first + rest && |first| <= |buf|
    ensures buf[..|first|] == first && buf[|first|..] + wire == rest
  {
    assert buf[..|first|] == (buf + wire)[..|first|];
    assert buf[|first|..] + wire == (buf + wire)[|first|..];
  }

  lemma NoiseDoesNotParse(noise: string)
    requires IsNoise(noise)
    ensures Parse(noise) == None
  {}

  /** The next command cut from the stream is the next command sent. */
  lemma NextCommand(buf: string, wire: string, commands: seq<RespValue>, noise: string)
    requires AllWellFormed(commands) && IsNoise(noise) && buf + wire == SerializeAll(commands) + noise
    requires Parse(buf).Some?
    ensures commands != []
    ensures Parse(buf) == Some(At(commands[0], |Serialize(commands[0])|))
    ensures buf[|Serialize(commands[0])|..] + wire == SerializeAll(commands[1..]) + noise
  {
    ParseIgnoresWhatFollows(buf, wire);
    if commands == [] {
      assert buf + wire == noise;
      NoiseDoesNotParse(noise);
    } else {
      var first, rest := Serialize(commands[0]), SerializeAll(commands[1..]) + noise;
      Assoc(first, SerializeAll(commands[1..]), noise);
      RoundTrip(commands[0], rest);
      DropFront(buf, wire, first, rest);
    }
  }

  /** A session whose buffer yields no command holds only part of the next one. */
  lemma NoCommandYet(buf: string, wire: string, commands: seq<RespValue>, noise: string)
    requires AllWellFormed(commands) && buf + wire == SerializeAll(commands) + noise
    requires Parse(buf).None?
    ensures commands == [] || |buf| < |Serialize(commands[0])|
  {
    if commands != [] && |buf| >= |Serialize(commands[0])| {
      var first, rest := Serialize(commands[0]), SerializeAll(commands[1..]) + noise;
      Assoc(first, SerializeAll(commands[1..]), noise);
      DropFront(buf, wire, first, rest);
      assert buf == first + buf[|first|..];
      RoundTrip(commands[0], buf[|first|..]);
    }
  }

  lemma PrefixGrows<T>(all: seq<T>, taken: seq<T>)
    requires taken <= all && |taken| < |all|
    ensures taken + [all[|taken|]] <= all
    ensures all[|taken|..][1..] == all[|taken| + 1..]
  {}

  /** A streaming session that moves takes the next command. */
  lemma CommandTaken(s: Session, wire: string, commands: seq<RespValue>, noise: string)
    requires s.phase.Streaming? && StepOnce(s).Some?
    requires AllWellFormed(commands) && IsNoise(noise) && s.buf + wire == SerializeAll(commands) + noise
    ensures commands != [] && |Serialize(commands[0])| <= |s.buf|
    ensures StepOnce(s) == Some(Took(s, commands[0], |Serialize(commands[0])|, IsGetAck(commands[0])))
    ensures s.buf[|Serialize(commands[0])|..] + wire == SerializeAll(commands[1..]) + noise
  {
    NextCommand(s.buf, wire, commands, noise);
  }

  lemma TookKeepsInStep(s: Session, wire: string, link: Link, answered: bool)
    requires InStep(s, wire, link) && s.phase.Streaming? && |s.taken| < |link.commands|
    requires |Serialize(link.commands[|s.taken|])| <= |s.buf|
    requires s.buf[|Serialize(link.commands[|s.taken|])|..] + wire == Left(link, |s.taken| + 1)
    ensures InStep(Took(s, link.commands[|s.taken|], |Serialize(link.commands[|s.taken|])|, answered), wire, link)
  {
    assert "" + Left(link, |s.taken| + 1) == Left(link, |s.taken| + 1);
    PrefixGrows(link.commands, s.taken);
    SerializeAllSnoc(s.taken, link.commands[|s.taken|]);
  }

  lemma NextTaken(s: Session, wire: string, link: Link)
    requires InStep(s, wire, link) && s.phase.Streaming? && StepOnce(s).Some?
    ensures |s.taken| < |link.commands| && |Serialize(link.commands[|s.taken|])| <= |s.buf|
    ensures s.buf[|Serialize(link.commands[|s.taken|])|..] + wire == Left(link, |s.taken| + 1)
    ensures
      var command := link.commands[|s.taken|];
      StepOnce(s) == Some(Took(s, command, |Serialize(command)|, IsGetAck(command)))
  {
    assert "" + Left(link, |s.taken|) == Left(link, |s.taken|);
    CommandTaken(s, wire, link.commands[|s.taken|..], link.noise);
    PrefixGrows(link.commands, s.taken);
  }

  lemma CommandStep(s: Session, wire: string, link: Link)
    requires InStep(s, wire, link) && s.phase.Streaming? && StepOnce(s).Some?
    ensures InStep(StepOnce(s).value, wire, link)
    ensures |s.taken| < |link.commands|
    ensures StepOnce(s).value.taken == s.taken + [link.commands[|s.taken|]]
    ensures StepOnce(s).value.acks ==
        s.acks + (if IsGetAck(link.commands[|s.taken|]) then [StepOnce(s).value.offset] else [])
  {
    NextTaken(s, wire, link);
    TookKeepsInStep(s, wire, link, IsGetAck(link.commands[|s.taken|]));
  }

  /** Every step of the session keeps it in step with its link. */
  lemma StepKeepsInStep(s: Session, wire: string, link: Link)
    requires InStep(s, wire, link) && StepOnce(s).Some?
    ensures InStep(StepOnce(s).value, wire, link)
  {
    match s.phase
    case AwaitReply => ReplyStep(s, wire, link);
    case AwaitRdbHeader => RdbHeaderStep(s, wire, link);
    case AwaitRdbBody(_) => RdbBodyStep(s, wire, link);
    case Streaming => CommandStep(s, wire, link);
  }

  lemma {:induction false} AdvanceKeepsInStep(s: Session, wire: string, link: Link)
    requires InStep(s, wire, link)
    ensures InStep(Advance(s), wire, link)
    ensures StepOnce(Advance(s)) == None
    decreases Rank(s.phase), |s.buf|
  {
    match StepOnce(s)
    case None =>
    case Some(t) =>
      StepKeepsInStep(s, wire, link);
      AdvanceKeepsInStep(t, wire, link);
  }

  /** Reading the next bytes off the wire keeps the session in step. */
  lemma ReadKeepsInStep(s: Session, chunk: string, wire: string, link: Link)
    requires InStep(s, chunk + wire, link)
    ensures InStep(Advance(Feed(s, chunk)), wire, link)
    ensures StepOnce(Advance(Feed(s, chunk))) == None
  {
    assert s.buf + chunk + wire == s.buf + (chunk + wire);
    AdvanceKeepsInStep(Feed(s, chunk), wire, link);
  }

  /** Propagating one more command keeps the session in step with the longer link. */
  lemma PropagateKeepsInStep(s: Session, wire: string, link: Link, command: RespValue)
    requires InStep(s, wire, link) && WellFormed(command) && link.noise == ""
    ensures InStep(s, wire + Serialize(command), link.(commands := link.commands + [command]))
  {
    var longer := link.(commands := link.commands + [command]);
    var left := link.commands[|s.taken|..];
    assert longer.commands[|s.taken|..] == left + [command];
    SerializeAllSnoc(left, command);
    assert Left(link, |s.taken|) == SerializeAll(left);
    Assoc(Preamble(s.phase, link), SerializeAll(left), Serialize(command));
    Assoc(s.buf, wire, Serialize(command));
    assert forall i :: 0 <= i < |link.commands| ==> longer.commands[i] == link.commands[i];
  }

  /** Once the link is noisy, everything written to it is noise; the first of it is an error reply. */
  lemma NoiseKeepsInStep(s: Session, wire: string, link: Link, bytes: string)
    requires InStep(s, wire, link) && IsNoise(link.noise + bytes)
    ensures InStep(s, wire + bytes, link.(noise := link.noise + bytes))
  {
    Assoc(SerializeAll(link.commands[|s.taken|..]), link.noise, bytes);
    Assoc(Preamble(s.phase, link), Left(link, |s.taken|), bytes);
    Assoc(s.buf, wire, bytes);
  }

  // ---------------------------------------------------------------- whole links

  lemma {:induction false} DeliverKeepsInStep(s: Session, chunks: seq<string>, wire: string, link: Link)
    requires InStep(s, Flatten(chunks) + wire, link) && StepOnce(s) == None
    ensures InStep(Deliver(s, chunks), wire, link) && StepOnce(Deliver(s, chunks)) == None
    decreases |chunks|
  {
    if chunks == [] {
      assert Flatten(chunks) + wire == wire;
    } else {
      var rest := Flatten(chunks[1..]) + wire;
      assert Flatten(chunks) + wire == chunks[0] + rest;
      ReadKeepsInStep(s, chunks[0], rest, link);
      DeliverKeepsInStep(Advance(Feed(s, chunks[0])), chunks[1..], wire, link);
    }
  }

  lemma FreshInStep(wire: string, link: Link)
    requires link.Valid() && wire == PsyncReply(link.replid, link.origin) + Left(link, 0)
    ensures InStep(Fresh, wire, link) && StepOnce(Fresh) == None
  {
    assert "" + wire == wire;
  }

  lemma LineArrived(buf: string, line: string, rest: string)
    requires buf == (line + CRLF) + rest && NoCrlf(line)
    ensures FindCrlf(buf, 0) == Some(|line|)
  {
    assert buf[..|line| + 2] == line + CRLF;
    ReadLineAt(buf, 0, line);
  }

  lemma ReplyArrived(s: Session, link: Link)
    requires InStep(s, "", link) && s.phase.AwaitReply?
    ensures StepOnce(s).Some?
  {
    assert s.buf + "" == s.buf;
    var stream := Left(link, |s.taken|);
    var line := "+" + FullResyncLine(link.replid, link.origin);
    FullResyncLineHasNoCrlf(link.replid, link.origin);
    NoCrlfConcat("+", FullResyncLine(link.replid, link.origin));
    assert s.buf == (line + CRLF) + (RdbMessage() + stream);
    LineArrived(s.buf, line, RdbMessage() + stream);
  }

  lemma RdbHeaderArrived(s: Session, link: Link)
    requires InStep(s, "", link) && s.phase.AwaitRdbHeader?
    ensures StepOnce(s).Some?
  {
    assert s.buf + "" == s.buf;
    var stream := Left(link, |s.taken|);
    var line := "$" + IntText(|Rdb|);
    DigitsHaveNoCrlf(|Rdb|);
    NatTextRoundTrip(|Rdb|);
    NoCrlfConcat("$", IntText(|Rdb|));
    assert s.buf == (line + CRLF) + (Rdb + stream);
    LineArrived(s.buf, line, Rdb + stream);
  }

  /** When everything sent has arrived, a session that cannot move has consumed every command before the noise. */
  lemma NothingLeft(s: Session, link: Link)
    requires InStep(s, "", link) && StepOnce(s) == None
    ensures s.phase.Streaming? && s.buf == link.noise && s.taken == link.commands
  {
    match s.phase
    case AwaitReply => ReplyArrived(s, link);
    case AwaitRdbHeader => RdbHeaderArrived(s, link);
    case AwaitRdbBody(_) =>
    case Streaming =>
      assert s.buf + "" == s.buf;
      NoCommandYet(s.buf, "", link.commands[|s.taken|..], link.noise);
  }

  /** The offsets acknowledged at once: one for each GETACK, counting its own bytes. */
  function Answers(origin: nat, taken: seq<RespValue>): seq<nat> {
    if taken == [] then []
    else
      Answers(origin, taken[..|taken| - 1]) +
      (if IsGetAck(taken[|taken| - 1]) then [origin + |SerializeAll(taken)|] else [])
  }

  predicate Answered(s: Session, origin: nat) {
    s.acks == Answers(origin, s.taken)
  }

  lemma TookAnswers(s: Session, origin: nat, command: RespValue, size: nat)
    requires Answered(s, origin) && size <= |s.buf| && s.offset + size == origin + |SerializeAll(s.taken + [command])|
    ensures Answered(Took(s, command, size, IsGetAck(command)), origin)
  {
    assert (s.taken + [command])[..|s.taken|] == s.taken;
  }

  lemma StepAnswers(s: Session, wire: string, link: Link)
    requires InStep(s, wire, link) && Answered(s, link.origin) && StepOnce(s).Some?
    ensures Answered(StepOnce(s).value, link.origin)
  {
    if s.phase.Streaming? {
      NextTaken(s, wire, link);
      var command := link.commands[|s.taken|];
      SerializeAllSnoc(s.taken, command);
      TookAnswers(s, link.origin, command, |Serialize(command)|);
    } else {
      StepKeepsInStep(s, wire, link);
    }
  }

  lemma {:induction false} AdvanceAnswers(s: Session, wire: string, link: Link)
    requires InStep(s, wire, link) && Answered(s, link.origin)
    ensures Answered(Advance(s), link.origin)
    decreases Rank(s.phase), |s.buf|
  {
    match StepOnce(s)
    case None =>
    case Some(t) =>
      StepKeepsInStep(s, wire, link);
      StepAnswers(s, wire, link);
      AdvanceAnswers(t, wire, link);
  }

  lemma ReadKeepsAnswers(s: Session, chunk: string, wire: string, link: Link)
    requires InStep(s, chunk + wire, link) && Answered(s, link.origin)
    ensures Answered(Advance(Feed(s, chunk)), link.origin)
  {
    assert s.buf + chunk + wire == s.buf + (chunk + wire);
    AdvanceAnswers(Feed(s, chunk), wire, link);
  }

  lemma {:induction false} DeliverAnswers(s: Session, chunks: seq<string>, wire: string, link: Link)
    requires InStep(s, Flatten(chunks) + wire, link) && Answered(s, link.origin)
    ensures Answered(Deliver(s, chunks), link.origin)
    decreases |chunks|
  {
    if chunks != [] {
      var rest := Flatten(chunks[1..]) + wire;
      assert Flatten(chunks) + wire == chunks[0] + rest;
      ReadKeepsInStep(s, chunks[0], rest, link);
      ReadKeepsAnswers(s, chunks[0], rest, link);
      DeliverAnswers(Advance(Feed(s, chunks[0])), chunks[1..], wire, link);
    }
  }

  /**
   Read-boundary independence of a whole link: however the PSYNC reply and the commands after it are
   cut into reads, the replica drops the handshake and the RDB file, starts counting at the offset the
   master named, takes exactly the commands sent, in order, and answers exactly the GETACKs. After an error
   reply of the master it takes nothing more.
   */
  lemma LinkIsReadExactly(link: Link, chunks: seq<string>)
    requires link.Valid()
    requires Flatten(chunks) == PsyncReply(link.replid, link.origin) + (SerializeAll(link.commands) + link.noise)
    ensures Deliver(Fresh, chunks) ==
            Session(Streaming, link.noise, link.origin + |SerializeAll(link.commands)|, link.commands,
                    Answers(link.origin, link.commands))
  {
    assert link.commands[0..] == link.commands;
    FreshInStep(Flatten(chunks), link);
    assert Flatten(chunks) + "" == Flatten(chunks);
    DeliverKeepsInStep(Fresh, chunks, "", link);
    DeliverAnswers(Fresh, chunks, "", link);
    NothingLeft(Deliver(Fresh, chunks), link);
  }

  // ---------------------------------------------------------------- acknowledgements, with the timer

  /** Offsets are acknowledged in increasing order and never ahead of what was consumed. */
  predicate AcksInOrder(s: Session) {
    && (forall i, j :: 0 <= i < j < |s.acks| ==> s.acks[i] <= s.acks[j])
    && (forall i :: 0 <= i < |s.acks| ==> s.acks[i] <= s.offset)
  }

  /** The offset after the first `n` commands of a link. */
  function OffsetAfter(origin: nat, commands: seq<RespValue>, n: nat): nat
    requires n <= |commands|
  {
    origin + |SerializeAll(commands[..n])|
  }

  /** Each GETACK consumed was answered with an offset that includes its own bytes. */
  predicate GetAcksAnswered(s: Session, origin: nat) {
    forall i :: 0 <= i < |s.taken| && IsGetAck(s.taken[i]) ==> OffsetAfter(origin, s.taken, i + 1) in s.acks
  }

  predicate Grown(s: Session, t: Session) {
    s.taken <= t.taken && s.acks <= t.acks && s.offset <= t.offset
  }

  lemma AckKeepsOrder(s: Session, t: Session)
    requires AcksInOrder(s) && s.offset <= t.offset
    requires t.acks == s.acks || t.acks == s.acks + [t.offset]
    ensures AcksInOrder(t)
  {}

  lemma AnswerKeepsAnswered(s: Session, t: Session, origin: nat)
    requires GetAcksAnswered(s, origin)
    requires |t.taken| == |s.taken| + 1 && s.taken <= t.taken && s.acks <= t.acks
    requires IsGetAck(t.taken[|s.taken|]) ==> OffsetAfter(origin, t.taken, |t.taken|) in t.acks
    ensures GetAcksAnswered(t, origin)
  {
    forall i | 0 <= i < |t.taken| && IsGetAck(t.taken[i]) ensures OffsetAfter(origin, t.taken, i + 1) in t.acks {
      if i < |s.taken| {
        assert t.taken[i] == s.taken[i] && t.taken[..i + 1] == s.taken[..i + 1];
        assert OffsetAfter(origin, s.taken, i + 1) in s.acks;
      }
    }
  }

  lemma StepGrows(s: Session, wire: string, link: Link)
    requires InStep(s, wire, link) && StepOnce(s).Some?
    ensures Grown(s, StepOnce(s).value)
    ensures s.phase.Streaming? ==>
              var t := StepOnce(s).value;
              && |t.taken| == |s.taken| + 1 && t.offset == OffsetAfter(link.origin, t.taken, |t.taken|)
              && t.acks == s.acks + (if IsGetAck(t.taken[|s.taken|]) then [t.offset] else [])
  {
    StepKeepsInStep(s, wire, link);
    if s.phase.Streaming? {
      CommandStep(s, wire, link);
      var taken := StepOnce(s).value.taken;
      assert taken[..|taken|] == taken;
    }
  }

  lemma StepAcks(s: Session, wire: string, link: Link)
    requires InStep(s, wire, link) && StepOnce(s).Some?
    requires AcksInOrder(s) && GetAcksAnswered(s, link.origin)
    ensures AcksInOrder(StepOnce(s).value) && GetAcksAnswered(StepOnce(s).value, link.origin)
  {
    StepGrows(s, wire, link);
    var t := StepOnce(s).value;
    if s.phase.Streaming? {
      AckKeepsOrder(s, t);
      AnswerKeepsAnswered(s, t, link.origin);
    } else {
      StepKeepsInStep(s, wire, link);
    }
  }

  lemma {:induction false} AdvanceAcks(s: Session, wire: string, link: Link)
    requires InStep(s, wire, link) && AcksInOrder(s) && GetAcksAnswered(s, link.origin)
    ensures AcksInOrder(Advance(s)) && GetAcksAnswered(Advance(s), link.origin)
    decreases Rank(s.phase), |s.buf|
  {
    match StepOnce(s)
    case None =>
    case Some(t) =>
      StepKeepsInStep(s, wire, link);
      StepAcks(s, wire, link);
      AdvanceAcks(t, wire, link);
  }

  lemma {:induction false} AdvanceGrows(s: Session, wire: string, link: Link)
    requires InStep(s, wire, link)
    ensures Grown(s, Advance(s))
    decreases Rank(s.phase), |s.buf|
  {
    match StepOnce(s)
    case None =>
    case Some(t) =>
      StepKeepsInStep(s, wire, link);
      StepGrows(s, wire, link);
      AdvanceGrows(t, wire, link);
  }

  lemma ReadKeepsAckOrder(s: Session, chunk: string, wire: string, link: Link)
    requires InStep(s, chunk + wire, link) && AcksInOrder(s) && GetAcksAnswered(s, link.origin)
    ensures
      var t := Advance(Feed(s, chunk));
      AcksInOrder(t) && GetAcksAnswered(t, link.origin) && Grown(s, t)
  {
    Assoc(s.buf, chunk, wire);
    AdvanceAcks(Feed(s, chunk), wire, link);
    AdvanceGrows(Feed(s, chunk), wire, link);
  }

  // ---------------------------------------------------------------- registering before the snapshot

  predicate AreRequests(commands: seq<RespValue>) {
    forall i :: 0 <= i < |commands| ==> commands[i].Array? && commands[i].elements != []
  }

  /** The header line of an array with elements is not a complete value. */
  lemma HeaderAloneDoesNotParse(n: nat)
    requires 0 < n <= 0x7fff_ffff
    ensures Parse("*" + IntText(n) + CRLF) == None
  {
    var s := "*" + IntText(n) + CRLF;
    assert HasAt(s, 1, IntText(n) + CRLF);
    ReadNumberAt(s, 1, n);
    assert ParseCount(s, 1) == Some(At(n, |s|));
    assert ParseElements(s, |s|, n) == None;
  }

  lemma CommandFirstStops(command: RespValue, after: string)
    requires WellFormed(command) && command.Array? && command.elements != []
    ensures Advance(Feed(Fresh, Serialize(command) + after)).phase.Stopped?
  {
    var n := |command.elements|;
    var line := "*" + IntText(n);
    var rest := SerializeAll(command.elements) + after;
    var s := Feed(Fresh, Serialize(command) + after);
    DigitsHaveNoCrlf(n);
    NatTextRoundTrip(n);
    NoCrlfConcat("*", IntText(n));
    assert s.buf == (line + CRLF) + rest;
    LineArrived(s.buf, line, rest);
    assert s.buf[..|line| + 2] == line + CRLF;
    HeaderAloneDoesNotParse(n);
  }

  lemma QuietLinkComesUp(link: Link)
    requires link.Valid()
    ensures Advance(Feed(Fresh, PsyncReply(link.replid, link.origin) + Left(link, 0))).phase.Streaming?
  {
    var sent := PsyncReply(link.replid, link.origin) + Left(link, 0);
    FreshInStep(sent, link);
    assert sent + "" == sent;
    ReadKeepsInStep(Fresh, sent, "", link);
    NothingLeft(Advance(Feed(Fresh, sent)), link);
  }

  lemma EarlyCommandStops(early: seq<RespValue>, reply: string)
    requires AllWellFormed(early) && AreRequests(early) && early != []
    ensures Advance(Feed(Fresh, SerializeAll(early) + reply)).phase.Stopped?
  {
    var after := SerializeAll(early[1..]) + reply;
    assert SerializeAll(early) + reply == Serialize(early[0]) + after;
    CommandFirstStops(early[0], after);
  }

  /** All that reaches a replica when `early` is propagated after its registration, before its snapshot. */
  function Sent(early: seq<RespValue>, link: Link): string {
    SerializeAll(early) + (PsyncReply(link.replid, link.origin) + Left(link, 0))
  }

  /**
   The replica is registered before its PSYNC reply is built. The link comes up exactly when no
   command is propagated in between: a single one stops the session for good.
   */
  lemma LinkComesUpIffNoCommandSlipsIn(early: seq<RespValue>, link: Link)
    requires link.Valid() && AllWellFormed(early) && AreRequests(early)
    ensures Advance(Feed(Fresh, Sent(early, link))).phase.Streaming? <==> early == []
  {
    var reply := PsyncReply(link.replid, link.origin) + Left(link, 0);
    if early == [] {
      assert Sent(early, link) == reply;
      QuietLinkComesUp(link);
    } else {
      EarlyCommandStops(early, reply);
    }
  }
}
