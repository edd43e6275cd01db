/** The session as the replica runs it: completion handlers that consume a buffer in place. */
module ReplicationSession {
  import opened Base
  import opened Decimal
  import opened Resp
  import RespParser
  import opened Session

  lemma CutsCommand(s: Session, command: RespValue, consumed: nat)
    requires s.phase.Streaming? && Parse(s.buf) == Some(At(command, consumed))
    ensures consumed <= |s.buf| && StepOnce(s) == Some(Took(s, command, consumed, IsGetAck(command)))
    ensures Posted(s.taken + [command]) == if IsGetAck(command) then Posted(s.taken) else Posted(s.taken) + [command]
  {
    assert (s.taken + [command])[..|s.taken|] == s.taken;
  }

  class ReplicationSession {
    var phase: Phase
    var buf: string
    var replicaOffset: nat
    var posted: seq<RespValue> // commands handed to the store thread
    var acks: seq<nat>         // offsets sent to the master
    ghost var taken: seq<RespValue>

    ghost predicate Valid()
      reads this
    {
      posted == Posted(taken)
    }

    ghost function State(): Session
      reads this
    {
      Session(phase, buf, replicaOffset, taken, acks)
    }

    constructor ()
      ensures Valid() && State() == Fresh
    {
      phase, buf, replicaOffset, posted, acks := AwaitReply, "", 0, [], [];
      taken := [];
    }

    /** The handler of the PSYNC reply: reads one line and seeds the offset from it. */
    method ReadPsyncReply() returns (progress: bool)
      requires Valid() && phase.AwaitReply?
      modifies this
      ensures Valid()
      ensures if progress then StepOnce(old(State())) == Some(State())
              else StepOnce(old(State())) == None && State() == old(State())
    {
      var end := FindCrlf(buf, 0);
      if end.None? { return false; }
      var response := buf[..end.value + 2];
      buf := buf[end.value + 2..];
      var reply, _ := RespParser.ParseIterative(response);
      if reply.None? {
        phase := Stopped;
        return true;
      }
      if reply.value.SimpleString? {
        var offset := ReplyOffset(reply.value.str);
        if offset.Some? { replicaOffset := offset.value; }
      }
      phase := AwaitRdbHeader;
      return true;
    }

    method ReceiveRdb() returns (progress: bool)
      requires Valid() && phase.AwaitRdbHeader?
      modifies this
      ensures Valid()
      ensures if progress then StepOnce(old(State())) == Some(State())
              else StepOnce(old(State())) == None && State() == old(State())
    {
      var end := FindCrlf(buf, 0);
      if end.None? { return false; }
      var line := buf[..end.value + 2];
      assert line[0] == buf[0];
      assert line[0] == '$' ==> end.value >= 1 && line[1..|line| - 2] == buf[1..end.value];
      buf := buf[end.value + 2..];
      if line[0] != '$' {
        phase := Stopped;
        return true;
      }
      var size := FromChars(line[1..|line| - 2], 0, UINT64_MAX);
      if size.None? {
        phase := Stopped;
        return true;
      }
      phase := AwaitRdbBody(size.value.value);
      return true;
    }

    method ReceiveRdbBody() returns (progress: bool)
      requires Valid() && phase.AwaitRdbBody?
      modifies this
      ensures Valid()
      ensures if progress then StepOnce(old(State())) == Some(State())
              else StepOnce(old(State())) == None && State() == old(State())
    {
      var size := phase.size;
      if |buf| < size { return false; }
      buf := buf[size..];
      phase := Streaming;
      return true;
    }

    /** Cuts one command off the buffer; a GETACK is answered, anything else goes to the store thread. */
    method TryProcessOneBufferedCommand() returns (progress: bool)
      requires Valid() && phase.Streaming?
      modifies this
      ensures Valid()
      ensures if progress then StepOnce(old(State())) == Some(State())
              else StepOnce(old(State())) == None && State() == old(State())
    {
      if |buf| == 0 { return false; }
      var command, consumed := RespParser.ParseIterative(buf);
      if command.None? { return false; }
      CutsCommand(State(), command.value, consumed);
      CutOff(command.value, consumed, IsGetAck(command.value));
      return true;
    }

    method CutOff(command: RespValue, consumed: nat, answer: bool)
      requires consumed <= |buf|
      modifies this
      ensures State() == Took(old(State()), command, consumed, answer)
      ensures posted == if answer then old(posted) else old(posted) + [command]
    {
      buf := buf[consumed..];
      replicaOffset := replicaOffset + consumed;
      taken := taken + [command];
      if answer {
        SendAck();
      } else {
        assert acks + [] == acks;
        posted := posted + [command];
      }
    }

    method SendAck()
      modifies this`acks
      ensures acks == old(acks) + [replicaOffset]
    {
      acks := acks + [replicaOffset];
    }

    /** `receive_commands`: drains every complete command from the buffer. */
    method ReceiveCommands()
      requires Valid() && phase.Streaming?
      modifies this
      ensures Valid() && phase.Streaming?
      ensures State() == Advance(old(State()))
    {
      var more := true;
      while more
        invariant Valid() && phase.Streaming?
        invariant Advance(State()) == Advance(old(State()))
        invariant !more ==> StepOnce(State()) == None
        decreases |buf|, more
      {
        more := TryProcessOneBufferedCommand();
      }
    }

    /** The handler that waits in the current phase of the handshake. */
    method HandshakeStep() returns (progress: bool)
      requires Valid() && !phase.Streaming?
      modifies this
      ensures Valid()
      ensures if progress then StepOnce(old(State())) == Some(State())
              else StepOnce(old(State())) == None && State() == old(State())
    {
      match phase
      case AwaitReply => progress := ReadPsyncReply();
      case AwaitRdbHeader => progress := ReceiveRdb();
      case AwaitRdbBody(_) => progress := ReceiveRdbBody();
      case Stopped => progress := false;
    }

    /** A read completes: the bytes join the buffer and every handler they allow runs. */
    method OnRead(chunk: string)
      requires Valid()
      modifies this
      ensures Valid()
      ensures State() == Advance(Feed(old(State()), chunk))
    {
      buf := buf + chunk;
      var more := true;
      while more && !phase.Streaming?
        invariant Valid()
        invariant Advance(State()) == Advance(Feed(old(State()), chunk))
        invariant !more ==> StepOnce(State()) == None
        decreases Rank(phase), |buf|, more
      {
        more := HandshakeStep();
      }
      if phase.Streaming? { ReceiveCommands(); }
    }
  }
}
