/**
 State machines driven by a log of propagated commands. What a server does with a command is a
 parameter here; RedisMachine below gives the server's own write commands.
 */
module Replay {
  import opened Resp
  import opened ReplicationLink
  import opened Session
  import opened AckStream
  import Text

  /**
   `run` executes a command on a state under a clock and `admits` says which writes are propagated. `ack` is
   the message a replica sends for an offset, and `takeIn` what the master makes of bytes read from a replica.
   */
  datatype Machine<!S> = Machine(
    run: (S, RespValue, nat) -> S, admits: RespValue -> bool, ack: nat -> string, takeIn: string -> Intake)

  /** The effect of an admitted command depends on nothing but the state and the command. */
  ghost predicate Deterministic<S(!new)>(m: Machine<S>) {
    && (forall s, v, now :: m.admits(v) ==> m.run(s, v, now) == m.run(s, v, 0))
    && (forall v :: m.admits(v) ==> WellFormed(v) && !IsGetAck(v))
  }

  /** However the ACK messages are cut into reads, a read records the message it begins with or is refused. */
  ghost predicate ReadsAcks<S>(m: Machine<S>) {
    NonEmpty(m.ack) && forall offsets, pos, n :: ReadOk(m.ack, m.takeIn, offsets, pos, n)
  }

  /** What a logged command does to a state; a GETACK is not executed. */
  function Apply<S>(m: Machine<S>, s: S, v: RespValue): S {
    if IsGetAck(v) then s else m.run(s, v, 0)
  }

  function Replayed<S>(m: Machine<S>, s: S, log: seq<RespValue>): S {
    if log == [] then s else Apply(m, Replayed(m, s, log[..|log| - 1]), log[|log| - 1])
  }

  lemma GetAckIsGetAck()
    ensures IsGetAck(GetAck) && WellFormed(GetAck)
  {
    assert Text.Lowercase("REPLCONF") == "replconf";
    assert Text.Lowercase("GETACK") == "getack";
  }

  lemma ReplayedSnoc<S>(m: Machine<S>, s: S, log: seq<RespValue>, v: RespValue)
    ensures Replayed(m, s, log + [v]) == Apply(m, Replayed(m, s, log), v)
  {
    assert (log + [v])[..|log|] == log;
  }

  lemma {:induction false} ReplayedConcat<S>(m: Machine<S>, s: S, a: seq<RespValue>, b: seq<RespValue>)
    ensures Replayed(m, s, a + b) == Replayed(m, Replayed(m, s, a), b)
  {
    if b == [] {
      assert a + b == a;
    } else {
      assert (a + b)[..|a + b| - 1] == a + b[..|b| - 1];
      ReplayedConcat(m, s, a, b[..|b| - 1]);
    }
  }

  /** Leaving the GETACKs out of a log changes nothing: they are never executed. */
  lemma {:induction false} ReplayedPosted<S>(m: Machine<S>, s: S, taken: seq<RespValue>)
    ensures Replayed(m, s, Posted(taken)) == Replayed(m, s, taken)
  {
    if taken != [] {
      var before, last := taken[..|taken| - 1], taken[|taken| - 1];
      ReplayedPosted(m, s, before);
      if IsGetAck(last) {
        assert Posted(before) + [] == Posted(before);
      } else {
        ReplayedSnoc(m, s, Posted(before), last);
      }
    }
  }

  lemma {:induction false} PostedGrows(taken: seq<RespValue>, more: seq<RespValue>)
    requires taken <= more
    ensures Posted(taken) <= Posted(more)
    decreases |more|
  {
    if taken != more {
      assert taken <= more[..|more| - 1];
      PostedGrows(taken, more[..|more| - 1]);
    }
  }

  lemma {:induction false} PostedAreTaken(taken: seq<RespValue>)
    ensures forall i :: 0 <= i < |Posted(taken)| ==> Posted(taken)[i] in taken && !IsGetAck(Posted(taken)[i])
  {
    if taken != [] {
      PostedAreTaken(taken[..|taken| - 1]);
    }
  }
}

/** The server's write commands as a state machine. */
module RedisMachine {
  import opened StreamIds
  import opened Resp
  import opened StoreData
  import opened Commands
  import opened Session
  import opened Replay
  import opened ReplicationLink
  import opened AckStream
  import C = Connection
  import Ops = StoreOps

  /** Writes whose effect is fixed by their arguments: no expiry, no BLPOP, no XADD with `*`. */
  predicate Replicable(v: RespValue) {
    && WellFormed(v) && IsRequest(v)
    && var cmd := ParseCommand(v);
    && Modelled(cmd)
    && (cmd.kind == XAdd && |cmd.args| >= 2 ==> cmd.args[1] != "*")
  }

  function RunRequest(data: Data, v: RespValue, now: nat): Data {
    if IsRequest(v) && Modelled(ParseCommand(v)) then Execute(data, ParseCommand(v), now).data else data
  }

  const Redis: Machine<Data> := Machine(RunRequest, Replicable, AckMessage, C.TakeIn)

  lemma XAddIgnoresClock(data: Data, key: string, pattern: string, fields: seq<(string, string)>, now: nat)
    requires pattern != "*"
    ensures Ops.XAdd(data, key, pattern, fields, now) == Ops.XAdd(data, key, pattern, fields, 0)
  {
    assert ParseStreamId(pattern, now) == ParseStreamId(pattern, 0);
  }

  lemma RunIgnoresClock(data: Data, op: Op, now: nat)
    requires op.XAddOp? ==> op.pattern != "*"
    ensures Run(data, op, now) == Run(data, op, 0)
  {
    match op
    case XAddOp(key, pattern, fields) => XAddIgnoresClock(data, key, pattern, fields, now);
    case _ =>
  }

  /** A replicable write has the same effect whenever, and on whichever server, it runs. */
  lemma ClockDoesNotMatter(data: Data, v: RespValue, now: nat)
    requires Replicable(v)
    ensures RunRequest(data, v, now) == RunRequest(data, v, 0)
  {
    match ToOp(ParseCommand(v))
    case Err(_) =>
    case Ok(op) => RunIgnoresClock(data, op, now);
  }

  lemma GetAckIsReplconf(v: RespValue)
    requires IsGetAck(v)
    ensures !Replicable(v)
  {
    assert ParseKind(v.elements[0].Str()) == Replconf;
  }

  /** The write commands the server replicates are deterministic. */
  lemma RedisIsDeterministic()
    ensures Deterministic(Redis)
  {
    forall data, v, now | Redis.admits(v) ensures Redis.run(data, v, now) == Redis.run(data, v, 0) {
      ClockDoesNotMatter(data, v, now);
    }
    forall v | Redis.admits(v) ensures WellFormed(v) && !IsGetAck(v) {
      if IsGetAck(v) { GetAckIsReplconf(v); }
    }
  }

  lemma RedisReadsAcks()
    ensures ReadsAcks(Redis)
  {
    C.AcksAreTakenIn();
    forall offsets, pos, n ensures ReadOk(Redis.ack, Redis.takeIn, offsets, pos, n) {
      EveryReadOk(AckMessage, C.TakeIn, offsets, pos, n);
    }
  }
}
