/** Runs of the step system, and what holds in every state they reach. */
module ClusterRuns {
  import opened Resp
  import opened ReplicationLink
  import opened Session
  import opened Synchronisation
  import opened Replay
  import opened ReplicaRegistry
  import opened AckStream
  import opened Cluster

  datatype Step<S> =
    | WriteStep(request: RespValue, now: nat)
    | RegisterStep(start: S)
    | SnapshotStep(id: nat)
    | DisconnectStep(id: nat)
    | ReadSocketStep(id: nat, n: nat)
    | RunPostedStep(id: nat, now: nat)
    | TimerAckStep(id: nat)
    | ReadAcksStep(id: nat, n: nat)
    | StartWaitStep(w: nat, wanted: nat)
    | EndWaitStep(w: nat, timedOut: bool)

  /** One step from `c` to `d`, under the conditions that make it possible. */
  ghost predicate Next<S>(m: Machine<S>, c: Cluster<S>, step: Step<S>, d: Cluster<S>) {
    match step
    case WriteStep(request, now) =>
      m.admits(request) && NoSnapshotPending(c) && Fits(c, request) && d == Write(m, c, request, now)
    case RegisterStep(start) => d == Register(c, start)
    case SnapshotStep(id) =>
      id in c.nodes && id in c.registry.peers && !c.nodes[id].snapshotted && d == Snapshot(c, id)
    case DisconnectStep(id) => d == Disconnect(c, id)
    case ReadSocketStep(id, n) =>
      && id in c.nodes && id in c.registry.peers && c.nodes[id].snapshotted
      && n <= |c.registry.peers[id].wire| && d == ReadSocket(c, id, n)
    case RunPostedStep(id, now) =>
      id in c.nodes && c.nodes[id].applied < |Posted(c.nodes[id].session.taken)| && d == RunPosted(m, c, id, now)
    case TimerAckStep(id) => id in c.nodes && c.nodes[id].session.phase.Streaming? && d == TimerAck(c, id)
    case ReadAcksStep(id, n) =>
      && id in c.nodes && id in c.registry.peers && 0 < n
      && c.nodes[id].ackPos + n <= |Encoded(m.ack, c.nodes[id].session.acks)|
      && FindCrlf(AckChunk(m, c.nodes[id], n), 0).Some? && d == ReadAcks(m, c, id, n)
    case StartWaitStep(w, wanted) =>
      w !in c.waits && w !in c.replies && NoSnapshotPending(c) && Fits(c, GetAck) && d == StartWait(c, w, wanted)
    case EndWaitStep(w, timedOut) =>
      w in c.waits && (timedOut || WaitCount(c, c.waits[w].target) >= c.waits[w].wanted) && d == EndWait(c, w)
  }

  ghost predicate Sound<S(!new)>(m: Machine<S>) {
    Deterministic(m) && ReadsAcks(m)
  }

  /** Every step keeps the invariant. */
  lemma StepKeepsInv<S(!new)>(m: Machine<S>, c: Cluster<S>, step: Step<S>, d: Cluster<S>)
    requires Sound(m) && Inv(m, c) && Next(m, c, step, d)
    ensures Inv(m, d)
  {
    match step
    case WriteStep(request, now) => WriteKeepsInv(m, c, request, now);
    case RegisterStep(start) => RegisterKeepsInv(m, c, start);
    case SnapshotStep(id) => SnapshotKeepsInv(m, c, id);
    case DisconnectStep(id) => DisconnectKeepsInv(m, c, id);
    case ReadSocketStep(id, n) => ReadSocketKeepsInv(m, c, id, n);
    case RunPostedStep(id, now) => RunPostedKeepsInv(m, c, id, now);
    case TimerAckStep(id) => TimerAckKeepsInv(m, c, id);
    case ReadAcksStep(id, n) => ReadAcksKeepsInv(m, c, id, n);
    case StartWaitStep(w, wanted) => StartWaitKeepsInv(m, c, w, wanted);
    case EndWaitStep(w, _) =>
  }

  /** The steps that do not lead from one state to the next. */
  ghost function Missteps<S>(m: Machine<S>, states: seq<Cluster<S>>, steps: seq<Step<S>>): set<nat>
    requires |states| == |steps| + 1
  {
    set i | 0 <= i < |steps| && !Next(m, states[i], steps[i], states[i + 1])
  }

  /** A run: states joined by steps, from an initial state. */
  ghost predicate IsRun<S>(m: Machine<S>, states: seq<Cluster<S>>, steps: seq<Step<S>>) {
    |states| == |steps| + 1 && Initial(states[0]) && Missteps(m, states, steps) == {}
  }

  lemma StepAt<S>(m: Machine<S>, states: seq<Cluster<S>>, steps: seq<Step<S>>, i: nat)
    requires IsRun(m, states, steps) && i < |steps|
    ensures Next(m, states[i], steps[i], states[i + 1])
  {
    assert i !in Missteps(m, states, steps);
  }

  lemma InitialInv<S>(m: Machine<S>, c: Cluster<S>)
    requires Initial(c)
    ensures Inv(m, c)
  {}

  lemma InvAt<S(!new)>(m: Machine<S>, states: seq<Cluster<S>>, steps: seq<Step<S>>, i: nat)
    requires Sound(m) && IsRun(m, states, steps) && i < |steps| && Inv(m, states[i])
    ensures Inv(m, states[i + 1])
  {
    StepAt(m, states, steps, i);
    StepKeepsInv(m, states[i], steps[i], states[i + 1]);
  }

  lemma {:induction false} RunKeepsInv<S(!new)>(m: Machine<S>, states: seq<Cluster<S>>, steps: seq<Step<S>>, i: nat)
    requires Sound(m) && IsRun(m, states, steps) && i < |states|
    ensures Inv(m, states[i])
    decreases i
  {
    if i == 0 {
      InitialInv(m, states[0]);
    } else {
      RunKeepsInv(m, states, steps, i - 1);
      InvAt(m, states, steps, i - 1);
    }
  }

  // ---------------------------------------------------------------- byte conservation

  lemma LinkBytes(s: Session, wire: string, replid: string, log: seq<RespValue>, base: nat, noise: string)
    requires base <= |log| && InStep(s, wire, LinkOf(replid, log, base, noise)) && s.phase.Streaming?
    ensures |SerializeAll(log)| + |noise| == s.offset + |s.buf| + |wire|
  {
    StretchOfLog(log, base, s.taken);
    assert |s.buf + wire| == |SerializeAll(log[base..][|s.taken|..])| + |noise|;
  }

  lemma NodeConservesBytes<S>(m: Machine<S>, node: Node<S>, peer: Peer, replid: string, log: seq<RespValue>)
    requires NodeOk(m, node, peer, replid, log) && node.session.phase.Streaming?
    ensures |SerializeAll(log)| + node.errors == node.session.offset + |node.session.buf| + |peer.wire|
  {
    if node.spoiledAt.None? {
      LinkBytes(node.session, peer.wire, replid, log, node.base, "");
    } else {
      var at := node.spoiledAt.value;
      var noise :| NoisyLink(node.session, node.base, node.errors, peer.wire, replid, log, at, noise);
      LinkBytes(node.session, peer.wire, replid, log[..at], node.base, noise);
      CutLog(log, at);
    }
  }

  lemma CutLog(log: seq<RespValue>, at: nat)
    requires at <= |log|
    ensures |SerializeAll(log)| == |SerializeAll(log[..at])| + |SerializeAll(log[at..])|
  {
    SerializeAllConcat(log[..at], log[at..]);
    assert log[..at] + log[at..] == log;
  }

  /** The read began with a whole ACK message. */
  ghost predicate WholeRead<S>(m: Machine<S>, c: Cluster<S>, id: nat, n: nat) {
    id in c.nodes && BeginsWhole(m.ack, c.nodes[id].session.acks, c.nodes[id].ackPos, n)
  }

  /** Every read from replica `id` in the first `i` steps began with a whole ACK message. */
  ghost predicate AllReadsWhole<S>(m: Machine<S>, states: seq<Cluster<S>>, steps: seq<Step<S>>, id: nat, i: nat)
    requires i <= |steps| < |states|
  {
    forall k :: 0 <= k < i && steps[k].ReadAcksStep? && steps[k].id == id ==> WholeRead(m, states[k], id, steps[k].n)
  }

  lemma IdBelowNext<S>(m: Machine<S>, c: Cluster<S>, id: nat)
    requires NodesOk(m, c) && id in c.nodes
    ensures id < c.registry.nextId && id in c.registry.peers
  {
    OneOk(c.nodes, c.registry, id, Ok(m, c.replid, c.log));
  }

  /** Between two states no ACK recorded for a replica went down, and no old id was given out again. */
  ghost predicate AckRose<S>(c: Cluster<S>, d: Cluster<S>, id: nat) {
    && id < d.registry.nextId
    && (id in d.registry.peers ==> id in c.registry.peers && c.registry.peers[id].acked <= d.registry.peers[id].acked)
  }

  /** Only reading its ACKs changes a replica's error count or its recorded offset. */
  lemma OtherSteps<S>(m: Machine<S>, c: Cluster<S>, step: Step<S>, d: Cluster<S>, id: nat)
    requires Next(m, c, step, d) && id < c.registry.nextId && !step.ReadAcksStep?
    ensures AckRose(c, d, id)
    ensures id in c.nodes && id in d.nodes ==> d.nodes[id].errors == c.nodes[id].errors
  {}

  lemma ReadsOfOthers<S>(c: Cluster<S>, other: nat, n: nat, got: Intake, id: nat)
    requires other in c.nodes && other in c.registry.peers && id != other && id < c.registry.nextId
    ensures
      var d := TookIn(c, other, n, got);
      && AckRose(c, d, id) && (id in c.nodes ==> id in d.nodes && d.nodes[id].errors == c.nodes[id].errors)
  {}

  lemma ReadErrors<S>(m: Machine<S>, c: Cluster<S>, id: nat, n: nat)
    requires ReadsAcks(m) && Inv(m, c) && id in c.nodes && 0 < n
    requires c.nodes[id].ackPos + n <= |Encoded(m.ack, c.nodes[id].session.acks)|
    ensures id in c.registry.peers
    ensures
      var errors := ReadAcks(m, c, id, n).nodes[id].errors;
      if WholeRead(m, c, id, n) then errors == c.nodes[id].errors else errors > c.nodes[id].errors
  {
    IdBelowNext(m, c, id);
    var got := ReadAcksIs(m, c, id, n);
  }

  /** A step writes an error reply to a replica exactly when it reads from it and finds no whole ACK in front. */
  lemma StepErrors<S(!new)>(m: Machine<S>, c: Cluster<S>, step: Step<S>, d: Cluster<S>, id: nat)
    requires Sound(m) && Inv(m, c) && Next(m, c, step, d) && id in c.nodes && id in d.nodes
    ensures
      var broken := step.ReadAcksStep? && step.id == id && !WholeRead(m, c, id, step.n);
      if broken then d.nodes[id].errors > c.nodes[id].errors else d.nodes[id].errors == c.nodes[id].errors
  {
    IdBelowNext(m, c, id);
    if !step.ReadAcksStep? {
      OtherSteps(m, c, step, d, id);
    } else if step.id == id {
      ReadErrors(m, c, id, step.n);
    } else {
      ReadsOfOthers(c, step.id, step.n, m.takeIn(AckChunk(m, c.nodes[step.id], step.n)), id);
    }
  }

  lemma StepGrowsIds<S>(m: Machine<S>, c: Cluster<S>, step: Step<S>, d: Cluster<S>)
    requires Next(m, c, step, d)
    ensures c.registry.nextId <= d.registry.nextId
    ensures forall id :: id in d.nodes ==> id in c.nodes || (id == c.registry.nextId && d.nodes[id].errors == 0)
  {}

  lemma {:induction false} IdsGrow<S>(m: Machine<S>, states: seq<Cluster<S>>, steps: seq<Step<S>>, i: nat, j: nat)
    requires IsRun(m, states, steps) && i <= j < |states|
    ensures states[i].registry.nextId <= states[j].registry.nextId
    decreases j
  {
    if i < j {
      IdsGrow(m, states, steps, i, j - 1);
      StepAt(m, states, steps, j - 1);
      StepGrowsIds(m, states[j - 1], steps[j - 1], states[j]);
    }
  }

  lemma NotBeforeItWasAdded<S(!new)>(m: Machine<S>, states: seq<Cluster<S>>, steps: seq<Step<S>>, k: nat, i: nat)
    requires Sound(m) && IsRun(m, states, steps) && k <= i < |states|
    ensures states[i].registry.nextId !in states[k].nodes
  {
    var id := states[i].registry.nextId;
    if id in states[k].nodes {
      RunKeepsInv(m, states, steps, k);
      OneOk(states[k].nodes, states[k].registry, id, Ok(m, states[k].replid, states[k].log));
      IdsGrow(m, states, steps, k, i);
    }
  }

  lemma NoReadsBeforeItWasAdded<S(!new)>(m: Machine<S>, states: seq<Cluster<S>>, steps: seq<Step<S>>, i: nat)
    requires Sound(m) && IsRun(m, states, steps) && 0 < i < |states|
    ensures AllReadsWhole(m, states, steps, states[i - 1].registry.nextId, i)
  {
    forall k | 0 <= k < i && steps[k].ReadAcksStep? ensures steps[k].id != states[i - 1].registry.nextId {
      NotBeforeItWasAdded(m, states, steps, k, i - 1);
      StepAt(m, states, steps, k);
    }
  }

  lemma OneMoreRead<S>(m: Machine<S>, states: seq<Cluster<S>>, steps: seq<Step<S>>, id: nat, i: nat)
    requires 0 < i <= |steps| < |states|
    ensures AllReadsWhole(m, states, steps, id, i) <==>
            && AllReadsWhole(m, states, steps, id, i - 1)
            && (steps[i - 1].ReadAcksStep? && steps[i - 1].id == id ==> WholeRead(m, states[i - 1], id, steps[i - 1].n))
  {}

  /** How the error count of a replica changes from one state of a run to the next. */
  lemma ErrorsAt<S(!new)>(m: Machine<S>, states: seq<Cluster<S>>, steps: seq<Step<S>>, id: nat, i: nat)
    requires Sound(m) && IsRun(m, states, steps) && i < |steps| && id in states[i].nodes && id in states[i + 1].nodes
    ensures
      var broken := steps[i].ReadAcksStep? && steps[i].id == id && !WholeRead(m, states[i], id, steps[i].n);
      if broken then states[i + 1].nodes[id].errors > states[i].nodes[id].errors
      else states[i + 1].nodes[id].errors == states[i].nodes[id].errors
  {
    RunKeepsInv(m, states, steps, i);
    StepAt(m, states, steps, i);
    StepErrors(m, states[i], steps[i], states[i + 1], id);
  }

  lemma AddedAt<S>(m: Machine<S>, states: seq<Cluster<S>>, steps: seq<Step<S>>, id: nat, i: nat)
    requires IsRun(m, states, steps) && i < |steps| && id !in states[i].nodes && id in states[i + 1].nodes
    ensures id == states[i].registry.nextId && states[i + 1].nodes[id].errors == 0
  {
    StepAt(m, states, steps, i);
    StepGrowsIds(m, states[i], steps[i], states[i + 1]);
  }

  /** A replica has been sent error bytes exactly when some read of its ACKs did not begin with a whole message. */
  lemma {:induction false} ErrorsIffBrokenRead<S(!new)>(
    m: Machine<S>, states: seq<Cluster<S>>, steps: seq<Step<S>>, id: nat, i: nat)
    requires Sound(m) && IsRun(m, states, steps) && i < |states| && id in states[i].nodes
    ensures states[i].nodes[id].errors == 0 <==> AllReadsWhole(m, states, steps, id, i)
    decreases i
  {
    if id in states[i - 1].nodes {
      ErrorsIffBrokenRead(m, states, steps, id, i - 1);
      ErrorsAt(m, states, steps, id, i - 1);
      OneMoreRead(m, states, steps, id, i);
    } else {
      AddedAt(m, states, steps, id, i - 1);
      NoReadsBeforeItWasAdded(m, states, steps, i);
    }
  }

  /**
   In every reachable state and for every synced replica, the master's offset plus the bytes of error replies is
   the replica's offset plus the bytes in its buffer plus the bytes still on the wire. So the bytes of commands
   are conserved if and only if every read of the replica's ACKs began with a whole message.
   */
  lemma BytesAreConserved<S(!new)>(m: Machine<S>, states: seq<Cluster<S>>, steps: seq<Step<S>>, i: nat, id: nat)
    requires Sound(m) && IsRun(m, states, steps) && i < |states|
    requires id in states[i].nodes && states[i].nodes[id].session.phase.Streaming?
    ensures id in states[i].registry.peers
    ensures
      var c, node := states[i], states[i].nodes[id];
      var there := node.session.offset + |node.session.buf| + |c.registry.peers[id].wire|;
      && c.registry.offset + node.errors == there
      && (c.registry.offset == there <==> AllReadsWhole(m, states, steps, id, i))
  {
    var c := states[i];
    RunKeepsInv(m, states, steps, i);
    OneOk(c.nodes, c.registry, id, Ok(m, c.replid, c.log));
    NodeConservesBytes(m, c.nodes[id], c.registry.peers[id], c.replid, c.log);
    ErrorsIffBrokenRead(m, states, steps, id, i);
  }

  // ---------------------------------------------------------------- the log along a run

  lemma StepGrowsLog<S>(m: Machine<S>, c: Cluster<S>, step: Step<S>, d: Cluster<S>)
    requires Next(m, c, step, d)
    ensures c.log <= d.log && |d.log| <= |c.log| + 1 && d.initial == c.initial
  {}

  lemma {:induction false} LogGrows<S>(m: Machine<S>, states: seq<Cluster<S>>, steps: seq<Step<S>>, i: nat, j: nat)
    requires IsRun(m, states, steps) && i <= j < |states|
    ensures states[i].log <= states[j].log && states[i].initial == states[j].initial
    decreases j
  {
    if i < j {
      LogGrows(m, states, steps, i, j - 1);
      StepAt(m, states, steps, j - 1);
      StepGrowsLog(m, states[j - 1], steps[j - 1], states[j]);
    }
  }

  /** The log passes through every length on its way. */
  lemma {:induction false} LogPassesThrough<S>(
    m: Machine<S>, states: seq<Cluster<S>>, steps: seq<Step<S>>, j: nat, n: nat)
    returns (i: nat)
    requires IsRun(m, states, steps) && j < |states| && n <= |states[j].log|
    ensures i <= j && |states[i].log| == n
    decreases j
  {
    if n == |states[j].log| {
      i := j;
    } else {
      StepAt(m, states, steps, j - 1);
      StepGrowsLog(m, states[j - 1], steps[j - 1], states[j]);
      i := LogPassesThrough(m, states, steps, j - 1, n);
    }
  }

  lemma {:induction false} LongerLogMoreBytes(log: seq<RespValue>, a: nat, b: nat)
    requires a < b <= |log|
    ensures |SerializeAll(log[..a])| < |SerializeAll(log[..b])|
    decreases b
  {
    assert log[..b] == log[..b - 1] + [log[b - 1]];
    SerializeAllSnoc(log[..b - 1], log[b - 1]);
    if a < b - 1 {
      LongerLogMoreBytes(log, a, b - 1);
    }
  }

  // ---------------------------------------------------------------- state-machine replication

  /** Each replica was registered with the state the master had at that moment. */
  ghost predicate EqualStarts<S>(states: seq<Cluster<S>>, steps: seq<Step<S>>)
    requires |states| == |steps| + 1
  {
    forall i :: 0 <= i < |steps| && steps[i].RegisterStep? ==> steps[i].start == states[i].store
  }

  ghost predicate StartsOk<S>(m: Machine<S>, c: Cluster<S>) {
    forall id :: id in c.nodes ==>
      c.nodes[id].base <= |c.log| && c.nodes[id].start == Replayed(m, c.initial, c.log[..c.nodes[id].base])
  }

  /** No step changes where a replica started; only registering adds one. */
  lemma StepKeepsBase<S>(m: Machine<S>, c: Cluster<S>, step: Step<S>, d: Cluster<S>, id: nat)
    requires Next(m, c, step, d) && id in d.nodes
    ensures
      || (id in c.nodes && d.nodes[id].base == c.nodes[id].base && d.nodes[id].start == c.nodes[id].start)
      || (step.RegisterStep? && d.nodes[id].base == |c.log| && d.nodes[id].start == step.start)
  {}

  lemma StepKeepsStarts<S>(m: Machine<S>, c: Cluster<S>, step: Step<S>, d: Cluster<S>)
    requires c.store == Replayed(m, c.initial, c.log) && StartsOk(m, c) && Next(m, c, step, d)
    requires step.RegisterStep? ==> step.start == c.store
    ensures StartsOk(m, d)
  {
    StepGrowsLog(m, c, step, d);
    assert c.log[..|c.log|] == c.log;
    forall id | id in d.nodes
      ensures d.nodes[id].base <= |d.log| && d.nodes[id].start == Replayed(m, d.initial, d.log[..d.nodes[id].base])
    {
      StepKeepsBase(m, c, step, d, id);
      assert d.log[..d.nodes[id].base] == c.log[..d.nodes[id].base];
    }
  }

  lemma StartsAt<S(!new)>(m: Machine<S>, states: seq<Cluster<S>>, steps: seq<Step<S>>, i: nat)
    requires Sound(m) && IsRun(m, states, steps) && EqualStarts(states, steps) && i < |steps| && StartsOk(m, states[i])
    ensures StartsOk(m, states[i + 1])
  {
    RunKeepsInv(m, states, steps, i);
    StepAt(m, states, steps, i);
    StepKeepsStarts(m, states[i], steps[i], states[i + 1]);
  }

  lemma {:induction false} RunKeepsStarts<S(!new)>(m: Machine<S>, states: seq<Cluster<S>>, steps: seq<Step<S>>, i: nat)
    requires Sound(m) && IsRun(m, states, steps) && EqualStarts(states, steps) && i < |states|
    ensures StartsOk(m, states[i])
    decreases i
  {
    if i > 0 {
      RunKeepsStarts(m, states, steps, i - 1);
      StartsAt(m, states, steps, i - 1);
    }
  }

  /** The replica's state once its store thread has caught up with the commands it consumed. */
  ghost function StateAfterConsumed<S>(m: Machine<S>, node: Node<S>): S {
    Replayed(m, node.start, Posted(node.session.taken))
  }

  /** What a replica consumed is a stretch of the master's log, and its offset is where that ends. */
  lemma ConsumedIsPrefix<S>(m: Machine<S>, node: Node<S>, peer: Peer, replid: string, log: seq<RespValue>)
    requires NodeOk(m, node, peer, replid, log)
    ensures node.base + |node.session.taken| <= |log|
    ensures log[..node.base] + node.session.taken == log[..node.base + |node.session.taken|]
    ensures !node.session.phase.AwaitReply? ==>
              node.session.offset == |SerializeAll(log[..node.base + |node.session.taken|])|
    ensures node.session.phase.AwaitReply? ==> node.session.offset == 0
  {
    TakenFromLog(node, peer.wire, replid, log);
    StretchIsPrefix(log, node.base, node.session.taken);
  }

  lemma StretchIsPrefix(log: seq<RespValue>, base: nat, taken: seq<RespValue>)
    requires base <= |log| && taken <= log[base..]
    ensures base + |taken| <= |log| && log[..base] + taken == log[..base + |taken|]
    ensures |SerializeAll(log[..base + |taken|])| == |SerializeAll(log[..base])| + |SerializeAll(taken)|
  {
    assert taken == log[base..][..|taken|] == log[base..base + |taken|];
    SerializeAllConcat(log[..base], taken);
  }

  /** The same with the ACK recorded for the replica, which never runs ahead of it. */
  ghost predicate Consumed<S>(node: Node<S>, acked: int, log: seq<RespValue>) {
    var end := node.base + |node.session.taken|;
    && end <= |log|
    && log[..node.base] + node.session.taken == log[..end]
    && node.session.offset == (if node.session.phase.AwaitReply? then 0 else |SerializeAll(log[..end])|)
    && acked <= node.session.offset <= |SerializeAll(log)|
  }

  lemma NodeConsumed<S>(m: Machine<S>, node: Node<S>, peer: Peer, replid: string, log: seq<RespValue>)
    requires NodeOk(m, node, peer, replid, log)
    ensures Consumed(node, peer.acked, log)
  {
    ConsumedIsPrefix(m, node, peer, replid, log);
    OffsetWithinLog(m, node, peer, replid, log);
  }

  lemma ConsumedAt<S>(m: Machine<S>, c: Cluster<S>, id: nat)
    requires NodesOk(m, c) && id in c.nodes
    ensures id in c.registry.peers && Consumed(c.nodes[id], c.registry.peers[id].acked, c.log)
  {
    OneOk(c.nodes, c.registry, id, Ok(m, c.replid, c.log));
    NodeConsumed(m, c.nodes[id], c.registry.peers[id], c.replid, c.log);
  }

  lemma ConsumedStateOf<S>(m: Machine<S>, node: Node<S>, initial: S, before: seq<RespValue>)
    requires node.start == Replayed(m, initial, before)
    ensures StateAfterConsumed(m, node) == Replayed(m, initial, before + node.session.taken)
  {
    ReplayedPosted(m, node.start, node.session.taken);
    ReplayedConcat(m, initial, before, node.session.taken);
  }

  lemma SameOffsetSameLog(log: seq<RespValue>, a: nat, b: nat)
    requires a <= |log| && b <= |log| && |SerializeAll(log[..a])| == |SerializeAll(log[..b])|
    ensures a == b
  {
    if a < b {
      LongerLogMoreBytes(log, a, b);
    } else if b < a {
      LongerLogMoreBytes(log, b, a);
    }
  }

  lemma ConsumedUpTo<S>(
    m: Machine<S>, node: Node<S>, acked: int, initial: S, log: seq<RespValue>, prefix: seq<RespValue>)
    requires Consumed(node, acked, log) && node.session.phase.Streaming?
    requires node.start == Replayed(m, initial, log[..node.base])
    requires prefix <= log && |SerializeAll(prefix)| == node.session.offset
    ensures StateAfterConsumed(m, node) == Replayed(m, initial, prefix)
  {
    assert prefix == log[..|prefix|];
    SameOffsetSameLog(log, |prefix|, node.base + |node.session.taken|);
    ConsumedStateOf(m, node, initial, log[..node.base]);
  }

  /**
   State-machine replication: in every reachable state, the state a synced replica has after the
   commands it consumed is the state the master had whenever its offset was the replica's offset.
   */
  lemma ReplicaEqualsMasterAtItsOffset<S(!new)>(
    m: Machine<S>, states: seq<Cluster<S>>, steps: seq<Step<S>>, j: nat, id: nat, i: nat)
    requires Sound(m) && IsRun(m, states, steps) && EqualStarts(states, steps) && i <= j < |states|
    requires id in states[j].nodes && states[j].nodes[id].session.phase.Streaming?
    requires states[i].registry.offset == states[j].nodes[id].session.offset
    ensures StateAfterConsumed(m, states[j].nodes[id]) == states[i].store
  {
    var c := states[j];
    RunKeepsInv(m, states, steps, i);
    RunKeepsInv(m, states, steps, j);
    RunKeepsStarts(m, states, steps, j);
    LogGrows(m, states, steps, i, j);
    ConsumedAt(m, c, id);
    ConsumedUpTo(m, c.nodes[id], c.registry.peers[id].acked, c.initial, c.log, states[i].log);
  }

  lemma IdleStore<S>(m: Machine<S>, c: Cluster<S>, id: nat)
    requires NodesOk(m, c) && id in c.nodes && c.nodes[id].applied == |Posted(c.nodes[id].session.taken)|
    ensures c.nodes[id].store == StateAfterConsumed(m, c.nodes[id])
  {
    OneOk(c.nodes, c.registry, id, Ok(m, c.replid, c.log));
    var posted := Posted(c.nodes[id].session.taken);
    assert posted[..|posted|] == posted;
  }

  /** A replica that has consumed and run everything propagated so far is in the master's state. */
  lemma CaughtUpReplicaIsTheMaster<S(!new)>(
    m: Machine<S>, states: seq<Cluster<S>>, steps: seq<Step<S>>, j: nat, id: nat)
    requires Sound(m) && IsRun(m, states, steps) && EqualStarts(states, steps) && j < |states|
    requires id in states[j].nodes && states[j].nodes[id].session.phase.Streaming?
    requires states[j].nodes[id].session.offset == states[j].registry.offset
    requires states[j].nodes[id].applied == |Posted(states[j].nodes[id].session.taken)|
    ensures states[j].nodes[id].store == states[j].store
  {
    RunKeepsInv(m, states, steps, j);
    ReplicaEqualsMasterAtItsOffset(m, states, steps, j, id, j);
    IdleStore(m, states[j], id);
  }

  /** There always was such a moment, and a replica whose store thread is idle really is in that state. */
  lemma ReplicaWasTheMaster<S(!new)>(m: Machine<S>, states: seq<Cluster<S>>, steps: seq<Step<S>>, j: nat, id: nat)
    returns (i: nat)
    requires Sound(m) && IsRun(m, states, steps) && EqualStarts(states, steps) && j < |states|
    requires id in states[j].nodes && states[j].nodes[id].session.phase.Streaming?
    ensures i <= j && states[i].registry.offset == states[j].nodes[id].session.offset
    ensures states[j].nodes[id].applied == |Posted(states[j].nodes[id].session.taken)| ==>
              states[j].nodes[id].store == states[i].store
  {
    var c, node := states[j], states[j].nodes[id];
    RunKeepsInv(m, states, steps, j);
    ConsumedAt(m, c, id);
    i := LogPassesThrough(m, states, steps, j, node.base + |node.session.taken|);
    RunKeepsInv(m, states, steps, i);
    LogGrows(m, states, steps, i, j);
    assert states[i].log == c.log[..|states[i].log|];
    ReplicaEqualsMasterAtItsOffset(m, states, steps, j, id, i);
    if node.applied == |Posted(node.session.taken)| {
      IdleStore(m, c, id);
    }
  }

  // ---------------------------------------------------------------- WAIT

  /** A replica whose ACK reached an earlier offset of the master has consumed the log up to there. */
  lemma AckCoversLog<S>(m: Machine<S>, c: Cluster<S>, id: nat, mark: nat)
    requires Inv(m, c) && mark <= |c.log|
    requires id in AckedAtLeast(c.registry, |SerializeAll(c.log[..mark])|)
    ensures id in c.nodes && c.nodes[id].base + |c.nodes[id].session.taken| >= mark
    ensures |SerializeAll(c.log[..mark])| <= c.registry.peers[id].acked
    ensures c.registry.peers[id].acked <= c.nodes[id].session.offset <= c.registry.offset
  {
    ConsumedAt(m, c, id);
    var end := c.nodes[id].base + |c.nodes[id].session.taken|;
    if end < mark {
      LongerLogMoreBytes(c.log, end, mark);
      assert false;
    }
  }

  /** The replicas in `counted` are registered and have consumed all of `log`. */
  ghost predicate HaveConsumed<S>(c: Cluster<S>, counted: set<nat>, log: seq<RespValue>) {
    forall id :: id in counted ==>
      && id in c.nodes && id in c.registry.peers
      && var end := c.nodes[id].base + |c.nodes[id].session.taken|;
         end <= |c.log| && log <= c.log[..end] && c.nodes[id].session.offset >= |SerializeAll(log)|
  }

  /** Whoever acknowledged an earlier offset of the master has consumed every command propagated before it. */
  lemma AckedHaveConsumed<S(!new)>(m: Machine<S>, states: seq<Cluster<S>>, steps: seq<Step<S>>, i: nat, j: nat)
    requires Sound(m) && IsRun(m, states, steps) && i <= j < |states|
    ensures HaveConsumed(states[j], AckedAtLeast(states[j].registry, states[i].registry.offset), states[i].log)
  {
    var c, mark := states[j], |states[i].log|;
    RunKeepsInv(m, states, steps, i);
    RunKeepsInv(m, states, steps, j);
    LogGrows(m, states, steps, i, j);
    assert c.log[..mark] == states[i].log;
    forall id | id in AckedAtLeast(c.registry, states[i].registry.offset)
      ensures id in c.nodes && c.nodes[id].session.offset >= states[i].registry.offset
      ensures c.nodes[id].base + |c.nodes[id].session.taken| <= |c.log|
      ensures states[i].log <= c.log[..c.nodes[id].base + |c.nodes[id].session.taken|]
    {
      AckCoversLog(m, c, id, mark);
      ConsumedAt(m, c, id);
    }
  }

  lemma StepKeepsWaits<S>(m: Machine<S>, c: Cluster<S>, step: Step<S>, d: Cluster<S>, w: nat)
    requires Next(m, c, step, d) && w in d.waits
    ensures
      || (w in c.waits && d.waits[w] == c.waits[w])
      || (step == StartWaitStep(w, d.waits[w].wanted) &&
          d.waits[w] == Waiting(c.registry.offset, d.waits[w].wanted, |c.log|))
  {}

  lemma WaitsAt<S>(m: Machine<S>, states: seq<Cluster<S>>, steps: seq<Step<S>>, k: nat, w: nat)
    requires IsRun(m, states, steps) && k < |steps| && w in states[k + 1].waits
    ensures
      var now := states[k + 1].waits[w];
      || (w in states[k].waits && now == states[k].waits[w])
      || (steps[k] == StartWaitStep(w, now.wanted) &&
          now == Waiting(states[k].registry.offset, now.wanted, |states[k].log|))
  {
    StepAt(m, states, steps, k);
    StepKeepsWaits(m, states[k], steps[k], states[k + 1], w);
  }

  /** A WAIT in progress remembers the offset and the log of the moment it began. */
  lemma {:induction false} WaitBegan<S>(m: Machine<S>, states: seq<Cluster<S>>, steps: seq<Step<S>>, j: nat, w: nat)
    returns (i: nat)
    requires IsRun(m, states, steps) && j < |states| && w in states[j].waits
    ensures i < j && steps[i] == StartWaitStep(w, states[j].waits[w].wanted)
    ensures states[j].waits[w] == Waiting(states[i].registry.offset, states[j].waits[w].wanted, |states[i].log|)
    decreases j
  {
    WaitsAt(m, states, steps, j - 1, w);
    if w in states[j - 1].waits && states[j].waits[w] == states[j - 1].waits[w] {
      i := WaitBegan(m, states, steps, j - 1, w);
    } else {
      i := j - 1;
    }
  }

  lemma StepReplies<S>(m: Machine<S>, c: Cluster<S>, step: Step<S>, d: Cluster<S>, w: nat)
    requires Next(m, c, step, d) && w !in c.replies && w in d.replies
    ensures
      if step.StartWaitStep? then
        && step.w == w && d.replies[w] == WaitCount(c, c.registry.offset) >= step.wanted
        && d.registry == c.registry && d.nodes == c.nodes
      else
        && step.EndWaitStep? && step.w == w && w in c.waits && d.registry == c.registry && d.nodes == c.nodes
        && d.replies[w] == WaitCount(c, c.waits[w].target) && (step.timedOut || d.replies[w] >= c.waits[w].wanted)
  {}

  lemma RepliesAt<S>(m: Machine<S>, states: seq<Cluster<S>>, steps: seq<Step<S>>, j: nat, w: nat)
    requires IsRun(m, states, steps) && j < |steps| && w !in states[j].replies && w in states[j + 1].replies
    ensures
      if steps[j].StartWaitStep? then
        && steps[j].w == w
        && states[j + 1].replies[w] == WaitCount(states[j], states[j].registry.offset) >= steps[j].wanted
      else
        && steps[j].EndWaitStep? && w in states[j].waits
        && states[j + 1].replies[w] == WaitCount(states[j], states[j].waits[w].target)
        && (steps[j].timedOut || states[j + 1].replies[w] >= states[j].waits[w].wanted)
  {
    StepAt(m, states, steps, j);
    StepReplies(m, states[j], steps[j], states[j + 1], w);
  }

  /**
   WAIT safety: when a WAIT is answered, at once or after any number of polls, there was a moment `i` at which it
   began, asking for `wanted`; its reply is the number of distinct registered replicas whose ACKs reached the
   master's offset of that moment; each of them has consumed every command propagated before it; and they are at
   least as many as asked for unless time was up.
   */
  lemma WaitReplyIsSafe<S(!new)>(m: Machine<S>, states: seq<Cluster<S>>, steps: seq<Step<S>>, j: nat, w: nat)
    returns (i: nat, wanted: nat, counted: set<nat>)
    requires Sound(m) && IsRun(m, states, steps) && j < |steps| && w !in states[j].replies && w in states[j + 1].replies
    ensures i <= j && steps[i] == StartWaitStep(w, wanted)
    ensures counted == AckedAtLeast(states[j].registry, states[i].registry.offset)
    ensures states[j + 1].replies[w] == |counted| && HaveConsumed(states[j], counted, states[i].log)
    ensures |counted| >= wanted || (steps[j].EndWaitStep? && steps[j].timedOut)
  {
    RepliesAt(m, states, steps, j, w);
    if steps[j].StartWaitStep? {
      i, wanted := j, steps[j].wanted;
    } else {
      i := WaitBegan(m, states, steps, j, w);
      wanted := states[j].waits[w].wanted;
    }
    counted := AckedAtLeast(states[j].registry, states[i].registry.offset);
    AckedHaveConsumed(m, states, steps, i, j);
  }

  lemma OffsetInLog(log: seq<RespValue>, base: nat, taken: seq<RespValue>, k: nat)
    requires base + |taken| <= |log| && k < |taken|
    requires log[..base] + taken == log[..base + |taken|]
    ensures taken[k] == log[base + k]
    ensures OffsetAfter(|SerializeAll(log[..base])|, taken, k + 1) ==
            |SerializeAll(log[..base + k])| + |Serialize(log[base + k])|
  {
    var all := log[..base] + taken;
    assert all[base + k] == log[base + k];
    assert log[..base] + taken[..k + 1] == all[..base + k + 1] == log[..base + k + 1];
    SerializeAllConcat(log[..base], taken[..k + 1]);
    assert log[..base + k + 1] == log[..base + k] + [log[base + k]];
    SerializeAllSnoc(log[..base + k], log[base + k]);
  }

  lemma AnsweredAt<S>(m: Machine<S>, c: Cluster<S>, id: nat)
    requires NodesOk(m, c) && id in c.nodes
    ensures c.nodes[id].base <= |c.log|
    ensures GetAcksAnswered(c.nodes[id].session, |SerializeAll(c.log[..c.nodes[id].base])|)
  {
    OneOk(c.nodes, c.registry, id, Ok(m, c.replid, c.log));
  }

  lemma AnsweredBeyondTarget<S>(node: Node<S>, acked: int, log: seq<RespValue>, mark: nat)
    requires Consumed(node, acked, log) && GetAcksAnswered(node.session, |SerializeAll(log[..node.base])|)
    requires node.base <= mark < node.base + |node.session.taken| && IsGetAck(log[mark])
    ensures |SerializeAll(log[..mark])| + |Serialize(log[mark])| in node.session.acks
  {
    OffsetInLog(log, node.base, node.session.taken, mark - node.base);
    AnswerOf(node.session, |SerializeAll(log[..node.base])|, mark - node.base);
  }

  lemma AnswerOf(s: Session, origin: nat, k: nat)
    requires GetAcksAnswered(s, origin) && k < |s.taken| && IsGetAck(s.taken[k])
    ensures OffsetAfter(origin, s.taken, k + 1) in s.acks
  {}

  lemma MarkIsGetAck(waits: map<nat, Waiting>, log: seq<RespValue>, w: nat)
    requires WaitsOk(waits, log) && w in waits
    ensures waits[w].mark < |log| && IsGetAck(log[waits[w].mark])
    ensures waits[w].target == |SerializeAll(log[..waits[w].mark])|
  {
    GetAckIsGetAck();
  }

  lemma AnsweredBeyondMark<S>(m: Machine<S>, c: Cluster<S>, id: nat, mark: nat)
    requires NodesOk(m, c) && id in c.nodes && mark < |c.log| && IsGetAck(c.log[mark])
    requires c.nodes[id].base <= mark < c.nodes[id].base + |c.nodes[id].session.taken|
    ensures |SerializeAll(c.log[..mark])| + |Serialize(c.log[mark])| in c.nodes[id].session.acks
  {
    ConsumedAt(m, c, id);
    AnsweredAt(m, c, id);
    AnsweredBeyondTarget(c.nodes[id], c.registry.peers[id].acked, c.log, mark);
  }

  /** A replica that has consumed a WAIT's GETACK has sent an ACK beyond that WAIT's target. */
  lemma GetAckIsAnsweredBeyondTarget<S(!new)>(
    m: Machine<S>, states: seq<Cluster<S>>, steps: seq<Step<S>>, i: nat, w: nat, id: nat)
    requires Sound(m) && IsRun(m, states, steps) && i < |states|
    requires w in states[i].waits && id in states[i].nodes
    requires states[i].nodes[id].base <= states[i].waits[w].mark <
             states[i].nodes[id].base + |states[i].nodes[id].session.taken|
    ensures exists ack :: ack in states[i].nodes[id].session.acks && states[i].waits[w].target < ack
  {
    RunKeepsInv(m, states, steps, i);
    MarkIsGetAck(states[i].waits, states[i].log, w);
    AnsweredBeyondMark(m, states[i], id, states[i].waits[w].mark);
  }

  // ---------------------------------------------------------------- recorded ACKs

  lemma ReadRaises<S>(m: Machine<S>, c: Cluster<S>, id: nat, n: nat)
    requires ReadsAcks(m) && Inv(m, c) && id in c.nodes && 0 < n && id < c.registry.nextId
    requires c.nodes[id].ackPos + n <= |Encoded(m.ack, c.nodes[id].session.acks)|
    ensures id in c.registry.peers && AckRose(c, ReadAcks(m, c, id, n), id)
  {
    IdBelowNext(m, c, id);
    ReadAcksKeepsInv(m, c, id, n);
  }

  lemma StepRaisesAcks<S(!new)>(m: Machine<S>, c: Cluster<S>, step: Step<S>, d: Cluster<S>, id: nat)
    requires Sound(m) && Inv(m, c) && Next(m, c, step, d) && id < c.registry.nextId
    ensures AckRose(c, d, id)
  {
    if !step.ReadAcksStep? {
      OtherSteps(m, c, step, d, id);
    } else if step.id == id {
      ReadRaises(m, c, id, step.n);
    } else {
      ReadsOfOthers(c, step.id, step.n, m.takeIn(AckChunk(m, c.nodes[step.id], step.n)), id);
    }
  }

  lemma AckRoseTwice<S>(a: Cluster<S>, b: Cluster<S>, c: Cluster<S>, id: nat)
    requires AckRose(a, b, id) && AckRose(b, c, id)
    ensures AckRose(a, c, id)
  {}

  lemma RiseAt<S(!new)>(m: Machine<S>, states: seq<Cluster<S>>, steps: seq<Step<S>>, k: nat, id: nat)
    requires Sound(m) && IsRun(m, states, steps) && k < |steps| && id < states[k].registry.nextId
    ensures AckRose(states[k], states[k + 1], id)
  {
    RunKeepsInv(m, states, steps, k);
    StepAt(m, states, steps, k);
    StepRaisesAcks(m, states[k], steps[k], states[k + 1], id);
  }

  lemma {:induction false} AcksRise<S(!new)>(
    m: Machine<S>, states: seq<Cluster<S>>, steps: seq<Step<S>>, i: nat, j: nat, id: nat)
    requires Sound(m) && IsRun(m, states, steps) && i <= j < |states| && id < states[i].registry.nextId
    ensures AckRose(states[i], states[j], id)
    decreases j
  {
    if i < j {
      AcksRise(m, states, steps, i, j - 1, id);
      RiseAt(m, states, steps, j - 1, id);
      AckRoseTwice(states[i], states[j - 1], states[j], id);
    }
  }

  /**
   The ACK recorded for a replica never goes down while it stays registered, however its messages are cut into
   reads.
   */
  lemma AcksNeverDecrease<S(!new)>(
    m: Machine<S>, states: seq<Cluster<S>>, steps: seq<Step<S>>, i: nat, j: nat, id: nat)
    requires Sound(m) && IsRun(m, states, steps) && i <= j < |states|
    requires id in states[i].nodes && id in states[j].registry.peers
    ensures id in states[i].registry.peers && states[i].registry.peers[id].acked <= states[j].registry.peers[id].acked
  {
    RunKeepsInv(m, states, steps, i);
    IdBelowNext(m, states[i], id);
    AcksRise(m, states, steps, i, j, id);
  }
}
