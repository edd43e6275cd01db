/** What the master knows of each replica: exactly what the last ACK it could read said. */
module AckLaws {
  import opened Replay
  import opened ReplicaRegistry
  import opened AckStream
  import opened Cluster
  import opened ClusterRuns

  /** A read of `n` bytes from replica `id` begins with an ACK that carries this offset. */
  ghost predicate ReadsOffset<S>(m: Machine<S>, c: Cluster<S>, id: nat, n: nat, offset: nat) {
    && id in c.nodes
    && exists j: nat :: WholeAt(m.ack, c.nodes[id].session.acks, c.nodes[id].ackPos, n, j) &&
                        c.nodes[id].session.acks[j] == offset
  }

  lemma ReadRecords<S>(m: Machine<S>, c: Cluster<S>, id: nat, n: nat, offset: nat)
    requires ReadsAcks(m) && Inv(m, c) && id in c.nodes && 0 < n && ReadsOffset(m, c, id, n, offset)
    requires c.nodes[id].ackPos + n <= |Encoded(m.ack, c.nodes[id].session.acks)|
    ensures id in c.registry.peers && id in ReadAcks(m, c, id, n).registry.peers
    ensures ReadAcks(m, c, id, n).registry.peers[id].acked == offset
  {
    IdBelowNext(m, c, id);
    var acks, pos := c.nodes[id].session.acks, c.nodes[id].ackPos;
    var got := ReadAcksIs(m, c, id, n);
    var j: nat :| WholeAt(m.ack, acks, pos, n, j) && acks[j] == offset;
    assert BeginsWhole(m.ack, acks, pos, n);
    var i: nat :| WholeAt(m.ack, acks, pos, n, i) && got.offset == acks[i];
    WholeIsUnique(m.ack, acks, pos, n, i, j);
  }

  lemma BrokenReadRecordsNothing<S>(m: Machine<S>, c: Cluster<S>, id: nat, n: nat)
    requires ReadsAcks(m) && Inv(m, c) && id in c.nodes && 0 < n && !WholeRead(m, c, id, n)
    requires c.nodes[id].ackPos + n <= |Encoded(m.ack, c.nodes[id].session.acks)|
    ensures id in c.registry.peers && id in ReadAcks(m, c, id, n).registry.peers
    ensures ReadAcks(m, c, id, n).registry.peers[id].acked == c.registry.peers[id].acked
  {
    IdBelowNext(m, c, id);
    var got := ReadAcksIs(m, c, id, n);
  }

  lemma OthersKeepAck<S>(m: Machine<S>, c: Cluster<S>, step: Step<S>, d: Cluster<S>, id: nat)
    requires Next(m, c, step, d) && id in c.registry.peers && id in d.registry.peers
    requires id < c.registry.nextId && !(step.ReadAcksStep? && step.id == id)
    ensures d.registry.peers[id].acked == c.registry.peers[id].acked
  {}

  // ---------------------------------------------------------------- every run

  /** Step `i` is a read from replica `id` that begins with a whole ACK. */
  ghost function WholeReads<S>(m: Machine<S>, states: seq<Cluster<S>>, steps: seq<Step<S>>, id: nat): nat -> bool {
    (i: nat) =>
      && i < |steps| && i < |states| && steps[i].ReadAcksStep? && steps[i].id == id
      && WholeRead(m, states[i], id, steps[i].n)
  }

  /** Step `i` is such a read and its ACK carries this offset. */
  ghost function Says<S>(m: Machine<S>, states: seq<Cluster<S>>, steps: seq<Step<S>>, id: nat): (nat, int) -> bool {
    (i: nat, offset: int) =>
      && i < |steps| && i < |states| && steps[i].ReadAcksStep? && steps[i].id == id
      && offset >= 0 && ReadsOffset(m, states[i], id, steps[i].n, offset)
  }

  /** The value is what the last event before `j` said, or 0 if there was none. */
  ghost predicate IsLatest(event: nat -> bool, says: (nat, int) -> bool, j: nat, value: int) {
    || (value == 0 && forall i: nat :: i < j ==> !event(i))
    || (exists i: nat :: i < j && event(i) && says(i, value) && forall k: nat :: i < k < j ==> !event(k))
  }

  lemma LatestNext(event: nat -> bool, says: (nat, int) -> bool, j: nat, value: int, next: int)
    requires IsLatest(event, says, j, value) && if event(j) then says(j, next) else next == value
    ensures IsLatest(event, says, j + 1, next)
  {
    if !event(j) && exists i: nat :: i < j && event(i) {
      var i: nat :| i < j && event(i) && says(i, value) && forall k: nat :: i < k < j ==> !event(k);
      assert forall k: nat :: i < k < j + 1 ==> !event(k);
    }
  }

  lemma WholeSaysSomething<S>(m: Machine<S>, c: Cluster<S>, id: nat, n: nat) returns (offset: nat)
    requires WholeRead(m, c, id, n)
    ensures ReadsOffset(m, c, id, n, offset)
  {
    var j: nat :| WholeAt(m.ack, c.nodes[id].session.acks, c.nodes[id].ackPos, n, j);
    offset := c.nodes[id].session.acks[j];
  }

  /** What a step does to the ACK recorded for a replica. */
  lemma StepRecords<S(!new)>(m: Machine<S>, c: Cluster<S>, step: Step<S>, d: Cluster<S>, id: nat) returns (offset: nat)
    requires Sound(m) && Inv(m, c) && Next(m, c, step, d) && id in c.nodes && id in d.nodes
    ensures id in c.registry.peers && id in d.registry.peers
    ensures
      if step.ReadAcksStep? && step.id == id && WholeRead(m, c, id, step.n) then
        ReadsOffset(m, c, id, step.n, offset) && d.registry.peers[id].acked == offset
      else d.registry.peers[id].acked == c.registry.peers[id].acked
  {
    offset := 0;
    IdBelowNext(m, c, id);
    StepKeepsInv(m, c, step, d);
    IdBelowNext(m, d, id);
    if step.ReadAcksStep? && step.id == id {
      if WholeRead(m, c, id, step.n) {
        offset := WholeSaysSomething(m, c, id, step.n);
        ReadRecords(m, c, id, step.n, offset);
      } else {
        BrokenReadRecordsNothing(m, c, id, step.n);
      }
    } else {
      OthersKeepAck(m, c, step, d, id);
    }
  }

  lemma AddedWithoutAck<S>(m: Machine<S>, c: Cluster<S>, step: Step<S>, d: Cluster<S>, id: nat)
    requires Next(m, c, step, d) && id !in c.nodes && id in d.nodes && id in d.registry.peers
    ensures d.registry.peers[id].acked == 0
  {}

  lemma LatestAt<S(!new)>(m: Machine<S>, states: seq<Cluster<S>>, steps: seq<Step<S>>, id: nat, i: nat)
    requires Sound(m) && IsRun(m, states, steps) && i < |steps| && id in states[i].nodes && id in states[i + 1].nodes
    ensures id in states[i].registry.peers && id in states[i + 1].registry.peers
    ensures
      var now, next := states[i].registry.peers[id].acked, states[i + 1].registry.peers[id].acked;
      if WholeReads(m, states, steps, id)(i) then Says(m, states, steps, id)(i, next) else next == now
  {
    RunKeepsInv(m, states, steps, i);
    StepAt(m, states, steps, i);
    var offset := StepRecords(m, states[i], steps[i], states[i + 1], id);
  }

  lemma AddedLatest<S(!new)>(m: Machine<S>, states: seq<Cluster<S>>, steps: seq<Step<S>>, id: nat, i: nat)
    requires Sound(m) && IsRun(m, states, steps) && i < |steps| && id !in states[i].nodes && id in states[i + 1].nodes
    ensures id in states[i + 1].registry.peers && states[i + 1].registry.peers[id].acked == 0
    ensures forall k: nat :: k < i + 1 ==> !WholeReads(m, states, steps, id)(k)
  {
    RunKeepsInv(m, states, steps, i + 1);
    IdBelowNext(m, states[i + 1], id);
    StepAt(m, states, steps, i);
    AddedWithoutAck(m, states[i], steps[i], states[i + 1], id);
    AddedAt(m, states, steps, id, i);
    forall k: nat | k < i + 1 ensures !WholeReads(m, states, steps, id)(k) {
      NotBeforeItWasAdded(m, states, steps, k, i);
    }
  }

  /**
   In every reachable state the offset recorded for a replica is the one in the ACK that the latest readable read
   from it began with, and 0 if there was none: neither stale, nor invented, nor taken from another replica.
   */
  lemma {:induction false} AckedIsTheLastRead<S(!new)>(
    m: Machine<S>, states: seq<Cluster<S>>, steps: seq<Step<S>>, id: nat, j: nat)
    requires Sound(m) && IsRun(m, states, steps) && j < |states| && id in states[j].nodes
    ensures id in states[j].registry.peers
    ensures IsLatest(
        WholeReads(m, states, steps, id), Says(m, states, steps, id), j, states[j].registry.peers[id].acked)
    decreases j
  {
    var i := j - 1;
    if id in states[i].nodes {
      AckedIsTheLastRead(m, states, steps, id, i);
      LatestAt(m, states, steps, id, i);
      LatestNext(WholeReads(m, states, steps, id), Says(m, states, steps, id), i,
                 states[i].registry.peers[id].acked, states[j].registry.peers[id].acked);
    } else {
      AddedLatest(m, states, steps, id, i);
    }
  }

  /**
   WAIT counts exactly the right replicas: one that is registered counts towards a target if and only if the latest
   readable ACK from it said at least that much, or the target is 0.
   */
  lemma CountedIffLastReadReachesTarget<S(!new)>(
    m: Machine<S>, states: seq<Cluster<S>>, steps: seq<Step<S>>, id: nat, j: nat, target: nat)
    requires Sound(m) && IsRun(m, states, steps) && j < |states|
    ensures id in AckedAtLeast(states[j].registry, target) <==>
            && id in states[j].nodes
            && exists value :: value >= target &&
                 IsLatest(WholeReads(m, states, steps, id), Says(m, states, steps, id), j, value)
  {
    RunKeepsInv(m, states, steps, j);
    if id in states[j].nodes {
      AckedIsTheLastRead(m, states, steps, id, j);
      forall value | IsLatest(WholeReads(m, states, steps, id), Says(m, states, steps, id), j, value)
        ensures value == states[j].registry.peers[id].acked
      {
        LatestIsUnique(m, states, steps, id, j, value, states[j].registry.peers[id].acked);
      }
    }
  }

  lemma SaysOneThing<S(!new)>(
    m: Machine<S>, states: seq<Cluster<S>>, steps: seq<Step<S>>, id: nat, i: nat, a: int, b: int)
    requires Sound(m) && Says(m, states, steps, id)(i, a) && Says(m, states, steps, id)(i, b)
    ensures a == b
  {
    var acks, pos, n := states[i].nodes[id].session.acks, states[i].nodes[id].ackPos, steps[i].n;
    var k: nat :| WholeAt(m.ack, acks, pos, n, k) && acks[k] == a;
    var l: nat :| WholeAt(m.ack, acks, pos, n, l) && acks[l] == b;
    WholeIsUnique(m.ack, acks, pos, n, k, l);
  }

  lemma LatestIsUnique<S(!new)>(
    m: Machine<S>, states: seq<Cluster<S>>, steps: seq<Step<S>>, id: nat, j: nat, a: int, b: int)
    requires Sound(m)
    requires IsLatest(WholeReads(m, states, steps, id), Says(m, states, steps, id), j, a)
    requires IsLatest(WholeReads(m, states, steps, id), Says(m, states, steps, id), j, b)
    ensures a == b
  {
    var event, says := WholeReads(m, states, steps, id), Says(m, states, steps, id);
    if exists i: nat :: i < j && event(i) {
      var x: nat :| x < j && event(x) && says(x, a) && forall k: nat :: x < k < j ==> !event(k);
      var y: nat :| y < j && event(y) && says(y, b) && forall k: nat :: y < k < j ==> !event(k);
      assert x == y;
      SaysOneThing(m, states, steps, id, x, a, b);
    }
  }

  // ---------------------------------------------------------------- an ACK gets through

  /** With all earlier ACKs read, a periodic ACK that is read whole tells the master the replica's present offset. */
  lemma TimerAckGetsThrough<S>(m: Machine<S>, c: Cluster<S>, id: nat)
    requires ReadsAcks(m) && Inv(m, c) && id in c.nodes && c.nodes[id].session.phase.Streaming?
    requires c.nodes[id].ackPos == |Encoded(m.ack, c.nodes[id].session.acks)|
    ensures
      var offset, sent := c.nodes[id].session.offset, TimerAck(c, id);
      var n := |m.ack(offset)|;
      && sent.nodes[id].ackPos + n <= |Encoded(m.ack, sent.nodes[id].session.acks)| && id in sent.registry.peers
      && id in AckedAtLeast(ReadAcks(m, sent, id, n).registry, offset)
      && ReadAcks(m, sent, id, n).registry.peers[id].acked == offset
  {
    IdBelowNext(m, c, id);
    TimerAckKeepsInv(m, c, id);
    var acks, offset, sent := c.nodes[id].session.acks, c.nodes[id].session.offset, TimerAck(c, id);
    EncodedSnoc(m.ack, acks, offset);
    assert (acks + [offset])[..|acks|] == acks && (acks + [offset])[..|acks| + 1] == acks + [offset];
    assert WholeAt(m.ack, acks + [offset], c.nodes[id].ackPos, |m.ack(offset)|, |acks|);
    assert m.ack(offset) != "";
    ReadRecords(m, sent, id, |m.ack(offset)|, offset);
  }
}
