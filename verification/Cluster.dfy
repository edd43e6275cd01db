/**
 A master and its replicas as a step system: writes on the master's store thread, bytes moving over
 FIFO links, sessions consuming them, replica store threads, ACKs coming back, and WAIT.
 */
module Cluster {
  import opened Base
  import opened Decimal
  import opened Resp
  import opened ReplicationLink
  import opened Session
  import opened Synchronisation
  import opened Replay
  import opened ReplicaRegistry
  import opened AckStream

  /**
   A replica. `base` is the length of the master's log when it was registered and `start` its own state
   at that time; `applied` of the posted commands have run on `store`; the master has read `ackPos` bytes of
   the ACKs it sent. `errors` counts the bytes of error replies the master wrote to it, the first of them when
   the log had length `spoiledAt`.
   */
  datatype Node<S> = Node(
    session: Session, snapshotted: bool, base: nat, start: S, applied: nat, store: S,
    ackPos: nat, spoiledAt: Option<nat>, errors: nat)

  /** A WAIT in progress: its target offset and the length of the log when it began. */
  datatype Waiting = Waiting(target: nat, wanted: nat, mark: nat)

  /**
   `log` lists every command propagated so far, GETACKs included; `initial` is the master's first state;
   `replies` holds the numbers WAITs were answered with.
   */
  datatype Cluster<S> = Cluster(
    replid: string, initial: S, store: S, log: seq<RespValue>,
    registry: Registry, nodes: map<nat, Node<S>>, waits: map<nat, Waiting>, replies: map<nat, nat>)

  ghost predicate Initial<S>(c: Cluster<S>) {
    && NoCrlf(c.replid)
    && c.store == c.initial && c.log == []
    && c.registry == Registry(0, map[], 0) && c.nodes == map[] && c.waits == map[] && c.replies == map[]
  }

  // ---------------------------------------------------------------- steps

  /** A command goes to the wire of every replica and into the log. */
  function Logged<S>(c: Cluster<S>, command: RespValue): Cluster<S> {
    c.(registry := Propagated(c.registry, Serialize(command)), log := c.log + [command])
  }

  /** A write runs on the store thread and is then propagated. */
  function Write<S>(m: Machine<S>, c: Cluster<S>, request: RespValue, now: nat): Cluster<S> {
    Logged(c.(store := m.run(c.store, request, now)), request)
  }

  function NewNode<S>(base: nat, start: S): Node<S> {
    Node(Fresh, false, base, start, 0, start, 0, None, 0)
  }

  function Register<S>(c: Cluster<S>, start: S): Cluster<S> {
    c.(registry := Added(c.registry),
       nodes := c.nodes[c.registry.nextId := NewNode(|c.log|, start)])
  }

  function WithWire(r: Registry, id: nat, wire: string): Registry
    requires id in r.peers
  {
    r.(peers := r.peers[id := r.peers[id].(wire := wire)])
  }

  /** The PSYNC reply is built from the current offset and written to the replica's socket. */
  function Snapshot<S>(c: Cluster<S>, id: nat): Cluster<S>
    requires id in c.nodes && id in c.registry.peers
  {
    c.(registry := WithWire(c.registry, id, c.registry.peers[id].wire + PsyncReply(c.replid, c.registry.offset)),
       nodes := c.nodes[id := c.nodes[id].(snapshotted := true)])
  }

  function Disconnect<S>(c: Cluster<S>, id: nat): Cluster<S> {
    c.(registry := Removed(c.registry, id), nodes := c.nodes - {id})
  }

  /** The replica reads the next `n` bytes from its socket. */
  function ReadSocket<S>(c: Cluster<S>, id: nat, n: nat): Cluster<S>
    requires id in c.nodes && id in c.registry.peers && n <= |c.registry.peers[id].wire|
  {
    var node, wire := c.nodes[id], c.registry.peers[id].wire;
    c.(registry := WithWire(c.registry, id, wire[n..]),
       nodes := c.nodes[id := node.(session := Advance(Feed(node.session, wire[..n])))])
  }

  /** The next posted command runs on the replica's store thread, under the replica's own clock. */
  function RunPosted<S>(m: Machine<S>, c: Cluster<S>, id: nat, now: nat): Cluster<S>
    requires id in c.nodes && c.nodes[id].applied < |Posted(c.nodes[id].session.taken)|
  {
    var node := c.nodes[id];
    var command := Posted(node.session.taken)[node.applied];
    c.(nodes := c.nodes[id := node.(applied := node.applied + 1, store := m.run(node.store, command, now))])
  }

  /** The replica's ACK timer fires. */
  function TimerAck<S>(c: Cluster<S>, id: nat): Cluster<S>
    requires id in c.nodes
  {
    var node := c.nodes[id];
    c.(nodes := c.nodes[id := node.(session := node.session.(acks := node.session.acks + [node.session.offset]))])
  }

  /** The replica after the master wrote it an error reply of `n` bytes, with the log at length `at`. */
  function Spoiled<S>(node: Node<S>, at: nat, n: nat): Node<S> {
    node.(spoiledAt := if node.spoiledAt.None? then Some(at) else node.spoiledAt, errors := node.errors + n)
  }

  /** The master has read `n` more bytes of a replica's ACKs and made `got` of them. */
  function TookIn<S>(c: Cluster<S>, id: nat, n: nat, got: Intake): Cluster<S>
    requires id in c.nodes && id in c.registry.peers
  {
    var node := c.nodes[id].(ackPos := c.nodes[id].ackPos + n);
    match got
    case Recorded(offset) => c.(registry := AckRecorded(c.registry, id, offset), nodes := c.nodes[id := node])
    case Complaint(bytes) =>
      c.(registry := WithWire(c.registry, id, c.registry.peers[id].wire + bytes),
         nodes := c.nodes[id := Spoiled(node, |c.log|, |bytes|)])
    case Other => c.(nodes := c.nodes[id := node])
  }

  /** The ACK bytes a replica has sent and the master has not read, cut after `n` of them. */
  function AckChunk<S>(m: Machine<S>, node: Node<S>, n: nat): string
    requires node.ackPos + n <= |Encoded(m.ack, node.session.acks)|
  {
    Encoded(m.ack, node.session.acks)[node.ackPos..node.ackPos + n]
  }

  /** The master reads the next `n` bytes of a replica's ACKs. */
  function ReadAcks<S>(m: Machine<S>, c: Cluster<S>, id: nat, n: nat): Cluster<S>
    requires id in c.nodes && id in c.registry.peers
    requires c.nodes[id].ackPos + n <= |Encoded(m.ack, c.nodes[id].session.acks)|
  {
    TookIn(c, id, n, m.takeIn(AckChunk(m, c.nodes[id], n)))
  }

  /** The reply a WAIT would give now: the number of replicas whose ACK reached its target. */
  function WaitCount<S>(c: Cluster<S>, target: nat): nat {
    |AckedAtLeast(c.registry, target)|
  }

  /** A WAIT begins; it replies at once, or sends GETACK and stays. */
  function StartWait<S>(c: Cluster<S>, w: nat, wanted: nat): Cluster<S> {
    var target := c.registry.offset;
    if WaitCount(c, target) >= wanted then c.(replies := c.replies[w := WaitCount(c, target)])
    else Logged(c.(waits := c.waits[w := Waiting(target, wanted, |c.log|)]), GetAck)
  }

  /** A poll answers the WAIT with the present count. */
  function EndWait<S>(c: Cluster<S>, w: nat): Cluster<S>
    requires w in c.waits
  {
    c.(waits := c.waits - {w}, replies := c.replies[w := WaitCount(c, c.waits[w].target)])
  }

  /**
   The hypothesis on registration: no command is propagated while some replica is registered but has
   not been sent its PSYNC reply.
   */
  predicate NoSnapshotPending<S>(c: Cluster<S>) {
    forall id :: id in c.nodes ==> c.nodes[id].snapshotted
  }

  /** Offsets stay within the master's 64-bit counter. */
  predicate Fits<S>(c: Cluster<S>, command: RespValue) {
    c.registry.offset + |Serialize(command)| <= INT64_MAX
  }

  // ---------------------------------------------------------------- the invariant

  function LinkOf(replid: string, log: seq<RespValue>, base: nat, noise: string): Link
    requires base <= |log|
  {
    Link(replid, |SerializeAll(log[..base])|, log[base..], noise)
  }

  /** The replica's link was in step up to length `at` of the log, and everything written after that is noise. */
  ghost predicate NoisyLink(
    s: Session, base: nat, errors: nat, wire: string, replid: string, log: seq<RespValue>, at: nat, noise: string)
  {
    && base <= at <= |log| && noise != ""
    && |noise| == errors + |SerializeAll(log[at..])|
    && InStep(s, wire, LinkOf(replid, log[..at], base, noise))
  }

  /** The link is in step: what is buffered and on the wire is exactly what is left of what was written. */
  ghost predicate LinkOk<S>(node: Node<S>, wire: string, replid: string, log: seq<RespValue>) {
    && node.base <= |log| && (node.errors == 0 <==> node.spoiledAt.None?)
    && if !node.snapshotted then node.base == |log| && node.session == Fresh && wire == "" && node.spoiledAt.None?
       else if node.spoiledAt.None? then InStep(node.session, wire, LinkOf(replid, log, node.base, ""))
       else
         exists noise ::
           NoisyLink(node.session, node.base, node.errors, wire, replid, log, node.spoiledAt.value, noise)
  }

  /** The replica's store is its start state with the posted commands replayed. */
  ghost predicate StoreOk<S>(m: Machine<S>, node: Node<S>) {
    && node.applied <= |Posted(node.session.taken)|
    && node.store == Replayed(m, node.start, Posted(node.session.taken)[..node.applied])
  }

  /** ACKs sent, ACKs read and the recorded ACK agree and never run ahead of the replica. */
  ghost predicate AcksOk<S>(m: Machine<S>, node: Node<S>, acked: int, log: seq<RespValue>)
    requires node.base <= |log|
  {
    && AcksInOrder(node.session)
    && GetAcksAnswered(node.session, |SerializeAll(log[..node.base])|)
    && node.ackPos <= |Encoded(m.ack, node.session.acks)|
    && 0 <= acked <= node.session.offset
    && (acked == 0 || acked in node.session.acks)
    && Pending(m.ack, node.session.acks, node.ackPos, acked)
  }

  /** No message that begins at `pos` or later carries less than `acked`. */
  ghost predicate Pending(text: Encoder, acks: seq<nat>, pos: nat, acked: int) {
    forall j :: 0 <= j < |acks| && pos <= Boundary(text, acks, j) ==> acked <= acks[j]
  }

  ghost predicate NodeOk<S>(m: Machine<S>, node: Node<S>, peer: Peer, replid: string, log: seq<RespValue>) {
    LinkOk(node, peer.wire, replid, log) && StoreOk(m, node) && AcksOk(m, node, peer.acked, log)
  }

  ghost predicate LogOk<S>(m: Machine<S>, log: seq<RespValue>) {
    forall i :: 0 <= i < |log| ==> WellFormed(log[i]) && (m.admits(log[i]) || log[i] == GetAck)
  }

  /** A WAIT's target is the offset at its start, and its GETACK is the next command of the log. */
  ghost predicate WaitsOk(waits: map<nat, Waiting>, log: seq<RespValue>) {
    forall w :: w in waits ==>
      && waits[w].mark < |log| && log[waits[w].mark] == GetAck
      && waits[w].target == |SerializeAll(log[..waits[w].mark])|
  }

  ghost predicate MasterOk<S>(m: Machine<S>, c: Cluster<S>) {
    && NoCrlf(c.replid) && LogOk(m, c.log)
    && c.registry.offset == |SerializeAll(c.log)| <= INT64_MAX
    && c.store == Replayed(m, c.initial, c.log)
  }

  /** What must hold of each replica and its registry entry, given the master's log. */
  ghost function Ok<S>(m: Machine<S>, replid: string, log: seq<RespValue>): (Node<S>, Peer) -> bool {
    (node, peer) => NodeOk(m, node, peer, replid, log)
  }

  /** The replicas that are not properly registered or for which `ok` fails. */
  ghost function Offenders<S>(nodes: map<nat, Node<S>>, r: Registry, ok: (Node<S>, Peer) -> bool): set<nat> {
    set id | id in nodes && !(id in r.peers && id < r.nextId && ok(nodes[id], r.peers[id]))
  }

  /** The registry knows exactly the replicas, and `ok` holds of each with its entry. */
  ghost predicate AllOk<S>(nodes: map<nat, Node<S>>, r: Registry, ok: (Node<S>, Peer) -> bool) {
    nodes.Keys == r.peers.Keys && Offenders(nodes, r, ok) == {}
  }

  ghost predicate NodesOk<S>(m: Machine<S>, c: Cluster<S>) {
    AllOk(c.nodes, c.registry, Ok(m, c.replid, c.log))
  }

  ghost predicate Inv<S>(m: Machine<S>, c: Cluster<S>) {
    MasterOk(m, c) && WaitsOk(c.waits, c.log) && NodesOk(m, c)
  }

  // ---------------------------------------------------------------- propagation

  lemma LogSlices(log: seq<RespValue>, command: RespValue, base: nat)
    requires base <= |log|
    ensures (log + [command])[..base] == log[..base]
    ensures (log + [command])[base..] == log[base..] + [command]
  {}

  lemma PropagateToClean<S>(node: Node<S>, wire: string, replid: string, log: seq<RespValue>, command: RespValue)
    requires LinkOk(node, wire, replid, log) && node.snapshotted && node.spoiledAt.None? && WellFormed(command)
    ensures LinkOk(node, wire + Serialize(command), replid, log + [command])
  {
    LogSlices(log, command, node.base);
    PropagateKeepsInStep(node.session, wire, LinkOf(replid, log, node.base, ""), command);
  }

  lemma PropagateToNoisy(
    s: Session, base: nat, errors: nat, wire: string, replid: string, log: seq<RespValue>, command: RespValue,
    at: nat, noise: string)
    requires NoisyLink(s, base, errors, wire, replid, log, at, noise)
    ensures
      var bytes := Serialize(command);
      NoisyLink(s, base, errors, wire + bytes, replid, log + [command], at, noise + bytes)
  {
    LogSlices(log, command, at);
    SerializeAllSnoc(log[at..], command);
    NoiseKeepsInStep(s, wire, LinkOf(replid, log[..at], base, noise), Serialize(command));
  }

  lemma PropagateKeepsLink<S>(node: Node<S>, wire: string, replid: string, log: seq<RespValue>, command: RespValue)
    requires LinkOk(node, wire, replid, log) && node.snapshotted && WellFormed(command)
    ensures LinkOk(node, wire + Serialize(command), replid, log + [command])
  {
    if node.spoiledAt.None? {
      PropagateToClean(node, wire, replid, log, command);
    } else {
      var at := node.spoiledAt.value;
      var noise :| NoisyLink(node.session, node.base, node.errors, wire, replid, log, at, noise);
      PropagateToNoisy(node.session, node.base, node.errors, wire, replid, log, command, at, noise);
    }
  }

  /** Propagating a command keeps every replica's invariant. */
  lemma PropagateKeepsNode<S>(
    m: Machine<S>, node: Node<S>, peer: Peer, replid: string, log: seq<RespValue>, command: RespValue)
    requires NodeOk(m, node, peer, replid, log) && node.snapshotted && WellFormed(command)
    ensures NodeOk(m, node, peer.(wire := peer.wire + Serialize(command)), replid, log + [command])
  {
    LogSlices(log, command, node.base);
    PropagateKeepsLink(node, peer.wire, replid, log, command);
  }

  function Longer(peer: Peer, bytes: string): Peer {
    peer.(wire := peer.wire + bytes)
  }

  lemma SentToAll<S>(
    nodes: map<nat, Node<S>>, r: Registry, bytes: string, was: (Node<S>, Peer) -> bool, ok: (Node<S>, Peer) -> bool)
    requires AllOk(nodes, r, was)
    requires forall id :: id in nodes ==> ok(nodes[id], Longer(r.peers[id], bytes))
    ensures AllOk(nodes, Propagated(r, bytes), ok)
  {
    forall id | id in nodes ensures id !in Offenders(nodes, Propagated(r, bytes), ok) {
      OneOk(nodes, r, id, was);
    }
  }

  lemma OneOk<S>(nodes: map<nat, Node<S>>, r: Registry, id: nat, ok: (Node<S>, Peer) -> bool)
    requires AllOk(nodes, r, ok) && id in nodes
    ensures id in r.peers && id < r.nextId && ok(nodes[id], r.peers[id])
  {
    assert id !in Offenders(nodes, r, ok);
  }

  lemma UpdateOne<S>(
    nodes: map<nat, Node<S>>, r: Registry, id: nat, node: Node<S>, peer: Peer, ok: (Node<S>, Peer) -> bool)
    requires AllOk(nodes, r, ok) && id in nodes && ok(node, peer)
    ensures AllOk(nodes[id := node], r.(peers := r.peers[id := peer]), ok)
  {}

  lemma UpdateNode<S>(nodes: map<nat, Node<S>>, r: Registry, id: nat, node: Node<S>, ok: (Node<S>, Peer) -> bool)
    requires AllOk(nodes, r, ok) && id in nodes && ok(node, r.peers[id])
    ensures AllOk(nodes[id := node], r, ok)
  {}

  lemma UpdateAck<S>(
    nodes: map<nat, Node<S>>, r: Registry, id: nat, node: Node<S>, acked: int, ok: (Node<S>, Peer) -> bool)
    requires AllOk(nodes, r, ok) && id in nodes && ok(node, r.peers[id].(acked := acked))
    ensures AllOk(nodes[id := node], AckRecorded(r, id, acked), ok)
  {}

  lemma LoggedKeepsNode<S>(m: Machine<S>, c: Cluster<S>, command: RespValue, id: nat)
    requires NodesOk(m, c) && NoSnapshotPending(c) && WellFormed(command) && id in c.nodes
    ensures Ok(m, c.replid, c.log + [command])(c.nodes[id], Longer(c.registry.peers[id], Serialize(command)))
  {
    OneOk(c.nodes, c.registry, id, Ok(m, c.replid, c.log));
    PropagateKeepsNode(m, c.nodes[id], c.registry.peers[id], c.replid, c.log, command);
  }

  lemma LoggedKeepsNodes<S>(m: Machine<S>, c: Cluster<S>, command: RespValue)
    requires NodesOk(m, c) && NoSnapshotPending(c) && WellFormed(command)
    ensures NodesOk(m, Logged(c, command))
  {
    forall id | id in c.nodes {
      LoggedKeepsNode(m, c, command, id);
    }
    SentToAll(c.nodes, c.registry, Serialize(command), Ok(m, c.replid, c.log), Ok(m, c.replid, c.log + [command]));
  }

  lemma LoggedKeepsMaster<S>(m: Machine<S>, c: Cluster<S>, store: S, command: RespValue)
    requires MasterOk(m, c) && WellFormed(command) && (m.admits(command) || command == GetAck)
    requires store == Apply(m, c.store, command) && Fits(c, command)
    ensures MasterOk(m, Logged(c.(store := store), command))
  {
    ReplayedSnoc(m, c.initial, c.log, command);
    SerializeAllSnoc(c.log, command);
  }

  lemma LoggedKeepsWaits(waits: map<nat, Waiting>, log: seq<RespValue>, command: RespValue)
    requires WaitsOk(waits, log)
    ensures WaitsOk(waits, log + [command])
  {
    forall w | w in waits ensures waits[w].target == |SerializeAll((log + [command])[..waits[w].mark])| {
      LogSlices(log, command, waits[w].mark);
    }
  }

  lemma WriteKeepsInv<S(!new)>(m: Machine<S>, c: Cluster<S>, request: RespValue, now: nat)
    requires Deterministic(m) && Inv(m, c) && m.admits(request) && NoSnapshotPending(c) && Fits(c, request)
    ensures Inv(m, Write(m, c, request, now))
  {
    var store := m.run(c.store, request, now);
    LoggedKeepsMaster(m, c, store, request);
    LoggedKeepsWaits(c.waits, c.log, request);
    LoggedKeepsNodes(m, c.(store := store), request);
  }

  lemma AddWait(waits: map<nat, Waiting>, log: seq<RespValue>, w: nat, wanted: nat, command: RespValue)
    requires WaitsOk(waits, log) && command == GetAck
    ensures WaitsOk(waits[w := Waiting(|SerializeAll(log)|, wanted, |log|)], log + [command])
  {
    LoggedKeepsWaits(waits, log, command);
    LogSlices(log, command, |log|);
    assert log[..|log|] == log;
  }

  lemma GetAckKeepsInv<S>(m: Machine<S>, c: Cluster<S>, w: nat, wanted: nat, command: RespValue)
    requires Inv(m, c) && NoSnapshotPending(c) && Fits(c, command)
    requires command == GetAck && WellFormed(command) && IsGetAck(command)
    ensures Inv(m, Logged(c.(waits := c.waits[w := Waiting(c.registry.offset, wanted, |c.log|)]), command))
  {
    var waiting := c.(waits := c.waits[w := Waiting(c.registry.offset, wanted, |c.log|)]);
    LoggedKeepsMaster(m, waiting, c.store, command);
    LoggedKeepsNodes(m, waiting, command);
    AddWait(c.waits, c.log, w, wanted, command);
  }

  lemma StartWaitKeepsInv<S>(m: Machine<S>, c: Cluster<S>, w: nat, wanted: nat)
    requires Inv(m, c) && NoSnapshotPending(c) && Fits(c, GetAck)
    ensures Inv(m, StartWait(c, w, wanted))
  {
    GetAckIsGetAck();
    GetAckKeepsInv(m, c, w, wanted, GetAck);
  }

  // ---------------------------------------------------------------- one replica at a time

  lemma AddOne<S>(nodes: map<nat, Node<S>>, r: Registry, node: Node<S>, ok: (Node<S>, Peer) -> bool)
    requires AllOk(nodes, r, ok) && ok(node, Peer("", 0))
    ensures AllOk(nodes[r.nextId := node], Added(r), ok)
  {}

  lemma RemoveOne<S>(nodes: map<nat, Node<S>>, r: Registry, id: nat, ok: (Node<S>, Peer) -> bool)
    requires AllOk(nodes, r, ok)
    ensures AllOk(nodes - {id}, Removed(r, id), ok)
  {}

  lemma RegisterKeepsInv<S>(m: Machine<S>, c: Cluster<S>, start: S)
    requires Inv(m, c)
    ensures Inv(m, Register(c, start))
  {
    var node := NewNode(|c.log|, start);
    assert NodeOk(m, node, Peer("", 0), c.replid, c.log);
    AddOne(c.nodes, c.registry, node, Ok(m, c.replid, c.log));
  }

  lemma SnapshotNode<S>(m: Machine<S>, node: Node<S>, peer: Peer, replid: string, log: seq<RespValue>)
    requires NodeOk(m, node, peer, replid, log) && !node.snapshotted
    requires NoCrlf(replid) && |SerializeAll(log)| <= INT64_MAX
    ensures NodeOk(m, node.(snapshotted := true), Longer(peer, PsyncReply(replid, |SerializeAll(log)|)), replid, log)
  {
    assert log[..|log|] == log && log[|log|..] == [];
    var link := LinkOf(replid, log, |log|, "");
    var reply := PsyncReply(replid, |SerializeAll(log)|);
    assert "" + reply == reply == reply + "";
    FreshInStep(reply, link);
  }

  lemma SnapshotKeepsInv<S>(m: Machine<S>, c: Cluster<S>, id: nat)
    requires Inv(m, c) && id in c.nodes && !c.nodes[id].snapshotted
    ensures Inv(m, Snapshot(c, id))
  {
    var node, peer := c.nodes[id], c.registry.peers[id];
    OneOk(c.nodes, c.registry, id, Ok(m, c.replid, c.log));
    SnapshotNode(m, node, peer, c.replid, c.log);
    UpdateOne(c.nodes, c.registry, id, node.(snapshotted := true),
              Longer(peer, PsyncReply(c.replid, c.registry.offset)), Ok(m, c.replid, c.log));
  }

  lemma DisconnectKeepsInv<S>(m: Machine<S>, c: Cluster<S>, id: nat)
    requires Inv(m, c)
    ensures Inv(m, Disconnect(c, id))
  {
    RemoveOne(c.nodes, c.registry, id, Ok(m, c.replid, c.log));
  }

  lemma StoreOkGrows<S>(m: Machine<S>, node: Node<S>, session: Session)
    requires StoreOk(m, node) && node.session.taken <= session.taken
    ensures StoreOk(m, node.(session := session))
  {
    PostedGrows(node.session.taken, session.taken);
    assert Posted(session.taken)[..node.applied] == Posted(node.session.taken)[..node.applied];
  }

  lemma PendingGrows(text: Encoder, acks: seq<nat>, more: seq<nat>, pos: nat, acked: int)
    requires Pending(text, acks, pos, acked) && acks <= more && (acked == 0 || acked in acks)
    requires forall i, j :: 0 <= i < j < |more| ==> more[i] <= more[j]
    ensures Pending(text, more, pos, acked)
  {
    forall j | 0 <= j < |more| && pos <= Boundary(text, more, j) ensures acked <= more[j] {
      if j < |acks| {
        SameBoundaries(text, acks, more, j);
      } else if acked != 0 {
        var i :| 0 <= i < |acks| && acks[i] == acked;
        assert more[i] == acked;
      }
    }
  }

  lemma AcksOkGrows<S>(m: Machine<S>, node: Node<S>, acked: int, log: seq<RespValue>, session: Session)
    requires node.base <= |log| && AcksOk(m, node, acked, log) && Grown(node.session, session)
    requires AcksInOrder(session) && GetAcksAnswered(session, |SerializeAll(log[..node.base])|)
    ensures AcksOk(m, node.(session := session), acked, log)
  {
    PendingGrows(m.ack, node.session.acks, session.acks, node.ackPos, acked);
    EncodedPrefix(m.ack, session.acks, |node.session.acks|);
    assert session.acks[..|node.session.acks|] == node.session.acks;
  }

  /** What a read off the socket gives, whatever link the bytes belong to. */
  lemma ReadFromLink(s: Session, wire: string, n: nat, link: Link)
    requires InStep(s, wire, link) && n <= |wire| && AcksInOrder(s) && GetAcksAnswered(s, link.origin)
    ensures
      var t := Advance(Feed(s, wire[..n]));
      InStep(t, wire[n..], link) && AcksInOrder(t) && GetAcksAnswered(t, link.origin) && Grown(s, t)
  {
    assert wire[..n] + wire[n..] == wire;
    ReadKeepsInStep(s, wire[..n], wire[n..], link);
    ReadKeepsAckOrder(s, wire[..n], wire[n..], link);
  }

  lemma ReadSocketLink<S>(node: Node<S>, wire: string, replid: string, log: seq<RespValue>, n: nat)
    requires LinkOk(node, wire, replid, log) && node.snapshotted && n <= |wire|
    requires AcksInOrder(node.session) && GetAcksAnswered(node.session, |SerializeAll(log[..node.base])|)
    ensures
      var t := Advance(Feed(node.session, wire[..n]));
      && LinkOk(node.(session := t), wire[n..], replid, log) && Grown(node.session, t)
      && AcksInOrder(t) && GetAcksAnswered(t, |SerializeAll(log[..node.base])|)
  {
    if node.spoiledAt.None? {
      ReadFromLink(node.session, wire, n, LinkOf(replid, log, node.base, ""));
    } else {
      var at := node.spoiledAt.value;
      var noise :| NoisyLink(node.session, node.base, node.errors, wire, replid, log, at, noise);
      assert log[..at][..node.base] == log[..node.base];
      ReadFromLink(node.session, wire, n, LinkOf(replid, log[..at], node.base, noise));
      var read := Advance(Feed(node.session, wire[..n]));
      assert NoisyLink(read, node.base, node.errors, wire[n..], replid, log, at, noise);
    }
  }

  lemma ReadSocketNode<S>(m: Machine<S>, node: Node<S>, peer: Peer, replid: string, log: seq<RespValue>, n: nat)
    requires NodeOk(m, node, peer, replid, log) && node.snapshotted && n <= |peer.wire|
    ensures
      var read := Advance(Feed(node.session, peer.wire[..n]));
      NodeOk(m, node.(session := read), peer.(wire := peer.wire[n..]), replid, log)
  {
    ReadSocketLink(node, peer.wire, replid, log, n);
    var session := Advance(Feed(node.session, peer.wire[..n]));
    StoreOkGrows(m, node, session);
    AcksOkGrows(m, node, peer.acked, log, session);
  }

  /** What a replica has consumed is a stretch of the master's log, and its offset is where that ends. */
  lemma TakenFromLog<S>(node: Node<S>, wire: string, replid: string, log: seq<RespValue>)
    requires LinkOk(node, wire, replid, log)
    ensures node.session.taken <= log[node.base..]
    ensures node.session.offset ==
            if node.session.phase.AwaitReply? then 0
            else |SerializeAll(log[..node.base])| + |SerializeAll(node.session.taken)|
    ensures !node.session.phase.Streaming? ==> node.session.taken == [] && node.session.acks == []
  {
    if node.spoiledAt.Some? {
      var at := node.spoiledAt.value;
      var noise :| NoisyLink(node.session, node.base, node.errors, wire, replid, log, at, noise);
      assert log[..at][..node.base] == log[..node.base];
      assert log[..at][node.base..] <= log[node.base..];
    }
  }

  lemma ReadSocketKeepsInv<S>(m: Machine<S>, c: Cluster<S>, id: nat, n: nat)
    requires Inv(m, c) && id in c.nodes && c.nodes[id].snapshotted && n <= |c.registry.peers[id].wire|
    ensures Inv(m, ReadSocket(c, id, n))
  {
    var node, peer := c.nodes[id], c.registry.peers[id];
    OneOk(c.nodes, c.registry, id, Ok(m, c.replid, c.log));
    ReadSocketNode(m, node, peer, c.replid, c.log, n);
    UpdateOne(c.nodes, c.registry, id, node.(session := Advance(Feed(node.session, peer.wire[..n]))),
              peer.(wire := peer.wire[n..]), Ok(m, c.replid, c.log));
  }

  /** A posted command is one the master executed, so it is admitted. */
  lemma PostedIsAdmitted<S>(m: Machine<S>, node: Node<S>, peer: Peer, replid: string, log: seq<RespValue>, i: nat)
    requires NodeOk(m, node, peer, replid, log) && LogOk(m, log) && i < |Posted(node.session.taken)|
    ensures m.admits(Posted(node.session.taken)[i])
  {
    var command := Posted(node.session.taken)[i];
    PostedAreTaken(node.session.taken);
    GetAckIsGetAck();
    TakenFromLog(node, peer.wire, replid, log);
    var k :| 0 <= k < |node.session.taken| && node.session.taken[k] == command;
    assert log[node.base + k] == log[node.base..][k] == command;
  }

  lemma RunPostedStore<S(!new)>(m: Machine<S>, node: Node<S>, command: RespValue, now: nat)
    requires Deterministic(m) && StoreOk(m, node) && node.applied < |Posted(node.session.taken)|
    requires command == Posted(node.session.taken)[node.applied] && m.admits(command)
    ensures StoreOk(m, node.(applied := node.applied + 1, store := m.run(node.store, command, now)))
  {
    var posted := Posted(node.session.taken);
    assert posted[..node.applied + 1] == posted[..node.applied] + [command];
    ReplayedSnoc(m, node.start, posted[..node.applied], command);
  }

  lemma RunPostedNode<S(!new)>(m: Machine<S>, node: Node<S>, peer: Peer, replid: string, log: seq<RespValue>, now: nat)
    requires Deterministic(m) && NodeOk(m, node, peer, replid, log) && LogOk(m, log)
    requires node.applied < |Posted(node.session.taken)|
    ensures
      var command := Posted(node.session.taken)[node.applied];
      NodeOk(m, node.(applied := node.applied + 1, store := m.run(node.store, command, now)), peer, replid, log)
  {
    PostedIsAdmitted(m, node, peer, replid, log, node.applied);
    RunPostedStore(m, node, Posted(node.session.taken)[node.applied], now);
  }

  lemma RunPostedKeepsInv<S(!new)>(m: Machine<S>, c: Cluster<S>, id: nat, now: nat)
    requires Deterministic(m) && Inv(m, c) && id in c.nodes
    requires c.nodes[id].applied < |Posted(c.nodes[id].session.taken)|
    ensures Inv(m, RunPosted(m, c, id, now))
  {
    var node, peer := c.nodes[id], c.registry.peers[id];
    OneOk(c.nodes, c.registry, id, Ok(m, c.replid, c.log));
    RunPostedNode(m, node, peer, c.replid, c.log, now);
    var command := Posted(node.session.taken)[node.applied];
    UpdateNode(c.nodes, c.registry, id, node.(applied := node.applied + 1, store := m.run(node.store, command, now)),
               Ok(m, c.replid, c.log));
  }

  lemma AckKeepsLink<S>(node: Node<S>, wire: string, replid: string, log: seq<RespValue>, session: Session)
    requires LinkOk(node, wire, replid, log) && node.session.phase.Streaming?
    requires session == node.session.(acks := session.acks)
    ensures LinkOk(node.(session := session), wire, replid, log)
  {
    if node.spoiledAt.Some? {
      var at := node.spoiledAt.value;
      var noise :| NoisyLink(node.session, node.base, node.errors, wire, replid, log, at, noise);
      assert NoisyLink(session, node.base, node.errors, wire, replid, log, at, noise);
    }
  }

  lemma TimerAckNode<S>(m: Machine<S>, node: Node<S>, peer: Peer, replid: string, log: seq<RespValue>)
    requires NodeOk(m, node, peer, replid, log) && node.session.phase.Streaming?
    ensures
      var session := node.session.(acks := node.session.acks + [node.session.offset]);
      NodeOk(m, node.(session := session), peer, replid, log)
  {
    var session := node.session.(acks := node.session.acks + [node.session.offset]);
    AckKeepsOrder(node.session, session);
    assert GetAcksAnswered(session, |SerializeAll(log[..node.base])|);
    AcksOkGrows(m, node, peer.acked, log, session);
    AckKeepsLink(node, peer.wire, replid, log, session);
  }

  lemma TimerAckKeepsInv<S>(m: Machine<S>, c: Cluster<S>, id: nat)
    requires Inv(m, c) && id in c.nodes && c.nodes[id].session.phase.Streaming?
    ensures Inv(m, TimerAck(c, id))
  {
    var node, peer := c.nodes[id], c.registry.peers[id];
    OneOk(c.nodes, c.registry, id, Ok(m, c.replid, c.log));
    TimerAckNode(m, node, peer, c.replid, c.log);
    var session := node.session.(acks := node.session.acks + [node.session.offset]);
    UpdateNode(c.nodes, c.registry, id, node.(session := session), Ok(m, c.replid, c.log));
  }

  /** A replica never counts more bytes than the master propagated. */
  lemma OffsetWithinLog<S>(m: Machine<S>, node: Node<S>, peer: Peer, replid: string, log: seq<RespValue>)
    requires NodeOk(m, node, peer, replid, log)
    ensures node.session.offset <= |SerializeAll(log)|
  {
    TakenFromLog(node, peer.wire, replid, log);
    StretchOfLog(log, node.base, node.session.taken);
  }

  lemma StretchOfLog(log: seq<RespValue>, base: nat, taken: seq<RespValue>)
    requires base <= |log| && taken <= log[base..]
    ensures |SerializeAll(log)| ==
            |SerializeAll(log[..base])| + |SerializeAll(taken)| + |SerializeAll(log[base..][|taken|..])|
  {
    SerializeAllConcat(log[..base], log[base..]);
    assert log[..base] + log[base..] == log;
    SerializeAllConcat(taken, log[base..][|taken|..]);
    assert taken + log[base..][|taken|..] == log[base..];
  }

  // ---------------------------------------------------------------- the master reads ACK bytes

  /** Recording the message a read begins with never lowers the recorded offset. */
  lemma RecordKeepsPending(text: Encoder, acks: seq<nat>, pos: nat, n: nat, acked: int, j: nat)
    requires NonEmpty(text) && Pending(text, acks, pos, acked) && WholeAt(text, acks, pos, n, j)
    requires forall i, k :: 0 <= i < k < |acks| ==> acks[i] <= acks[k]
    ensures acked <= acks[j] && Pending(text, acks, pos + n, acks[j])
  {
    forall k | 0 <= k < |acks| && pos + n <= Boundary(text, acks, k) ensures acks[j] <= acks[k] {
      if k < j {
        BoundariesIncrease(text, acks, k, j);
      }
    }
  }

  lemma RecordedNode<S>(m: Machine<S>, node: Node<S>, peer: Peer, replid: string, log: seq<RespValue>, n: nat, j: nat)
    requires NonEmpty(m.ack) && NodeOk(m, node, peer, replid, log)
    requires WholeAt(m.ack, node.session.acks, node.ackPos, n, j)
    requires node.ackPos + n <= |Encoded(m.ack, node.session.acks)|
    ensures peer.acked <= node.session.acks[j]
    ensures NodeOk(m, node.(ackPos := node.ackPos + n), peer.(acked := node.session.acks[j]), replid, log)
  {
    RecordKeepsPending(m.ack, node.session.acks, node.ackPos, n, peer.acked, j);
  }

  /** An error reply makes the link noisy, or noisier. */
  lemma ComplaintKeepsLink<S>(node: Node<S>, wire: string, replid: string, log: seq<RespValue>, bytes: string)
    requires LinkOk(node, wire, replid, log) && node.snapshotted && bytes != "" && bytes[0] == '-'
    ensures LinkOk(Spoiled(node, |log|, |bytes|), wire + bytes, replid, log)
  {
    var after := Spoiled(node, |log|, |bytes|);
    if node.spoiledAt.None? {
      assert log[..|log|] == log && log[|log|..] == [];
      assert "" + bytes == bytes;
      NoiseKeepsInStep(node.session, wire, LinkOf(replid, log, node.base, ""), bytes);
      assert NoisyLink(after.session, after.base, after.errors, wire + bytes, replid, log, |log|, bytes);
    } else {
      var at := node.spoiledAt.value;
      var noise :| NoisyLink(node.session, node.base, node.errors, wire, replid, log, at, noise);
      NoiseKeepsInStep(node.session, wire, LinkOf(replid, log[..at], node.base, noise), bytes);
      assert NoisyLink(after.session, after.base, after.errors, wire + bytes, replid, log, at, noise + bytes);
    }
  }

  lemma ComplaintNode<S>(
    m: Machine<S>, node: Node<S>, peer: Peer, replid: string, log: seq<RespValue>, n: nat, bytes: string)
    requires NodeOk(m, node, peer, replid, log) && bytes != "" && bytes[0] == '-'
    requires 0 < n && node.ackPos + n <= |Encoded(m.ack, node.session.acks)|
    ensures NodeOk(m, Spoiled(node.(ackPos := node.ackPos + n), |log|, |bytes|), Longer(peer, bytes), replid, log)
  {
    assert node.session.acks != [];
    ComplaintKeepsLink(node.(ackPos := node.ackPos + n), peer.wire, replid, log, bytes);
  }

  lemma AcksFit<S>(m: Machine<S>, c: Cluster<S>, id: nat)
    requires Inv(m, c) && id in c.nodes
    ensures AllFit(c.nodes[id].session.acks)
  {
    OneOk(c.nodes, c.registry, id, Ok(m, c.replid, c.log));
    OffsetWithinLog(m, c.nodes[id], c.registry.peers[id], c.replid, c.log);
  }

  /** Reading ACKs concerns one replica and its registry entry only. */
  lemma TookInKeepsMaster<S>(m: Machine<S>, c: Cluster<S>, id: nat, n: nat, got: Intake)
    requires MasterOk(m, c) && WaitsOk(c.waits, c.log) && id in c.nodes && id in c.registry.peers
    ensures
      var d := TookIn(c, id, n, got);
      MasterOk(m, d) && WaitsOk(d.waits, d.log) && d.replid == c.replid && d.log == c.log
  {}

  lemma RecordedKeepsInv<S>(m: Machine<S>, c: Cluster<S>, id: nat, n: nat, j: nat)
    requires NonEmpty(m.ack) && Inv(m, c) && id in c.nodes
    requires WholeAt(m.ack, c.nodes[id].session.acks, c.nodes[id].ackPos, n, j)
    requires c.nodes[id].ackPos + n <= |Encoded(m.ack, c.nodes[id].session.acks)|
    ensures c.registry.peers[id].acked <= c.nodes[id].session.acks[j]
    ensures Inv(m, TookIn(c, id, n, Recorded(c.nodes[id].session.acks[j])))
  {
    var node, peer := c.nodes[id], c.registry.peers[id];
    OneOk(c.nodes, c.registry, id, Ok(m, c.replid, c.log));
    RecordedNode(m, node, peer, c.replid, c.log, n, j);
    UpdateAck(c.nodes, c.registry, id, node.(ackPos := node.ackPos + n), node.session.acks[j], Ok(m, c.replid, c.log));
    TookInKeepsMaster(m, c, id, n, Recorded(node.session.acks[j]));
  }

  lemma ComplaintOk<S>(m: Machine<S>, c: Cluster<S>, id: nat, n: nat, bytes: string)
    requires NodesOk(m, c) && id in c.nodes && bytes != "" && bytes[0] == '-'
    requires 0 < n && c.nodes[id].ackPos + n <= |Encoded(m.ack, c.nodes[id].session.acks)|
    ensures Ok(m, c.replid, c.log)(Spoiled(c.nodes[id].(ackPos := c.nodes[id].ackPos + n), |c.log|, |bytes|),
                                   Longer(c.registry.peers[id], bytes))
  {
    OneOk(c.nodes, c.registry, id, Ok(m, c.replid, c.log));
    ComplaintNode(m, c.nodes[id], c.registry.peers[id], c.replid, c.log, n, bytes);
  }

  lemma ComplaintUpdates<S>(c: Cluster<S>, id: nat, n: nat, bytes: string, ok: (Node<S>, Peer) -> bool)
    requires AllOk(c.nodes, c.registry, ok) && id in c.nodes
    requires ok(Spoiled(c.nodes[id].(ackPos := c.nodes[id].ackPos + n), |c.log|, |bytes|),
                Longer(c.registry.peers[id], bytes))
    ensures var d := TookIn(c, id, n, Complaint(bytes)); AllOk(d.nodes, d.registry, ok)
  {
    UpdateOne(c.nodes, c.registry, id, Spoiled(c.nodes[id].(ackPos := c.nodes[id].ackPos + n), |c.log|, |bytes|),
              Longer(c.registry.peers[id], bytes), ok);
  }

  lemma ComplaintKeepsInv<S>(m: Machine<S>, c: Cluster<S>, id: nat, n: nat, bytes: string)
    requires Inv(m, c) && id in c.nodes && bytes != "" && bytes[0] == '-'
    requires 0 < n && c.nodes[id].ackPos + n <= |Encoded(m.ack, c.nodes[id].session.acks)|
    ensures Inv(m, TookIn(c, id, n, Complaint(bytes)))
  {
    ComplaintOk(m, c, id, n, bytes);
    ComplaintUpdates(c, id, n, bytes, Ok(m, c.replid, c.log));
    TookInKeepsMaster(m, c, id, n, Complaint(bytes));
  }

  /** What a read of ACK bytes comes to, and how it shows in the recorded offset and the error bytes. */
  lemma ReadAcksIs<S>(m: Machine<S>, c: Cluster<S>, id: nat, n: nat) returns (got: Intake)
    requires ReadsAcks(m) && Inv(m, c) && id in c.nodes && 0 < n
    requires c.nodes[id].ackPos + n <= |Encoded(m.ack, c.nodes[id].session.acks)|
    ensures ReadAcks(m, c, id, n) == TookIn(c, id, n, got)
    ensures IntakeOk(m.ack, c.nodes[id].session.acks, c.nodes[id].ackPos, n, got)
  {
    AcksFit(m, c, id);
    got := m.takeIn(AckChunk(m, c.nodes[id], n));
    assert ReadOk(m.ack, m.takeIn, c.nodes[id].session.acks, c.nodes[id].ackPos, n);
  }

  /** Reading any number of ACK bytes keeps the invariant and never lowers the recorded offset. */
  lemma ReadAcksKeepsInv<S>(m: Machine<S>, c: Cluster<S>, id: nat, n: nat)
    requires ReadsAcks(m) && Inv(m, c) && id in c.nodes && 0 < n
    requires c.nodes[id].ackPos + n <= |Encoded(m.ack, c.nodes[id].session.acks)|
    ensures Inv(m, ReadAcks(m, c, id, n))
    ensures c.registry.peers[id].acked <= ReadAcks(m, c, id, n).registry.peers[id].acked
  {
    var got := ReadAcksIs(m, c, id, n);
    match got
    case Recorded(offset) =>
      var j: nat :| WholeAt(m.ack, c.nodes[id].session.acks, c.nodes[id].ackPos, n, j) &&
          offset == c.nodes[id].session.acks[j];
      RecordedKeepsInv(m, c, id, n, j);
    case Complaint(bytes) => ComplaintKeepsInv(m, c, id, n, bytes);
  }
}
