/**
 A master that serves clients, with MULTI and EXEC, while its replicas follow: every request is, for the
 cluster, the writes it ran, one after the other.
 */
module ServingMaster {
  import opened Decimal
  import opened Resp
  import opened Session
  import opened Replay
  import opened Cluster
  import opened ClusterRuns
  import T = Transactions
  import TR = TransactionRuns
  import M = Mirroring

  /** The transaction side and the replication side of one server. */
  datatype Joint<S, D, C> = Joint(server: T.Server<S, C>, cluster: Cluster<D>)

  datatype JointStep<S, D, C> = Client(request: TR.Step<S, C>) | Link(step: Step<D>)

  /** The cluster after the writes of one request. */
  ghost function Written<D>(m: Machine<D>, c: Cluster<D>, writes: seq<RespValue>): Cluster<D> {
    if writes == [] then c
    else
      var n := |writes| - 1;
      Write(m, Written(m, c, writes[..n]), writes[n], 0)
  }

  ghost predicate Writable<D>(m: Machine<D>, c: Cluster<D>, writes: seq<RespValue>) {
    && (writes != [] ==> NoSnapshotPending(c))
    && (forall i :: 0 <= i < |writes| ==> m.admits(writes[i]))
    && c.registry.offset + |SerializeAll(writes)| <= INT64_MAX
  }

  /**
   A client's request runs and its writes are propagated; or something happens on the links that is no write
   of a client.
   */
  ghost predicate JointNext<S, D, C>(
    m: Machine<D>, e: T.Engine<S>, ok: RespValue -> bool,
    a: Joint<S, D, C>, step: JointStep<S, D, C>, b: Joint<S, D, C>)
  {
    match step
    case Client(request) =>
      && TR.Next(e, a.server, request, b.server) && M.StepMirrored(e, ok, request)
      && Writable(m, a.cluster, M.LogStep(e, a.server, request))
      && b.cluster == Written(m, a.cluster, M.LogStep(e, a.server, request))
    case Link(other) => b.server == a.server && !other.WriteStep? && Next(m, a.cluster, other, b.cluster)
  }

  ghost predicate IsJointRun<S, D, C>(
    m: Machine<D>, e: T.Engine<S>, g: M.Image<S, D>, ok: RespValue -> bool,
    states: seq<Joint<S, D, C>>, steps: seq<JointStep<S, D, C>>)
  {
    && |states| == |steps| + 1 && Initial(states[0].cluster) && states[0].server.conns == map[]
    && g.calm(states[0].server.store) && states[0].cluster.store == g.of(states[0].server.store)
    && forall i :: 0 <= i < |steps| ==> JointNext(m, e, ok, states[i], steps[i], states[i + 1])
  }

  /** Each replica was registered with the data the master had at that moment. */
  ghost predicate EqualJointStarts<S, D, C>(states: seq<Joint<S, D, C>>, steps: seq<JointStep<S, D, C>>)
    requires |states| == |steps| + 1
  {
    forall i :: 0 <= i < |steps| ==> EqualStart(states[i].cluster, steps[i])
  }

  ghost predicate EqualStart<S, D, C>(c: Cluster<D>, step: JointStep<S, D, C>) {
    step.Link? && step.step.RegisterStep? ==> step.step.start == c.store
  }

  // ---------------------------------------------------------------- the writes of a request as a run

  /** One more step on a run gives a run. */
  lemma RunGrows<D>(m: Machine<D>, states: seq<Cluster<D>>, steps: seq<Step<D>>, step: Step<D>, d: Cluster<D>)
    requires IsRun(m, states, steps) && Next(m, states[|steps|], step, d)
    ensures IsRun(m, states + [d], steps + [step])
  {
    var longer, more := states + [d], steps + [step];
    forall i | 0 <= i < |more| ensures i !in Missteps(m, longer, more) {
      if i < |steps| {
        StepAt(m, states, steps, i);
      }
    }
  }

  lemma WrittenKeeps<D>(m: Machine<D>, c: Cluster<D>, writes: seq<RespValue>)
    ensures
      var d := Written(m, c, writes);
      && d.nodes == c.nodes && d.registry.offset == c.registry.offset + |SerializeAll(writes)|
  {
    if writes != [] {
      var n := |writes| - 1;
      WrittenKeeps(m, c, writes[..n]);
      assert writes == writes[..n] + [writes[n]];
      SerializeAllSnoc(writes[..n], writes[n]);
    }
  }

  lemma WritableGrows<D>(m: Machine<D>, c: Cluster<D>, writes: seq<RespValue>)
    requires Writable(m, c, writes) && writes != []
    ensures Writable(m, c, writes[..|writes| - 1])
    ensures Fits(Written(m, c, writes[..|writes| - 1]), writes[|writes| - 1])
    ensures NoSnapshotPending(Written(m, c, writes[..|writes| - 1]))
  {
    var n := |writes| - 1;
    WrittenKeeps(m, c, writes[..n]);
    assert writes == writes[..n] + [writes[n]];
    SerializeAllSnoc(writes[..n], writes[n]);
  }

  /** The writes of a request, one after the other, are steps of the cluster. */
  lemma {:induction false} WritesAreSteps<D>(
    m: Machine<D>, states: seq<Cluster<D>>, steps: seq<Step<D>>, writes: seq<RespValue>)
    returns (longer: seq<Cluster<D>>, more: seq<Step<D>>)
    requires IsRun(m, states, steps) && Writable(m, states[|steps|], writes)
    ensures IsRun(m, longer, more) && longer[|more|] == Written(m, states[|steps|], writes)
    ensures EqualStarts(states, steps) ==> EqualStarts(longer, more)
    decreases |writes|
  {
    if writes == [] {
      longer, more := states, steps;
    } else {
      var n := |writes| - 1;
      WritableGrows(m, states[|steps|], writes);
      var some, fewer := WritesAreSteps(m, states, steps, writes[..n]);
      var d := Written(m, states[|steps|], writes);
      RunGrows(m, some, fewer, WriteStep(writes[n], 0), d);
      longer, more := some + [d], fewer + [WriteStep(writes[n], 0)];
    }
  }

  lemma {:induction false} WrittenStore<D(!new)>(m: Machine<D>, c: Cluster<D>, writes: seq<RespValue>)
    requires Deterministic(m) && forall i :: 0 <= i < |writes| ==> m.admits(writes[i])
    ensures Written(m, c, writes).store == Replayed(m, c.store, writes)
    decreases |writes|
  {
    if writes != [] {
      WrittenStore(m, c, writes[..|writes| - 1]);
    }
  }

  // ---------------------------------------------------------------- every joint run

  lemma OtherStepsKeepStore<D>(m: Machine<D>, c: Cluster<D>, step: Step<D>, d: Cluster<D>)
    requires Next(m, c, step, d) && !step.WriteStep?
    ensures d.store == c.store
  {}

  /** The two sides agree: the cluster's store is the image of the server's. */
  ghost predicate Agree<S, D, C>(g: M.Image<S, D>, ok: RespValue -> bool, a: Joint<S, D, C>) {
    g.calm(a.server.store) && a.cluster.store == g.of(a.server.store) && TR.QueuesMeet(ok, a.server.conns)
  }

  lemma StepKeepsAgreement<S(!new), D(!new), C>(
    m: Machine<D>, e: T.Engine<S>, g: M.Image<S, D>, ok: RespValue -> bool,
    a: Joint<S, D, C>, step: JointStep<S, D, C>, b: Joint<S, D, C>)
    requires Deterministic(m) && M.Mirrors(m, e, g, ok) && Agree(g, ok, a) && JointNext(m, e, ok, a, step, b)
    ensures Agree(g, ok, b)
  {
    match step
    case Client(request) =>
      M.StepImage(m, e, g, ok, a.server, request, b.server);
      WrittenStore(m, a.cluster, M.LogStep(e, a.server, request));
    case Link(other) => OtherStepsKeepStore(m, a.cluster, other, b.cluster);
  }

  /** A joint step is a number of cluster steps. */
  lemma JointStepIsRun<S, D, C>(
    m: Machine<D>, e: T.Engine<S>, ok: RespValue -> bool,
    a: Joint<S, D, C>, step: JointStep<S, D, C>, b: Joint<S, D, C>,
    states: seq<Cluster<D>>, steps: seq<Step<D>>) returns (longer: seq<Cluster<D>>, more: seq<Step<D>>)
    requires JointNext(m, e, ok, a, step, b) && IsRun(m, states, steps) && states[|steps|] == a.cluster
    ensures IsRun(m, longer, more) && longer[|more|] == b.cluster
    ensures EqualStarts(states, steps) && EqualStart(a.cluster, step) ==> EqualStarts(longer, more)
  {
    match step
    case Client(request) => longer, more := WritesAreSteps(m, states, steps, M.LogStep(e, a.server, request));
    case Link(other) =>
      RunGrows(m, states, steps, other, b.cluster);
      longer, more := states + [b.cluster], steps + [other];
  }

  /**
   A master serving clients is a master of the cluster theorems: whatever its clients do, in transactions or not,
   the replication side of every reachable state is reached by a run of the cluster, and its store is the image
   of the server's.
   */
  lemma {:induction false} ServingIsAClusterRun<S(!new), D(!new), C>(
    m: Machine<D>, e: T.Engine<S>, g: M.Image<S, D>, ok: RespValue -> bool,
    joints: seq<Joint<S, D, C>>, jointSteps: seq<JointStep<S, D, C>>, i: nat)
    returns (states: seq<Cluster<D>>, steps: seq<Step<D>>)
    requires Deterministic(m) && M.Mirrors(m, e, g, ok) && IsJointRun(m, e, g, ok, joints, jointSteps) && i < |joints|
    ensures IsRun(m, states, steps) && states[|steps|] == joints[i].cluster && Agree(g, ok, joints[i])
    ensures EqualJointStarts(joints, jointSteps) ==> EqualStarts(states, steps)
    decreases i
  {
    if i == 0 {
      states, steps := [joints[0].cluster], [];
      assert Missteps(m, states, steps) == {};
    } else {
      var some, fewer := ServingIsAClusterRun(m, e, g, ok, joints, jointSteps, i - 1);
      StepKeepsAgreement(m, e, g, ok, joints[i - 1], jointSteps[i - 1], joints[i]);
      states, steps := JointStepIsRun(m, e, ok, joints[i - 1], jointSteps[i - 1], joints[i], some, fewer);
    }
  }

  /** The bytes on the way to a replica account for exactly what the clients' writes, WAITs and error replies sent. */
  lemma ServingConservesBytes<S(!new), D(!new), C>(
    m: Machine<D>, e: T.Engine<S>, g: M.Image<S, D>, ok: RespValue -> bool,
    joints: seq<Joint<S, D, C>>, jointSteps: seq<JointStep<S, D, C>>, i: nat, id: nat)
    requires Sound(m) && M.Mirrors(m, e, g, ok) && IsJointRun(m, e, g, ok, joints, jointSteps) && i < |joints|
    requires id in joints[i].cluster.nodes && joints[i].cluster.nodes[id].session.phase.Streaming?
    ensures
      var c := joints[i].cluster;
      && id in c.registry.peers
      && c.registry.offset + c.nodes[id].errors ==
         c.nodes[id].session.offset + |c.nodes[id].session.buf| + |c.registry.peers[id].wire|
  {
    var states, steps := ServingIsAClusterRun(m, e, g, ok, joints, jointSteps, i);
    BytesAreConserved(m, states, steps, |steps|, id);
  }

  /**
   A replica that has consumed everything the master propagated, and run it, holds exactly the data the
   clients' commands and transactions left on the master.
   */
  lemma CaughtUpReplicaHoldsTheServersData<S(!new), D(!new), C>(
    m: Machine<D>, e: T.Engine<S>, g: M.Image<S, D>, ok: RespValue -> bool,
    joints: seq<Joint<S, D, C>>, jointSteps: seq<JointStep<S, D, C>>, i: nat, id: nat)
    requires Sound(m) && M.Mirrors(m, e, g, ok) && IsJointRun(m, e, g, ok, joints, jointSteps) && i < |joints|
    requires EqualJointStarts(joints, jointSteps)
    requires id in joints[i].cluster.nodes && joints[i].cluster.nodes[id].session.phase.Streaming?
    requires joints[i].cluster.nodes[id].session.offset == joints[i].cluster.registry.offset
    requires joints[i].cluster.nodes[id].applied == |Posted(joints[i].cluster.nodes[id].session.taken)|
    ensures joints[i].cluster.nodes[id].store == g.of(joints[i].server.store)
  {
    var states, steps := ServingIsAClusterRun(m, e, g, ok, joints, jointSteps, i);
    CaughtUpReplicaIsTheMaster(m, states, steps, |steps|, id);
  }
}

/** The same for the server's own commands. */
module RedisServing {
  import opened StoreData
  import opened Session
  import opened RedisMachine
  import opened RedisCluster
  import opened ServingMaster
  import RT = RedisTransactions
  import RepT = ReplicatedTransactions

  lemma RedisReplicaHoldsTheServersData<C>(
    joints: seq<Joint<RT.World, Data, C>>, steps: seq<JointStep<RT.World, Data, C>>, i: nat, id: nat)
    requires IsJointRun(Redis, RT.RedisEngine, RepT.DataImage, RepT.Repeatable, joints, steps) && i < |joints|
    requires EqualJointStarts(joints, steps)
    requires id in joints[i].cluster.nodes && joints[i].cluster.nodes[id].session.phase.Streaming?
    requires joints[i].cluster.nodes[id].session.offset == joints[i].cluster.registry.offset
    requires joints[i].cluster.nodes[id].applied == |Posted(joints[i].cluster.nodes[id].session.taken)|
    ensures joints[i].cluster.nodes[id].store == joints[i].server.store.data
  {
    RedisIsSound();
    RepT.RedisMirrors();
    CaughtUpReplicaHoldsTheServersData(Redis, RT.RedisEngine, RepT.DataImage, RepT.Repeatable, joints, steps, i, id);
  }
}
