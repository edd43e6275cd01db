/**
 Transactions and replication together: what the master did, whether command by command or inside EXEC,
 is exactly what replaying the propagated bytes does.
 */
module Mirroring {
  import opened Base
  import opened Resp
  import opened Commands
  import opened Replay
  import opened Transactions
  import opened TransactionRuns

  /** What a replica repeats of the master's store, while the store is `calm`: no client is blocked. */
  datatype Image<!S, !D> = Image(of: S -> D, calm: S -> bool)

  /** Of the requests in `ok`, a replica's machine repeats every write and misses nothing else. */
  ghost predicate Mirrors<S(!new), D>(m: Machine<D>, e: Engine<S>, g: Image<S, D>, ok: RespValue -> bool) {
    && (forall v :: ok(v) ==> IsRequest(v))
    && (forall store, v, now | ok(v) && IsRequest(v) && g.calm(store) ::
          && g.calm(EffectOf(e, store, v, now).store)
          && g.of(EffectOf(e, store, v, now).store) ==
             if IsWrite(e.kind(v)) then Apply(m, g.of(store), v) else g.of(store))
  }

  predicate AllOk(ok: RespValue -> bool, queue: seq<RespValue>) {
    forall i :: 0 <= i < |queue| ==> ok(queue[i])
  }

  /** Replaying `log` from `initial` gives the store, and its bytes are what was propagated after `before`. */
  ghost predicate Follows<S, D, T>(
    m: Machine<D>, g: Image<S, D>, s: Server<S, T>, initial: D, before: string, log: seq<RespValue>)
  {
    g.calm(s.store) && g.of(s.store) == Replayed(m, initial, log) && s.stream == before + SerializeAll(log)
  }

  function Logged<S>(e: Engine<S>, request: RespValue): seq<RespValue> {
    if IsWrite(e.kind(request)) then [request] else []
  }

  lemma RanFollows<S(!new), D, T>(
    m: Machine<D>, e: Engine<S>, g: Image<S, D>, ok: RespValue -> bool, s: Server<S, T>,
    initial: D, before: string, log: seq<RespValue>,
    request: RespValue, now: nat)
    requires Mirrors(m, e, g, ok) && Follows(m, g, s, initial, before, log) && ok(request)
    ensures Follows(m, g, Ran(e, s, request, now), initial, before, log + Logged(e, request))
  {
    if IsWrite(e.kind(request)) {
      ReplayedSnoc(m, initial, log, request);
      SerializeAllSnoc(log, request);
      Assoc(before, SerializeAll(log), Serialize(request));
    } else {
      assert log + [] == log;
      assert s.stream + "" == s.stream;
    }
  }

  /** EXEC's commands are propagated just as if they had run one by one. */
  lemma {:induction false} RanAllFollows<S(!new), D, T>(
    m: Machine<D>, e: Engine<S>, g: Image<S, D>, ok: RespValue -> bool, s: Server<S, T>,
    initial: D, before: string, log: seq<RespValue>,
    queue: seq<RespValue>, clock: nat -> nat)
    requires Mirrors(m, e, g, ok) && Follows(m, g, s, initial, before, log) && AllOk(ok, queue) && AllOrdinary(e, queue)
    ensures Follows(m, g, RanAll(e, s, queue, clock), initial, before, log + Writes(e, queue))
  {
    if queue == [] {
      assert log + [] == log;
    } else {
      var n := |queue| - 1;
      RanAllFollows(m, e, g, ok, s, initial, before, log, queue[..n], clock);
      var ran := RanAll(e, s, queue[..n], clock);
      RanFollows(m, e, g, ok, ran, initial, before, log + Writes(e, queue[..n]), queue[n], clock(n));
      assert (log + Writes(e, queue[..n])) + Logged(e, queue[n]) == log + (Writes(e, queue[..n]) + Logged(e, queue[n]));
    }
  }

  /** What one request adds to the log. */
  ghost function LogStep<S, T>(e: Engine<S>, s: Server<S, T>, step: Step<S, T>): seq<RespValue> {
    if !(step.Request? && step.c in s.conns && AllOrdinary(e, s.conns[step.c].queue)) then []
    else
      var conn, kind := s.conns[step.c], e.kind(step.request);
      if kind == Exec then (if conn.active && !conn.dirty then Writes(e, conn.queue) else [])
      else if IsTransactionControl(kind) || conn.active then []
      else Logged(e, step.request)
  }

  ghost predicate StepMirrored<S, T>(e: Engine<S>, ok: RespValue -> bool, step: Step<S, T>) {
    !step.Quiet? && StepMeets(e, ok, step)
  }

  lemma ExecFollows<S(!new), D, T>(
    m: Machine<D>, e: Engine<S>, g: Image<S, D>, ok: RespValue -> bool, s: Server<S, T>,
    initial: D, before: string, log: seq<RespValue>, c: T, clock: nat -> nat)
    requires Mirrors(m, e, g, ok) && Follows(m, g, s, initial, before, log) && c in s.conns
    requires AllOk(ok, s.conns[c].queue) && AllOrdinary(e, s.conns[c].queue)
    ensures
      var conn := s.conns[c];
      var writes := if conn.active && !conn.dirty then Writes(e, conn.queue) else [];
      Follows(m, g, DoExec(e, s, c, clock).server, initial, before, log + writes)
  {
    assert log + [] == log;
    RanAllFollows(m, e, g, ok, Reset(s, c), initial, before, log, s.conns[c].queue, clock);
  }

  lemma OrdinaryFollows<S(!new), D, T>(
    m: Machine<D>, e: Engine<S>, g: Image<S, D>, ok: RespValue -> bool, s: Server<S, T>,
    initial: D, before: string, log: seq<RespValue>,
    c: T, request: RespValue, now: nat)
    requires Mirrors(m, e, g, ok) && Follows(m, g, s, initial, before, log) && c in s.conns && ok(request)
    ensures
      var writes := if s.conns[c].active then [] else Logged(e, request);
      Follows(m, g, DoOrdinary(e, s, c, request, now).server, initial, before, log + writes)
  {
    assert log + [] == log;
    RanFollows(m, e, g, ok, s, initial, before, log, request, now);
  }

  lemma StepFollows<S(!new), D, T>(
    m: Machine<D>, e: Engine<S>, g: Image<S, D>, ok: RespValue -> bool,
    s: Server<S, T>, step: Step<S, T>, t: Server<S, T>,
    initial: D, before: string, log: seq<RespValue>)
    requires Mirrors(m, e, g, ok) && Follows(m, g, s, initial, before, log) && QueuesMeet(ok, s.conns)
    requires Next(e, s, step, t) && StepMirrored(e, ok, step)
    ensures Follows(m, g, t, initial, before, log + LogStep(e, s, step))
  {
    assert log + [] == log;
    if step.Request? {
      if e.kind(step.request) == Exec {
        ExecFollows(m, e, g, ok, s, initial, before, log, step.c, step.clock);
      } else if IsOrdinary(e, step.request) {
        OrdinaryFollows(m, e, g, ok, s, initial, before, log, step.c, step.request, step.clock(0));
      }
    }
  }

  // ---------------------------------------------------------------- runs

  /** Everything propagated by the first `i` steps. */
  ghost function LogAfter<S, T>(e: Engine<S>, states: seq<Server<S, T>>, steps: seq<Step<S, T>>, i: nat): seq<RespValue>
    requires i <= |steps| < |states|
  {
    if i == 0 then [] else LogAfter(e, states, steps, i - 1) + LogStep(e, states[i - 1], steps[i - 1])
  }

  /** The log follows the server, and everything still queued can be mirrored too. */
  ghost predicate Mirrored<S, D, T>(
    m: Machine<D>, g: Image<S, D>, ok: RespValue -> bool, s: Server<S, T>,
    initial: D, before: string, log: seq<RespValue>)
  {
    Follows(m, g, s, initial, before, log) && QueuesMeet(ok, s.conns)
  }

  lemma StepKeepsMirrored<S(!new), D, T>(
    m: Machine<D>, e: Engine<S>, g: Image<S, D>, ok: RespValue -> bool,
    s: Server<S, T>, step: Step<S, T>, t: Server<S, T>,
    initial: D, before: string, log: seq<RespValue>)
    requires Mirrors(m, e, g, ok) && Mirrored(m, g, ok, s, initial, before, log) && Next(e, s, step, t)
    requires StepMirrored(e, ok, step)
    ensures Mirrored(m, g, ok, t, initial, before, log + LogStep(e, s, step))
  {
    StepFollows(m, e, g, ok, s, step, t, initial, before, log);
    StepKeepsQueues(e, ok, s, step, t);
  }

  /** What a request does to the image of the store is what replaying the writes it ran does. */
  lemma StepImage<S(!new), D, T>(
    m: Machine<D>, e: Engine<S>, g: Image<S, D>, ok: RespValue -> bool,
    s: Server<S, T>, step: Step<S, T>, t: Server<S, T>)
    requires Mirrors(m, e, g, ok) && g.calm(s.store) && QueuesMeet(ok, s.conns)
    requires Next(e, s, step, t) && StepMirrored(e, ok, step)
    ensures g.calm(t.store) && g.of(t.store) == Replayed(m, g.of(s.store), LogStep(e, s, step))
    ensures QueuesMeet(ok, t.conns)
  {
    assert s.stream + "" == s.stream;
    StepKeepsMirrored(m, e, g, ok, s, step, t, g.of(s.store), s.stream, []);
    assert [] + LogStep(e, s, step) == LogStep(e, s, step);
  }

  lemma MirroredAt<S(!new), D, T>(
    m: Machine<D>, e: Engine<S>, g: Image<S, D>, ok: RespValue -> bool,
    states: seq<Server<S, T>>, steps: seq<Step<S, T>>, i: nat, initial: D)
    requires Mirrors(m, e, g, ok) && IsRun(e, states, steps) && 0 < i < |states| && StepMirrored(e, ok, steps[i - 1])
    requires Mirrored(m, g, ok, states[i - 1], initial, "", LogAfter(e, states, steps, i - 1))
    ensures Mirrored(m, g, ok, states[i], initial, "", LogAfter(e, states, steps, i))
  {
    var log := LogAfter(e, states, steps, i - 1);
    StepAt(e, states, steps, i - 1);
    StepKeepsMirrored(m, e, g, ok, states[i - 1], steps[i - 1], states[i], initial, "", log);
    assert LogAfter(e, states, steps, i) == log + LogStep(e, states[i - 1], steps[i - 1]);
  }

  /** In every reachable state the propagated bytes, replayed from the first store, give the master's store. */
  lemma {:induction false} StreamReplaysToStore<S(!new), D, T>(
    m: Machine<D>, e: Engine<S>, g: Image<S, D>, ok: RespValue -> bool,
    states: seq<Server<S, T>>, steps: seq<Step<S, T>>, i: nat)
    requires Mirrors(m, e, g, ok) && IsRun(e, states, steps) && states[0].stream == "" && i < |states|
    requires g.calm(states[0].store)
    requires forall k :: 0 <= k < |steps| ==> StepMirrored(e, ok, steps[k])
    ensures Mirrored(m, g, ok, states[i], g.of(states[0].store), "", LogAfter(e, states, steps, i))
    decreases i
  {
    if i > 0 {
      StreamReplaysToStore(m, e, g, ok, states, steps, i - 1);
      MirroredAt(m, e, g, ok, states, steps, i, g.of(states[0].store));
    }
  }

  lemma StoreIsReplayed<S(!new), D, T>(
    m: Machine<D>, e: Engine<S>, g: Image<S, D>, ok: RespValue -> bool,
    states: seq<Server<S, T>>, steps: seq<Step<S, T>>, i: nat, log: seq<RespValue>)
    requires Mirrors(m, e, g, ok) && IsRun(e, states, steps) && states[0].stream == "" && i < |states|
    requires g.calm(states[0].store) && log == LogAfter(e, states, steps, i)
    requires forall k :: 0 <= k < |steps| ==> StepMirrored(e, ok, steps[k])
    ensures g.of(states[i].store) == Replayed(m, g.of(states[0].store), log) && states[i].stream == SerializeAll(log)
  {
    StreamReplaysToStore(m, e, g, ok, states, steps, i);
    assert "" + SerializeAll(log) == SerializeAll(log);
  }
}

/** The same for the server's own commands. */
module ReplicatedTransactions {
  import opened Resp
  import opened StoreData
  import opened Commands
  import opened Session
  import opened Replay
  import opened RedisMachine
  import opened Transactions
  import opened TransactionRuns
  import opened Mirroring
  import RT = RedisTransactions

  /** A request that replies at once and whose effect replicas can repeat: its arguments fix what it writes. */
  predicate Repeatable(request: RespValue) {
    && IsOrdinary(RT.RedisEngine, request) && !RT.MayPark(request)
    && (IsWrite(RT.KindOf(request)) ==> Replicable(request))
  }

  const DataImage: Image<RT.World, Data> := Image((w: RT.World) => w.data, RT.NobodyWaits)

  lemma NonWritesDoNothing(w: RT.World, request: RespValue, now: nat)
    requires IsRequest(request) && !IsWrite(RT.KindOf(request))
    ensures EffectOf(RT.RedisEngine, w, request, now).store == w
  {
    assert !Modelled(ParseCommand(request)) && ParseCommand(request).kind != BLPop;
  }

  lemma WritesAreApplied(w: RT.World, request: RespValue, now: nat)
    requires Replicable(request) && IsWrite(RT.KindOf(request)) && RT.NobodyWaits(w)
    ensures EffectOf(RT.RedisEngine, w, request, now).store == w.(data := Apply(Redis, w.data, request))
  {
    ClockDoesNotMatter(w.data, request, now);
    if IsGetAck(request) { GetAckIsReplconf(request); }
    if ToOp(ParseCommand(request)).Ok? {
      RT.NobodyIsServed(w, ToOp(ParseCommand(request)).value, now);
    }
  }

  lemma RedisMirrors()
    ensures Mirrors(Redis, RT.RedisEngine, DataImage, Repeatable)
  {
    forall w: RT.World, request, now | Repeatable(request) && DataImage.calm(w)
      ensures
        var after := EffectOf(RT.RedisEngine, w, request, now).store;
        && DataImage.calm(after)
        && after.data == if IsWrite(RT.RedisEngine.kind(request)) then Apply(Redis, w.data, request) else w.data
    {
      if IsWrite(RT.KindOf(request)) {
        WritesAreApplied(w, request, now);
      } else {
        NonWritesDoNothing(w, request, now);
      }
    }
  }

  /**
   Whatever clients do, in transactions or not, as long as their writes are repeatable and nobody is blocked
   at the start: the bytes the master has propagated are the serialisation of a log that replays to exactly
   its data.
   */
  lemma RedisStreamReplaysToStore<T>(states: seq<Server<RT.World, T>>, steps: seq<Step<RT.World, T>>, i: nat)
    requires IsRun(RT.RedisEngine, states, steps) && states[0].stream == "" && RT.NobodyWaits(states[0].store)
    requires i < |states| && forall k :: 0 <= k < |steps| ==> StepMirrored(RT.RedisEngine, Repeatable, steps[k])
    ensures
      var log := LogAfter(RT.RedisEngine, states, steps, i);
      states[i].store.data == Replayed(Redis, states[0].store.data, log) && states[i].stream == SerializeAll(log)
  {
    RedisMirrors();
    var log := LogAfter(RT.RedisEngine, states, steps, i);
    StoreIsReplayed(Redis, RT.RedisEngine, DataImage, Repeatable, states, steps, i, log);
  }
}
