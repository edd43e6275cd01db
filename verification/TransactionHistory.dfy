/** In every run of all connections, each connection's state is what its client's requests say. */
module TransactionHistory {
  import opened Base
  import opened Resp
  import opened Commands
  import opened Watches
  import opened Transactions
  import opened TransactionRuns
  import opened ClientHistory

  function ConnAt<S, T>(s: Server<S, T>, c: T): Option<Conn> {
    if c in s.conns then Some(s.conns[c]) else None
  }

  ghost function MoveOf<S, T>(step: Step<S, T>, c: T): Move {
    match step
    case Connect(d) => if c == d then Appears else Rests
    case Disconnect(d) => if c == d then Leaves else Rests
    case Request(d, request, _) => if c == d then Sends(request) else Rests
    case Quiet(_) => Rests
  }

  ghost function ConnsOf<S, T>(states: seq<Server<S, T>>, c: T): seq<Option<Conn>> {
    seq(|states|, i requires 0 <= i < |states| => ConnAt(states[i], c))
  }

  /** What one client does in the course of a run. */
  ghost function MovesOf<S, T>(steps: seq<Step<S, T>>, c: T): seq<Move> {
    seq(|steps|, i requires 0 <= i < |steps| => MoveOf(steps[i], c))
  }

  // ---------------------------------------------------------------- one step

  /** Commands that run leave a connection alike. */
  lemma RanAllAlike<S, T>(e: Engine<S>, s: Server<S, T>, queue: seq<RespValue>, clock: nat -> nat, c: T)
    requires AllOrdinary(e, queue)
    ensures var t := RanAll(e, s, queue, clock); c in t.conns <==> c in s.conns
    ensures var t := RanAll(e, s, queue, clock); c in s.conns ==> Alike(s.conns[c], t.conns[c])
  {
    ConnsAfter(e, s, queue, clock);
  }

  lemma ExecChanges<S, T>(e: Engine<S>, s: Server<S, T>, d: T, clock: nat -> nat, c: T)
    requires d in s.conns && AllOrdinary(e, s.conns[d].queue)
    ensures
      var t := DoExec(e, s, d, clock).server;
      && (c in t.conns <==> c in s.conns)
      && (c in s.conns ==> Alike(if c == d && s.conns[d].active then Idle else s.conns[c], t.conns[c]))
  {
    RanAllAlike(e, Reset(s, d), s.conns[d].queue, clock, c);
  }

  lemma WatchChanges<S, T>(s: Server<S, T>, d: T, name: string, args: seq<string>, c: T)
    requires d in s.conns
    ensures
      var t := DoWatch(s, d, name, args).server;
      && (c in t.conns <==> c in s.conns) && (c in s.conns && c != d ==> t.conns[c] == s.conns[c])
      && Controlled(Watch, s.conns[d], args, t.conns[d])
  {
    AddedAllWatches(s.index, s.conns[d].watched, args, d);
  }

  lemma OrdinaryChanges<S, T>(e: Engine<S>, s: Server<S, T>, d: T, request: RespValue, now: nat, c: T)
    requires d in s.conns && IsRequest(request)
    ensures
      var t := DoOrdinary(e, s, d, request, now).server;
      && (c in t.conns <==> c in s.conns)
      && (c in s.conns ==>
            Alike(if c == d && s.conns[d].active
                  then s.conns[d].(queue := s.conns[d].queue + [request]) else s.conns[c],
                  t.conns[c]))
  {}

  lemma ControlChanges<S, T>(s: Server<S, T>, d: T, kind: Kind, name: string, args: seq<string>, c: T)
    requires d in s.conns && kind in {Multi, Watch, Unwatch, Discard}
    ensures
      var t := DoControl(s, d, kind, name, args).server;
      && (c in t.conns <==> c in s.conns) && (c in s.conns && c != d ==> t.conns[c] == s.conns[c])
      && Controlled(kind, s.conns[d], args, t.conns[d])
  {
    WatchChanges(s, d, name, args, c);
  }

  lemma StepChanges<S, T>(e: Engine<S>, s: Server<S, T>, step: Step<S, T>, t: Server<S, T>, c: T)
    requires Next(e, s, step, t)
    ensures Changes(e.kind, ConnAt(s, c), MoveOf(step, c), ConnAt(t, c))
  {
    if step.Request? {
      var kind := e.kind(step.request);
      if kind == Exec {
        ExecChanges(e, s, step.c, step.clock, c);
      } else if IsTransactionControl(kind) {
        ControlChanges(s, step.c, kind, Name(step.request), Args(step.request), c);
      } else {
        OrdinaryChanges(e, s, step.c, step.request, step.clock(0), c);
      }
    }
  }

  lemma RunIsHistory<S, T>(e: Engine<S>, states: seq<Server<S, T>>, steps: seq<Step<S, T>>, c: T)
    requires IsRun(e, states, steps)
    ensures IsHistory(e.kind, ConnsOf(states, c), MovesOf(steps, c))
  {
    var conns, moves := ConnsOf(states, c), MovesOf(steps, c);
    forall i | 0 <= i < |moves| ensures i !in Breaks(e.kind, conns, moves) {
      StepAt(e, states, steps, i);
      StepChanges(e, states[i], steps[i], states[i + 1], c);
    }
  }

  // ---------------------------------------------------------------- queue and watches

  /**
   In every run: from a MULTI, sent outside MULTI, until whatever ends it, the connection is in a transaction and
   its queue holds exactly the commands its client sent since, in the order sent.
   */
  lemma QueueHoldsWhatWasSent<S, T>(
    e: Engine<S>, states: seq<Server<S, T>>, steps: seq<Step<S, T>>, c: T, i: nat, j: nat)
    requires IsRun(e, states, steps) && j < |states| && InTransaction(e.kind, MovesOf(steps, c), i, j)
    ensures c in states[j].conns && states[j].conns[c].active
    ensures states[j].conns[c].queue == SentBetween(e.kind, MovesOf(steps, c), i + 1, j)
  {
    RunIsHistory(e, states, steps, c);
    QueueIsWhatWasSent(e.kind, ConnsOf(states, c), MovesOf(steps, c), i, j);
  }

  /** In every run, a connection is in a transaction exactly when it sent MULTI and nothing since that ends it. */
  lemma ActiveIffInMulti<S, T>(e: Engine<S>, states: seq<Server<S, T>>, steps: seq<Step<S, T>>, c: T, j: nat)
    requires IsRun(e, states, steps) && j < |states| && c in states[j].conns
    ensures states[j].conns[c].active <==> InMulti(e.kind, MovesOf(steps, c), j)
  {
    RunIsHistory(e, states, steps, c);
    ActiveIsInMulti(e.kind, ConnsOf(states, c), MovesOf(steps, c), j);
  }

  /** In every run, a connection watches exactly the keys its client asked for in WATCHes that still count. */
  lemma WatchesIffAsked<S, T>(
    e: Engine<S>, states: seq<Server<S, T>>, steps: seq<Step<S, T>>, c: T, key: string, j: nat)
    requires IsRun(e, states, steps) && j < |states| && c in states[j].conns
    ensures key in states[j].conns[c].watched <==> AskedToWatch(e.kind, MovesOf(steps, c), key, j)
  {
    RunIsHistory(e, states, steps, c);
    WatchesWhatWasAsked(e.kind, ConnsOf(states, c), MovesOf(steps, c), key, j);
  }

  // ---------------------------------------------------------------- EXEC, told from the requests

  lemma {:induction false} RepliesLength<S>(e: Engine<S>, store: S, queue: seq<RespValue>, clock: nat -> nat)
    requires AllOrdinary(e, queue)
    ensures |Replies(e, store, queue, clock)| == |queue|
  {
    if queue != [] { RepliesLength(e, store, queue[..|queue| - 1], clock); }
  }

  /** The k-th of the replies is what the k-th command replies on the store after those before it. */
  ghost predicate InOrder<S>(e: Engine<S>, store: S, sent: seq<RespValue>, clock: nat -> nat, replies: seq<string>)
    requires AllOrdinary(e, sent)
  {
    |replies| == |sent| && forall k :: 0 <= k < |sent| ==>
      replies[k] == EffectOf(e, StoreAfter(e, store, sent[..k], clock), sent[k], clock(k)).reply
  }

  lemma RepliesInOrder<S>(e: Engine<S>, store: S, sent: seq<RespValue>, clock: nat -> nat)
    requires AllOrdinary(e, sent)
    ensures InOrder(e, store, sent, clock, Replies(e, store, sent, clock))
  {
    RepliesLength(e, store, sent, clock);
    forall k | 0 <= k < |sent|
      ensures Replies(e, store, sent, clock)[k] ==
              EffectOf(e, StoreAfter(e, store, sent[..k], clock), sent[k], clock(k)).reply
    {
      ReplyAt(e, store, sent, clock, k);
    }
  }

  /** From `s` to `t` the commands sent ran one by one, their writes were propagated, and `text` answers them. */
  ghost predicate RanInOrder<S, T>(
    e: Engine<S>, s: Server<S, T>, sent: seq<RespValue>, clock: nat -> nat, t: Server<S, T>, text: string)
  {
    && AllOrdinary(e, sent) && t.store == StoreAfter(e, s.store, sent, clock)
    && t.stream == s.stream + SerializeAll(Writes(e, sent))
    && exists replies :: InOrder(e, s.store, sent, clock, replies) && text == ExecReply(replies)
  }

  lemma ExecRunsInOrder<S, T>(e: Engine<S>, s: Server<S, T>, c: T, request: RespValue, clock: nat -> nat)
    requires c in s.conns && AllOrdinary(e, s.conns[c].queue) && IsRequest(request) && e.kind(request) == Exec
    requires s.conns[c].active && !s.conns[c].dirty
    ensures
      var r := Dispatch(e, s, c, request, clock);
      RanInOrder(e, s, s.conns[c].queue, clock, r.server, r.text)
  {
    CleanExecIsAFold(e, s, c, request, clock);
    RepliesInOrder(e, s.store, s.conns[c].queue, clock);
  }

  /**
   An EXEC that runs does what its client sent since MULTI, in order: the store and the propagated bytes are those of
   these commands one after the other, and the k-th reply answers the k-th of them.
   */
  lemma ExecAnswersWhatWasSent<S, T>(
    e: Engine<S>, states: seq<Server<S, T>>, steps: seq<Step<S, T>>, c: T, request: RespValue, clock: nat -> nat,
    i: nat, j: nat)
    requires IsRun(e, states, steps) && j < |steps| && steps[j] == Request(c, request, clock) && e.kind(request) == Exec
    requires InTransaction(e.kind, MovesOf(steps, c), i, j)
    ensures c in states[j].conns && AllOrdinary(e, states[j].conns[c].queue) && IsRequest(request)
    ensures !states[j].conns[c].dirty ==>
              RanInOrder(e, states[j], SentBetween(e.kind, MovesOf(steps, c), i + 1, j), clock, states[j + 1],
                         Dispatch(e, states[j], c, request, clock).text)
  {
    StepAt(e, states, steps, j);
    QueueHoldsWhatWasSent(e, states, steps, c, i, j);
    if !states[j].conns[c].dirty { ExecRunsInOrder(e, states[j], c, request, clock); }
  }

  /** In step `i` a key was announced that the client had asked to watch. */
  ghost function WatchedKeyWritten<S, T>(
    e: Engine<S>, states: seq<Server<S, T>>, steps: seq<Step<S, T>>, c: T): nat -> bool
  {
    (i: nat) =>
      && i < |steps| && i < |states|
      && exists key :: key in Announced(e, states[i], steps[i]) && AskedToWatch(e.kind, MovesOf(steps, c), key, i + 1)
  }

  /** In move `i` the connection comes or goes, or a transaction ends. */
  ghost function CleanedUp(kind: Kinds, moves: seq<Move>): nat -> bool {
    (i: nat) => i < |moves| && Finishes(kind, moves[i]) && (InMulti(kind, moves, i) || !moves[i].Sends?)
  }

  ghost function DirtyAt<S, T>(states: seq<Server<S, T>>, c: T): nat -> bool {
    (i: nat) => i < |states| && c in states[i].conns && states[i].conns[c].dirty
  }

  ghost function ThereAt<S, T>(states: seq<Server<S, T>>, c: T): nat -> bool {
    (i: nat) => i < |states| && c in states[i].conns
  }

  lemma TouchesWhatWasAsked<S, T>(e: Engine<S>, states: seq<Server<S, T>>, steps: seq<Step<S, T>>, c: T, i: nat)
    requires IsRun(e, states, steps) && i < |steps| && c in states[i + 1].conns
    ensures Touches(Announced(e, states[i], steps[i]), states[i + 1].conns[c].watched) <==>
            WatchedKeyWritten(e, states, steps, c)(i)
  {
    forall key | key in Announced(e, states[i], steps[i])
      ensures key in states[i + 1].conns[c].watched <==> AskedToWatch(e.kind, MovesOf(steps, c), key, i + 1)
    {
      WatchesIffAsked(e, states, steps, c, key, i + 1);
    }
  }

  lemma EndsIsCleanedUp<S, T>(e: Engine<S>, states: seq<Server<S, T>>, steps: seq<Step<S, T>>, c: T, i: nat)
    requires IsRun(e, states, steps) && i < |steps| && c in states[i + 1].conns
    ensures CleanedUp(e.kind, MovesOf(steps, c))(i) <==> c !in states[i].conns || Ends(e, states[i], steps[i], c)
  {
    StepAt(e, states, steps, i);
    StepChanges(e, states[i], steps[i], states[i + 1], c);
    if c in states[i].conns { ActiveIffInMulti(e, states, steps, c, i); }
  }

  lemma DirtyRuleAt<S, T>(e: Engine<S>, states: seq<Server<S, T>>, steps: seq<Step<S, T>>, c: T, i: nat)
    requires IsRun(e, states, steps) && i < |steps| && c in states[i + 1].conns
    ensures FlagRule(
        DirtyAt(states, c), WatchedKeyWritten(e, states, steps, c), CleanedUp(e.kind, MovesOf(steps, c)), i)
  {
    IndexesAlwaysAgree(e, states, steps, i);
    StepAt(e, states, steps, i);
    StepDirty(e, states[i], steps[i], states[i + 1], c);
    TouchesWhatWasAsked(e, states, steps, c, i);
    EndsIsCleanedUp(e, states, steps, c, i);
  }

  /**
   EXEC inside MULTI aborts if and only if some command that ran, of whichever client, announced a key that this
   client had asked to watch, and the client has not since completed an EXEC or DISCARD or connected anew.
   */
  lemma ExecAbortsIffWatchedKeyWritten<S, T>(
    e: Engine<S>, states: seq<Server<S, T>>, steps: seq<Step<S, T>>,
    c: T, request: RespValue, clock: nat -> nat, j: nat)
    requires IsRun(e, states, steps) && j < |steps| && steps[j] == Request(c, request, clock) && e.kind(request) == Exec
    requires InMulti(e.kind, MovesOf(steps, c), j)
    ensures c in states[j].conns && AllOrdinary(e, states[j].conns[c].queue) && IsRequest(request)
    ensures Dispatch(e, states[j], c, request, clock).text == ABORTED <==>
            Since(WatchedKeyWritten(e, states, steps, c), CleanedUp(e.kind, MovesOf(steps, c)), j)
  {
    StepAt(e, states, steps, j);
    ActiveIffInMulti(e, states, steps, c, j);
    RepliesAreNotAborted(Replies(e, states[j].store, states[j].conns[c].queue, clock));
    var event, wiped := WatchedKeyWritten(e, states, steps, c), CleanedUp(e.kind, MovesOf(steps, c));
    forall i: nat | i < j && ThereAt(states, c)(i + 1) ensures FlagRule(DirtyAt(states, c), event, wiped, i) {
      DirtyRuleAt(e, states, steps, c, i);
    }
    forall i: nat | i < j && !ThereAt(states, c)(i) && ThereAt(states, c)(i + 1) ensures wiped(i) {
      EndsIsCleanedUp(e, states, steps, c, i);
    }
    FlagIsSince(DirtyAt(states, c), ThereAt(states, c), event, wiped, j);
  }
}

/** The same when an EXEC may be suspended. */
module SuspensionHistory {
  import opened Base
  import opened Resp
  import opened Commands
  import opened Transactions
  import opened RedisTransactions
  import opened ClientHistory
  import opened Suspension
  import opened SuspensionRuns
  import H = TransactionHistory
  import R = TransactionRuns

  ghost function MoveOf<T>(step: Step<T>, c: T): Move {
    match step
    case Connect(d) => if c == d then Appears else Rests
    case Disconnect(d) => if c == d then Leaves else Rests
    case Request(d, request) => if c == d then Sends(request) else Rests
    case _ => Rests
  }

  ghost function ConnsOf<T>(states: seq<Thread<T>>, c: T): seq<Option<Conn>> {
    seq(|states|, i requires 0 <= i < |states| => H.ConnAt(states[i].server, c))
  }

  ghost function MovesOf<T>(steps: seq<Step<T>>, c: T): seq<Move> {
    seq(|steps|, i requires 0 <= i < |steps| => MoveOf(steps[i], c))
  }

  /** A request that runs something: an EXEC ends its transaction, a command outside MULTI changes no connection. */
  lemma RunningChanges<T>(s: Thread<T>, d: T, request: RespValue, t: Thread<T>, c: T)
    requires Next(s, Request(d, request), t) && !RunsNothing(s.server.conns[d], KindOf(request))
    ensures t.server.conns == if KindOf(request) == Exec then s.server.conns[d := Idle] else s.server.conns
    ensures KindOf(request) == Exec ==> s.server.conns[d].active
    ensures KindOf(request) != Exec ==> !IsTransactionControl(KindOf(request)) && !s.server.conns[d].active
  {}

  lemma RunningIsChange<T>(s: Thread<T>, d: T, request: RespValue, t: Thread<T>, c: T)
    requires Next(s, Request(d, request), t) && !RunsNothing(s.server.conns[d], KindOf(request))
    ensures Changes(KindOf, H.ConnAt(s.server, c), MoveOf(Request(d, request), c), H.ConnAt(t.server, c))
  {
    RunningChanges(s, d, request, t, c);
  }

  lemma RequestChanges<T>(s: Thread<T>, d: T, request: RespValue, t: Thread<T>, c: T)
    requires Inv(s) && Next(s, Request(d, request), t)
    ensures Changes(KindOf, H.ConnAt(s.server, c), MoveOf(Request(d, request), c), H.ConnAt(t.server, c))
  {
    if RunsNothing(s.server.conns[d], KindOf(request)) {
      AcceptIsDispatch(s, d, request, t);
      H.StepChanges(RedisEngine, s.server, R.Request(d, request, _ => 0), t.server, c);
    } else {
      RunningIsChange(s, d, request, t, c);
    }
  }

  lemma GoChanges<T>(s: Thread<T>, now: nat, c: T)
    ensures Changes(KindOf, H.ConnAt(s.server, c), Rests, H.ConnAt(Go(s, now).server, c))
  {}

  lemma StepChanges<T>(s: Thread<T>, step: Step<T>, t: Thread<T>, c: T)
    requires Inv(s) && Next(s, step, t)
    ensures Changes(KindOf, H.ConnAt(s.server, c), MoveOf(step, c), H.ConnAt(t.server, c))
  {
    match step
    case Request(d, request) => RequestChanges(s, d, request, t, c);
    case Goes(now) => GoChanges(s, now, c);
    case _ =>
  }

  lemma RunIsHistory<T>(states: seq<Thread<T>>, steps: seq<Step<T>>, c: T)
    requires IsRun(states, steps)
    ensures IsHistory(KindOf, ConnsOf(states, c), MovesOf(steps, c))
  {
    var conns, moves := ConnsOf(states, c), MovesOf(steps, c);
    forall i | 0 <= i < |moves| ensures i !in Breaks(KindOf, conns, moves) {
      RunKeepsInv(states, steps, i);
      StepAt(states, steps, i);
      StepChanges(states[i], steps[i], states[i + 1], c);
    }
  }

  /** In every run, suspended EXECs included, a connection watches exactly the keys its client asked for. */
  lemma WatchesIffAsked<T>(states: seq<Thread<T>>, steps: seq<Step<T>>, c: T, key: string, j: nat)
    requires IsRun(states, steps) && j < |states| && c in states[j].server.conns
    ensures key in states[j].server.conns[c].watched <==> AskedToWatch(KindOf, MovesOf(steps, c), key, j)
  {
    RunIsHistory(states, steps, c);
    WatchesWhatWasAsked(KindOf, ConnsOf(states, c), MovesOf(steps, c), key, j);
  }

  /** An EXEC that runs sets out to run exactly what its client sent since MULTI, in the order sent. */
  lemma ExecRunsWhatWasSent<T>(states: seq<Thread<T>>, steps: seq<Step<T>>, c: T, request: RespValue, i: nat, j: nat)
    requires IsRun(states, steps) && j < |steps| && steps[j] == Request(c, request) && KindOf(request) == Exec
    requires InTransaction(KindOf, MovesOf(steps, c), i, j)
    ensures c in states[j].server.conns
    ensures !states[j].server.conns[c].dirty ==>
              states[j + 1].stack == [Run(SentBetween(KindOf, MovesOf(steps, c), i + 1, j))]
  {
    RunIsHistory(states, steps, c);
    QueueIsWhatWasSent(KindOf, ConnsOf(states, c), MovesOf(steps, c), i, j);
    StepAt(states, steps, j);
  }
}
