/** Runs of all connections together: the WATCH index stays right and EXEC aborts exactly when it should. */
module TransactionRuns {
  import opened Decimal
  import opened Resp
  import opened Commands
  import opened Registrations
  import opened Watches
  import opened Transactions

  /** `Quiet` is a change of the store that no command makes, such as the timeout of a waiter. */
  datatype Step<S, T> =
    | Connect(c: T)
    | Disconnect(c: T)
    | Request(c: T, request: RespValue, clock: nat -> nat)
    | Quiet(store: S)

  ghost predicate Next<S, T>(e: Engine<S>, s: Server<S, T>, step: Step<S, T>, t: Server<S, T>) {
    match step
    case Connect(c) => c !in s.conns && t == s.(conns := s.conns[c := Idle])
    case Disconnect(c) =>
      c in s.conns && t == s.(index := Purged(s.index, s.conns[c].watched.Values), conns := s.conns - {c})
    case Request(c, request, clock) =>
      && c in s.conns && AllOrdinary(e, s.conns[c].queue) && IsRequest(request)
      && t == Dispatch(e, s, c, request, clock).server
    case Quiet(store) => t == s.(store := store)
  }

  function WatchedOf<T>(conns: map<T, Conn>): map<T, map<string, nat>> {
    map c | c in conns :: conns[c].watched
  }

  /** Outside MULTI the queue is empty, and no transaction-control command is ever in it. */
  ghost predicate QueuesOk<S, T>(e: Engine<S>, conns: map<T, Conn>) {
    forall c :: c in conns ==> AllOrdinary(e, conns[c].queue) && (conns[c].active || conns[c].queue == [])
  }

  /** The index is consistent and agrees with what each connection watches. */
  ghost predicate IndexOk<T>(index: Index<T>, conns: map<T, Conn>) {
    Consistent(index) && Agreed(index, WatchedOf(conns))
  }

  ghost predicate Inv<S, T>(e: Engine<S>, s: Server<S, T>) {
    IndexOk(s.index, s.conns) && QueuesOk(e, s.conns)
  }

  // ---------------------------------------------------------------- every step keeps the invariant

  lemma NotifiedKeepsInv<S, T>(e: Engine<S>, conns: map<T, Conn>, index: Index<T>, keys: seq<string>)
    requires IndexOk(index, conns) && QueuesOk(e, conns)
    ensures IndexOk(index, Notified(conns, index, keys)) && QueuesOk(e, Notified(conns, index, keys))
  {
    assert WatchedOf(Notified(conns, index, keys)) == WatchedOf(conns);
  }

  lemma ClearedIndexOk<T>(index: Index<T>, conns: map<T, Conn>, c: T, conn: Conn)
    requires IndexOk(index, conns) && c in conns && conn.watched == map[]
    ensures IndexOk(Purged(index, conns[c].watched.Values), conns[c := conn])
    ensures IndexOk(Purged(index, conns[c].watched.Values), conns - {c})
  {
    var watched := WatchedOf(conns);
    PurgedConsistent(index, watched[c].Values);
    ClearKeepsAgreed(index, watched, c);
    assert WatchedOf(conns[c := conn]) == watched[c := map[]];
    assert WatchedOf(conns - {c}) == watched - {c};
  }

  lemma WatchKeepsIndexOk<T>(index: Index<T>, conns: map<T, Conn>, c: T, keys: seq<string>)
    requires IndexOk(index, conns) && c in conns
    ensures
      var (after, watched) := AddedAll(index, conns[c].watched, keys, c);
      IndexOk(after, conns[c := conns[c].(watched := watched)])
  {
    AddAllKeepsAgreed(index, WatchedOf(conns), keys, c);
    var (after, watched) := AddedAll(index, conns[c].watched, keys, c);
    assert WatchedOf(conns[c := conns[c].(watched := watched)]) == WatchedOf(conns)[c := watched];
  }

  lemma SameWatchesIndexOk<T>(index: Index<T>, conns: map<T, Conn>, c: T, conn: Conn)
    requires IndexOk(index, conns) && conn.watched == (if c in conns then conns[c].watched else map[])
    ensures IndexOk(index, conns[c := conn])
  {
    if c in conns {
      assert WatchedOf(conns[c := conn]) == WatchedOf(conns);
    } else {
      assert WatchedOf(conns[c := conn]) == WatchedOf(conns)[c := map[]];
    }
  }

  lemma RanAllKeepsInv<S, T>(e: Engine<S>, s: Server<S, T>, queue: seq<RespValue>, clock: nat -> nat)
    requires Inv(e, s) && AllOrdinary(e, queue)
    ensures Inv(e, RanAll(e, s, queue, clock))
  {
    ConnsAfter(e, s, queue, clock);
    StoreOfRanAll(e, s, queue, clock);
    NotifiedKeepsInv(e, s.conns, s.index, KeysWritten(e, s.store, queue, clock));
  }

  lemma ResetKeepsInv<S, T>(e: Engine<S>, s: Server<S, T>, c: T)
    requires Inv(e, s) && c in s.conns
    ensures Inv(e, Reset(s, c)) && Inv(e, Cleared(s, c))
  {
    ClearedIndexOk(s.index, s.conns, c, Idle);
    ClearedIndexOk(s.index, s.conns, c, s.conns[c].(watched := map[]));
  }

  lemma ExecKeepsInv<S, T>(e: Engine<S>, s: Server<S, T>, c: T, clock: nat -> nat)
    requires Inv(e, s) && c in s.conns
    ensures Inv(e, DoExec(e, s, c, clock).server)
  {
    ResetKeepsInv(e, s, c);
    RanAllKeepsInv(e, Reset(s, c), s.conns[c].queue, clock);
  }

  lemma RunKeepsInv<S, T>(e: Engine<S>, s: Server<S, T>, request: RespValue, now: nat)
    requires Inv(e, s) && IsRequest(request)
    ensures Inv(e, Ran(e, s, request, now))
  {
    NotifiedKeepsInv(e, s.conns, s.index, EffectOf(e, s.store, request, now).notified);
  }

  lemma OrdinaryKeepsInv<S, T>(e: Engine<S>, s: Server<S, T>, c: T, request: RespValue, now: nat)
    requires Inv(e, s) && c in s.conns && IsOrdinary(e, request)
    ensures Inv(e, DoOrdinary(e, s, c, request, now).server)
  {
    var conn := s.conns[c];
    if conn.active {
      SameWatchesIndexOk(s.index, s.conns, c, conn.(queue := conn.queue + [request]));
    } else {
      RunKeepsInv(e, s, request, now);
    }
  }

  lemma MultiKeepsInv<S, T>(e: Engine<S>, s: Server<S, T>, c: T)
    requires Inv(e, s) && c in s.conns
    ensures Inv(e, DoMulti(s, c).server)
  {
    SameWatchesIndexOk(s.index, s.conns, c, s.conns[c].(active := true, queue := []));
  }

  lemma WatchKeepsInv<S, T>(e: Engine<S>, s: Server<S, T>, c: T, name: string, args: seq<string>)
    requires Inv(e, s) && c in s.conns
    ensures Inv(e, DoWatch(s, c, name, args).server)
  {
    WatchKeepsIndexOk(s.index, s.conns, c, args);
  }

  lemma DispatchKeepsInv<S, T>(e: Engine<S>, s: Server<S, T>, c: T, request: RespValue, clock: nat -> nat)
    requires Inv(e, s) && c in s.conns && IsRequest(request)
    ensures Inv(e, Dispatch(e, s, c, request, clock).server)
  {
    if e.kind(request) == Multi { MultiKeepsInv(e, s, c); }
    if e.kind(request) == Watch { WatchKeepsInv(e, s, c, Name(request), Args(request)); }
    if e.kind(request) == Exec { ExecKeepsInv(e, s, c, clock); }
    if IsOrdinary(e, request) { OrdinaryKeepsInv(e, s, c, request, clock(0)); }
    ResetKeepsInv(e, s, c);
    DispatchCases(e, s, c, request, clock, t => Inv(e, t));
  }

  lemma StepKeepsInv<S, T>(e: Engine<S>, s: Server<S, T>, step: Step<S, T>, t: Server<S, T>)
    requires Inv(e, s) && Next(e, s, step, t)
    ensures Inv(e, t)
  {
    match step
    case Connect(c) => SameWatchesIndexOk(s.index, s.conns, c, Idle);
    case Disconnect(c) => ClearedIndexOk(s.index, s.conns, c, Idle);
    case Request(c, request, clock) => DispatchKeepsInv(e, s, c, request, clock);
    case Quiet(_) =>
  }

  // ---------------------------------------------------------------- what one step does to a dirty flag

  /** The keys announced as written during a step. */
  ghost function Announced<S, T>(e: Engine<S>, s: Server<S, T>, step: Step<S, T>): seq<string> {
    if !(step.Request? && step.c in s.conns && AllOrdinary(e, s.conns[step.c].queue) && IsRequest(step.request)) then []
    else
      var conn := s.conns[step.c];
      if e.kind(step.request) == Exec then
        if conn.active && !conn.dirty then KeysWritten(e, s.store, conn.queue, step.clock) else []
      else if IsTransactionControl(e.kind(step.request)) || conn.active then []
      else EffectOf(e, s.store, step.request, step.clock(0)).notified
  }

  /** The step completes an EXEC or DISCARD of connection `d`. */
  ghost predicate Ends<S, T>(e: Engine<S>, s: Server<S, T>, step: Step<S, T>, d: T) {
    step.Request? && step.c == d && e.kind(step.request) in {Exec, Discard} && d in s.conns && s.conns[d].active
  }

  ghost predicate Touches(keys: seq<string>, watched: map<string, nat>) {
    exists key :: key in keys && key in watched
  }

  lemma HitIsTouch<T>(index: Index<T>, conns: map<T, Conn>, keys: seq<string>, d: T)
    requires IndexOk(index, conns) && d in conns
    ensures Hit(index, keys, d) <==> Touches(keys, conns[d].watched)
  {
    forall key | key in keys ensures d in Owners(index, key) <==> key in conns[d].watched {
      OwnersAreWatchers(index, WatchedOf(conns), key, d);
    }
  }

  lemma NotifiedDirty<T>(index: Index<T>, conns: map<T, Conn>, keys: seq<string>, d: T)
    requires IndexOk(index, conns) && d in conns
    ensures
      var after := Notified(conns, index, keys)[d];
      && after.watched == conns[d].watched
      && (after.dirty <==> conns[d].dirty || Touches(keys, after.watched))
  {
    HitIsTouch(index, conns, keys, d);
  }

  /** `d` is dirty after a change: it was and its transaction did not end, or a key it watches was announced. */
  ghost predicate DirtyRule<S, T>(s: Server<S, T>, d: T, ends: bool, keys: seq<string>, t: Server<S, T>) {
    d in t.conns ==>
      (t.conns[d].dirty <==> (d in s.conns && s.conns[d].dirty && !ends) || Touches(keys, t.conns[d].watched))
  }

  lemma OrdinaryDirty<S, T>(e: Engine<S>, s: Server<S, T>, c: T, request: RespValue, now: nat, d: T)
    requires Inv(e, s) && c in s.conns && IsOrdinary(e, request)
    ensures
      var keys := if s.conns[c].active then [] else EffectOf(e, s.store, request, now).notified;
      DirtyRule(s, d, false, keys, DoOrdinary(e, s, c, request, now).server)
  {
    if d in s.conns && !s.conns[c].active {
      NotifiedDirty(s.index, s.conns, EffectOf(e, s.store, request, now).notified, d);
    }
  }

  lemma RanAllDirty<S, T>(e: Engine<S>, s: Server<S, T>, queue: seq<RespValue>, clock: nat -> nat, d: T)
    requires Inv(e, s) && AllOrdinary(e, queue)
    ensures DirtyRule(s, d, false, KeysWritten(e, s.store, queue, clock), RanAll(e, s, queue, clock))
    ensures var t := RanAll(e, s, queue, clock);
            d in t.conns <==> d in s.conns
    ensures var t := RanAll(e, s, queue, clock);
            d in s.conns ==> t.conns[d].watched == s.conns[d].watched
  {
    ConnsAfter(e, s, queue, clock);
    if d in s.conns {
      NotifiedDirty(s.index, s.conns, KeysWritten(e, s.store, queue, clock), d);
    }
  }

  lemma ExecDirty<S, T>(e: Engine<S>, s: Server<S, T>, c: T, clock: nat -> nat, d: T)
    requires Inv(e, s) && c in s.conns
    ensures
      var conn := s.conns[c];
      var keys := if conn.active && !conn.dirty then KeysWritten(e, s.store, conn.queue, clock) else [];
      DirtyRule(s, d, c == d && conn.active, keys, DoExec(e, s, c, clock).server)
  {
    ResetKeepsInv(e, s, c);
    RanAllDirty(e, Reset(s, c), s.conns[c].queue, clock, d);
  }

  lemma ExecRequestDirty<S, T>(e: Engine<S>, s: Server<S, T>, c: T, request: RespValue, clock: nat -> nat, d: T)
    requires Inv(e, s) && c in s.conns && IsRequest(request) && e.kind(request) == Exec
    ensures
      var step := Request(c, request, clock);
      DirtyRule(s, d, Ends(e, s, step, d), Announced(e, s, step), Dispatch(e, s, c, request, clock).server)
  {
    ExecDirty(e, s, c, clock, d);
  }

  lemma OrdinaryRequestDirty<S, T>(e: Engine<S>, s: Server<S, T>, c: T, request: RespValue, clock: nat -> nat, d: T)
    requires Inv(e, s) && c in s.conns && IsOrdinary(e, request)
    ensures
      var step := Request(c, request, clock);
      DirtyRule(s, d, Ends(e, s, step, d), Announced(e, s, step), Dispatch(e, s, c, request, clock).server)
  {
    OrdinaryDirty(e, s, c, request, clock(0), d);
  }

  lemma MultiRequestDirty<S, T>(e: Engine<S>, s: Server<S, T>, c: T, request: RespValue, clock: nat -> nat, d: T)
    requires Inv(e, s) && c in s.conns && IsRequest(request) && e.kind(request) in {Multi, Discard}
    ensures
      var step := Request(c, request, clock);
      DirtyRule(s, d, Ends(e, s, step, d), Announced(e, s, step), Dispatch(e, s, c, request, clock).server)
  {}

  lemma WatchRequestDirty<S, T>(e: Engine<S>, s: Server<S, T>, c: T, request: RespValue, clock: nat -> nat, d: T)
    requires Inv(e, s) && c in s.conns && IsRequest(request) && e.kind(request) in {Watch, Unwatch}
    ensures
      var step := Request(c, request, clock);
      DirtyRule(s, d, Ends(e, s, step, d), Announced(e, s, step), Dispatch(e, s, c, request, clock).server)
  {}

  lemma StepDirty<S, T>(e: Engine<S>, s: Server<S, T>, step: Step<S, T>, t: Server<S, T>, d: T)
    requires Inv(e, s) && Next(e, s, step, t)
    ensures DirtyRule(s, d, Ends(e, s, step, d), Announced(e, s, step), t)
  {
    if step.Request? {
      if e.kind(step.request) == Exec {
        ExecRequestDirty(e, s, step.c, step.request, step.clock, d);
      } else if IsOrdinary(e, step.request) {
        OrdinaryRequestDirty(e, s, step.c, step.request, step.clock, d);
      } else if e.kind(step.request) in {Multi, Discard} {
        MultiRequestDirty(e, s, step.c, step.request, step.clock, d);
      } else {
        WatchRequestDirty(e, s, step.c, step.request, step.clock, d);
      }
    }
  }

  // ---------------------------------------------------------------- runs

  ghost function Missteps<S, T>(e: Engine<S>, states: seq<Server<S, T>>, steps: seq<Step<S, T>>): set<nat>
    requires |states| == |steps| + 1
  {
    set i | 0 <= i < |steps| && !Next(e, states[i], steps[i], states[i + 1])
  }

  /** A run: states joined by steps, from a server without connections. */
  ghost predicate IsRun<S, T>(e: Engine<S>, states: seq<Server<S, T>>, steps: seq<Step<S, T>>) {
    && |states| == |steps| + 1
    && states[0].index == Index(map[], map[], 1) && states[0].conns == map[]
    && Missteps(e, states, steps) == {}
  }

  lemma StepAt<S, T>(e: Engine<S>, states: seq<Server<S, T>>, steps: seq<Step<S, T>>, i: nat)
    requires IsRun(e, states, steps) && i < |steps|
    ensures Next(e, states[i], steps[i], states[i + 1])
  {
    assert i !in Missteps(e, states, steps);
  }

  /** In every reachable state the key index, the id index and all connections' watches agree. */
  lemma {:induction false} IndexesAlwaysAgree<S, T>(
    e: Engine<S>, states: seq<Server<S, T>>, steps: seq<Step<S, T>>, i: nat)
    requires IsRun(e, states, steps) && i < |states|
    ensures Inv(e, states[i])
    decreases i
  {
    if i > 0 {
      IndexesAlwaysAgree(e, states, steps, i - 1);
      StepAt(e, states, steps, i - 1);
      StepKeepsInv(e, states[i - 1], steps[i - 1], states[i]);
    }
  }

  /** During step `i`, a key was announced as written that `c` was watching at that moment. */
  ghost predicate Struck<S, T>(e: Engine<S>, states: seq<Server<S, T>>, steps: seq<Step<S, T>>, c: T, i: nat) {
    && i < |steps| && i + 1 < |states|
    && c in states[i + 1].conns && Touches(Announced(e, states[i], steps[i]), states[i + 1].conns[c].watched)
  }

  /** Step `i` gives `c` a clean start: it connects, or completes an EXEC or DISCARD. */
  ghost predicate CleanStart<S, T>(e: Engine<S>, states: seq<Server<S, T>>, steps: seq<Step<S, T>>, c: T, i: nat) {
    i < |steps| && i < |states| && (c !in states[i].conns || Ends(e, states[i], steps[i], c))
  }

  /** `event` happened at some time before `j`, and `wiped` at no later time before `j`. */
  ghost predicate Since(event: nat -> bool, wiped: nat -> bool, j: nat) {
    exists i: nat :: i < j && event(i) && forall k: nat :: i < k < j ==> !wiped(k)
  }

  lemma SinceStep(event: nat -> bool, wiped: nat -> bool, j: nat)
    ensures Since(event, wiped, j + 1) <==> event(j) || (!wiped(j) && Since(event, wiped, j))
  {}

  /** Events set the flag and wipes clear it. */
  ghost predicate FlagRule(flag: nat -> bool, event: nat -> bool, wiped: nat -> bool, i: nat) {
    flag(i + 1) <==> (flag(i) && !wiped(i)) || event(i)
  }

  lemma {:induction false} FlagIsSince(
    flag: nat -> bool, there: nat -> bool, event: nat -> bool, wiped: nat -> bool, j: nat)
    requires !there(0) && there(j)
    requires forall i: nat :: i < j && there(i + 1) ==> FlagRule(flag, event, wiped, i)
    requires forall i: nat :: i < j && !there(i) && there(i + 1) ==> wiped(i)
    ensures flag(j) <==> Since(event, wiped, j)
    decreases j
  {
    var i := j - 1;
    SinceStep(event, wiped, i);
    assert there(i + 1) && FlagRule(flag, event, wiped, i);
    if there(i) {
      FlagIsSince(flag, there, event, wiped, i);
    }
  }

  ghost function Strikes<S, T>(e: Engine<S>, states: seq<Server<S, T>>, steps: seq<Step<S, T>>, c: T): nat -> bool {
    (i: nat) => Struck(e, states, steps, c, i)
  }

  ghost function CleanStarts<S, T>(e: Engine<S>, states: seq<Server<S, T>>, steps: seq<Step<S, T>>, c: T): nat -> bool {
    (i: nat) => CleanStart(e, states, steps, c, i)
  }

  /** A connection is dirty exactly when a key it watched was announced since its last clean start. */
  lemma {:induction false} DirtyIsExact<S, T>(
    e: Engine<S>, states: seq<Server<S, T>>, steps: seq<Step<S, T>>, c: T, j: nat)
    requires IsRun(e, states, steps) && j < |states| && c in states[j].conns
    ensures states[j].conns[c].dirty <==> Since(Strikes(e, states, steps, c), CleanStarts(e, states, steps, c), j)
    decreases j
  {
    var i := j - 1;
    IndexesAlwaysAgree(e, states, steps, i);
    StepAt(e, states, steps, i);
    StepDirty(e, states[i], steps[i], states[j], c);
    SinceStep(Strikes(e, states, steps, c), CleanStarts(e, states, steps, c), i);
    if c in states[i].conns {
      DirtyIsExact(e, states, steps, c, i);
    }
  }

  // ---------------------------------------------------------------- EXEC

  lemma RepliesAreNotAborted(replies: seq<string>)
    ensures ExecReply(replies) != ABORTED
  {
    var n := |replies|;
    NatTextRoundTrip(n);
    assert ExecReply(replies)[1] == IntText(n)[0] != '-';
  }

  /**
   EXEC inside MULTI aborts if and only if, since the connection's last completed EXEC or DISCARD (or since
   it connected), a write was announced on a key it was watching at that moment.
   */
  lemma ExecAbortsExactly<S, T>(
    e: Engine<S>, states: seq<Server<S, T>>, steps: seq<Step<S, T>>,
    j: nat, c: T, request: RespValue, clock: nat -> nat)
    requires IsRun(e, states, steps) && j < |steps| && steps[j] == Request(c, request, clock)
    requires Next(e, states[j], steps[j], states[j + 1]) && e.kind(request) == Exec && states[j].conns[c].active
    ensures Dispatch(e, states[j], c, request, clock).text == ABORTED <==>
            Since(Strikes(e, states, steps, c), CleanStarts(e, states, steps, c), j)
  {
    DirtyIsExact(e, states, steps, c, j);
    RepliesAreNotAborted(Replies(e, states[j].store, states[j].conns[c].queue, clock));
  }

  lemma ExecLeavesIdle<S, T>(e: Engine<S>, s: Server<S, T>, c: T, clock: nat -> nat)
    requires Inv(e, s) && c in s.conns && s.conns[c].active
    ensures var t := DoExec(e, s, c, clock).server; c in t.conns && t.conns[c] == Idle
  {
    var reset, queue := Reset(s, c), s.conns[c].queue;
    ResetKeepsInv(e, s, c);
    ConnsAfter(e, reset, queue, clock);
    NotifiedDirty(reset.index, reset.conns, KeysWritten(e, s.store, queue, clock), c);
  }

  /** A completed EXEC or DISCARD leaves its connection idle: not even its own writes make it dirty. */
  lemma EndLeavesIdle<S, T>(e: Engine<S>, s: Server<S, T>, step: Step<S, T>, t: Server<S, T>)
    requires Inv(e, s) && Next(e, s, step, t) && step.Request? && Ends(e, s, step, step.c)
    ensures step.c in t.conns && t.conns[step.c] == Idle
  {
    var c := step.c;
    ExecLeavesIdle(e, s, c, step.clock);
    DispatchCases(e, s, c, step.request, step.clock, (u: Server<S, T>) => c in u.conns && u.conns[c] == Idle);
  }

  // ---------------------------------------------------------------- what requests may be sent

  /** Everything queued satisfies `ok`. */
  ghost predicate QueuesMeet<T>(ok: RespValue -> bool, conns: map<T, Conn>) {
    forall c :: c in conns ==> forall i :: 0 <= i < |conns[c].queue| ==> ok(conns[c].queue[i])
  }

  /** An ordinary command sent in this step satisfies `ok`. */
  ghost predicate StepMeets<S, T>(e: Engine<S>, ok: RespValue -> bool, step: Step<S, T>) {
    step.Request? && IsOrdinary(e, step.request) ==> ok(step.request)
  }

  lemma NotifiedKeepsQueues<T>(ok: RespValue -> bool, conns: map<T, Conn>, index: Index<T>, keys: seq<string>)
    requires QueuesMeet(ok, conns)
    ensures QueuesMeet(ok, Notified(conns, index, keys))
  {}

  lemma ExecKeepsQueues<S, T>(e: Engine<S>, ok: RespValue -> bool, s: Server<S, T>, c: T, clock: nat -> nat)
    requires QueuesMeet(ok, s.conns) && c in s.conns && AllOrdinary(e, s.conns[c].queue)
    ensures QueuesMeet(ok, DoExec(e, s, c, clock).server.conns)
  {
    var reset, queue := Reset(s, c), s.conns[c].queue;
    ConnsAfter(e, reset, queue, clock);
    NotifiedKeepsQueues(ok, reset.conns, reset.index, KeysWritten(e, reset.store, queue, clock));
  }

  lemma OrdinaryKeepsQueues<S, T>(
    e: Engine<S>, ok: RespValue -> bool, s: Server<S, T>, c: T, request: RespValue, now: nat)
    requires QueuesMeet(ok, s.conns) && c in s.conns && IsRequest(request) && ok(request)
    ensures QueuesMeet(ok, DoOrdinary(e, s, c, request, now).server.conns)
  {
    NotifiedKeepsQueues(ok, s.conns, s.index, EffectOf(e, s.store, request, now).notified);
  }

  lemma StepKeepsQueues<S, T>(e: Engine<S>, ok: RespValue -> bool, s: Server<S, T>, step: Step<S, T>, t: Server<S, T>)
    requires QueuesMeet(ok, s.conns) && Next(e, s, step, t) && StepMeets(e, ok, step)
    ensures QueuesMeet(ok, t.conns)
  {
    if step.Request? {
      ExecKeepsQueues(e, ok, s, step.c, step.clock);
      if IsOrdinary(e, step.request) { OrdinaryKeepsQueues(e, ok, s, step.c, step.request, step.clock(0)); }
      DispatchCases(e, s, step.c, step.request, step.clock, (u: Server<S, T>) => QueuesMeet(ok, u.conns));
    }
  }
}
