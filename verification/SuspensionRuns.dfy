/** Runs of the store thread: wakeups, dirty flags and check-and-set when EXECs may be suspended. */
module SuspensionRuns {
  import opened Base
  import opened Resp
  import opened StoreData
  import opened Commands
  import opened Registrations
  import opened Blocking
  import opened Transactions
  import opened RedisTransactions
  import opened Suspension
  import B = BlockingRuns
  import R = TransactionRuns

  // ---------------------------------------------------------------- runs

  ghost function Missteps<T>(states: seq<Thread<T>>, steps: seq<Step<T>>): set<nat>
    requires |states| == |steps| + 1
  {
    set i | 0 <= i < |steps| && !Next(states[i], steps[i], states[i + 1])
  }

  /** Nobody is connected, nobody waits, and the thread is idle. */
  ghost predicate Initial<T>(s: Thread<T>) {
    && s.server.index == Index(map[], map[], 1) && s.server.conns == map[] && s.stack == [] && s.parked == []
    && s.server.store.index == Index(map[], map[], 1) && s.server.store.delivered == []
    && NoEmptyList(s.server.store.data)
  }

  /** A run, in which only commands are sent whose effect on the store is given. */
  ghost predicate IsRun<T>(states: seq<Thread<T>>, steps: seq<Step<T>>) {
    && |states| == |steps| + 1 && Initial(states[0]) && Missteps(states, steps) == {}
    && forall i :: 0 <= i < |steps| && steps[i].Request? ==> Handled(steps[i].request)
  }

  lemma NoMisstep<T>(states: seq<Thread<T>>, steps: seq<Step<T>>, i: nat)
    requires |states| == |steps| + 1 && i < |steps| && i !in Missteps(states, steps)
    ensures Next(states[i], steps[i], states[i + 1])
  {}

  lemma StepAt<T>(states: seq<Thread<T>>, steps: seq<Step<T>>, i: nat)
    requires IsRun(states, steps) && i < |steps|
    ensures Next(states[i], steps[i], states[i + 1])
  {
    NoMisstep(states, steps, i);
  }

  lemma InitialInv<T>(s: Thread<T>)
    requires Initial(s)
    ensures Inv(s)
  {}

  lemma {:induction false} RunKeepsInv<T>(states: seq<Thread<T>>, steps: seq<Step<T>>, i: nat)
    requires IsRun(states, steps) && i < |states|
    ensures Inv(states[i])
    decreases i
  {
    if i == 0 {
      InitialInv(states[0]);
    } else {
      RunKeepsInv(states, steps, i - 1);
      StepAt(states, steps, i - 1);
      StepKeepsInv(states[i - 1], steps[i - 1], states[i]);
    }
  }

  /**
   No wakeup is lost, whoever waits, alone or inside a suspended EXEC: whenever the store thread is idle, no
   stored list is empty, no key has both a waiter and a list, and no waiter was served twice or still waits
   after being served.
   */
  lemma NoLostWakeup<T>(states: seq<Thread<T>>, steps: seq<Step<T>>, i: nat)
    requires IsRun(states, steps) && i < |states| && states[i].stack == []
    ensures B.Inv(states[i].server.store)
  {
    RunKeepsInv(states, steps, i);
  }

  // ---------------------------------------------------------------- dirty flags

  /** The command that begins in this step. */
  function Beginning<T>(s: Thread<T>, step: Step<T>): Option<RespValue> {
    if step.Goes? && s.stack != [] && s.stack[0].Run? && s.stack[0].queue != [] then Some(s.stack[0].queue[0]) else None
  }

  /** The keys announced as written in this step. */
  function Announced<T>(s: Thread<T>, step: Step<T>): seq<string> {
    match Beginning(s, step)
    case Some(request) =>
      if MustWait(s.server.store, request) then [] else Begun(s.server.store.data, request, step.now).1
    case None => []
  }

  /** The step ends a transaction of connection `d`: by EXEC, whether it aborts or runs, or by DISCARD. */
  ghost predicate Ends<T>(s: Thread<T>, step: Step<T>, d: T) {
    && step.Request? && step.c == d && KindOf(step.request) in {Exec, Discard}
    && d in s.server.conns && s.server.conns[d].active
  }

  /** A request that runs no command: control, a queued command, or an EXEC that is refused or aborts. */
  predicate RunsNothing(conn: Conn, kind: Kind) {
    if kind == Exec then !conn.active || conn.dirty else IsTransactionControl(kind) || conn.active
  }

  /** Requests that run nothing are steps of the transaction system. */
  lemma AcceptIsDispatch<T>(s: Thread<T>, c: T, request: RespValue, t: Thread<T>)
    requires Inv(s) && Next(s, Request(c, request), t)
    requires RunsNothing(s.server.conns[c], KindOf(request))
    ensures R.Next(RedisEngine, s.server, R.Request(c, request, _ => 0), t.server)
    ensures R.Announced(RedisEngine, s.server, R.Request(c, request, _ => 0)) == []
  {}

  lemma AcceptDirty<T>(s: Thread<T>, c: T, request: RespValue, t: Thread<T>, d: T)
    requires Inv(s) && Next(s, Request(c, request), t)
    ensures R.DirtyRule(s.server, d, Ends(s, Request(c, request), d), [], t.server)
  {
    if RunsNothing(s.server.conns[c], KindOf(request)) {
      AcceptIsDispatch(s, c, request, t);
      R.StepDirty(RedisEngine, s.server, R.Request(c, request, _ => 0), t.server, d);
    }
  }

  lemma GoDirty<T>(s: Thread<T>, now: nat, d: T)
    requires Inv(s) && s.stack != []
    ensures R.DirtyRule(s.server, d, false, Announced(s, Goes(now)), Go(s, now).server)
    ensures d in Go(s, now).server.conns <==> d in s.server.conns
    ensures d in s.server.conns ==> Go(s, now).server.conns[d].watched == s.server.conns[d].watched
  {
    if d in s.server.conns && Beginning(s, Goes(now)).Some? {
      R.NotifiedDirty(s.server.index, s.server.conns, Announced(s, Goes(now)), d);
    }
  }

  /** A connection is dirty after a step if it was and its transaction goes on, or a key it watches was announced. */
  lemma StepDirty<T>(s: Thread<T>, step: Step<T>, t: Thread<T>, d: T)
    requires Inv(s) && Next(s, step, t)
    ensures R.DirtyRule(s.server, d, Ends(s, step, d), Announced(s, step), t.server)
  {
    match step
    case Request(c, request) => AcceptDirty(s, c, request, t, d);
    case Goes(now) => GoDirty(s, now, d);
    case _ =>
  }

  /** In this step a key is announced that `c` watches. */
  ghost predicate Struck<T>(s: Thread<T>, step: Step<T>, t: Thread<T>, c: T) {
    c in t.server.conns && R.Touches(Announced(s, step), t.server.conns[c].watched)
  }

  /** This step gives `c` a clean start: it connects, or ends a transaction. */
  ghost predicate StartsClean<T>(s: Thread<T>, step: Step<T>, c: T) {
    c !in s.server.conns || Ends(s, step, c)
  }

  ghost predicate IsDirty<T>(s: Thread<T>, c: T) {
    c in s.server.conns && s.server.conns[c].dirty
  }

  lemma DirtyNext<T>(s: Thread<T>, step: Step<T>, t: Thread<T>, c: T)
    requires Inv(s) && Next(s, step, t) && c in t.server.conns
    ensures IsDirty(t, c) <==> (IsDirty(s, c) && !StartsClean(s, step, c)) || Struck(s, step, t, c)
  {
    StepDirty(s, step, t, c);
  }

  ghost function Strikes<T>(states: seq<Thread<T>>, steps: seq<Step<T>>, c: T): nat -> bool {
    (i: nat) => i < |steps| && i + 1 < |states| && Struck(states[i], steps[i], states[i + 1], c)
  }

  ghost function CleanStarts<T>(states: seq<Thread<T>>, steps: seq<Step<T>>, c: T): nat -> bool {
    (i: nat) => i < |steps| && i < |states| && StartsClean(states[i], steps[i], c)
  }

  ghost function Dirties<T>(states: seq<Thread<T>>, c: T): nat -> bool {
    (i: nat) => i < |states| && IsDirty(states[i], c)
  }

  ghost function Connections<T>(states: seq<Thread<T>>, c: T): nat -> bool {
    (i: nat) => i < |states| && c in states[i].server.conns
  }

  lemma Lifted<T>(states: seq<Thread<T>>, steps: seq<Step<T>>, i: nat, c: T)
    requires i < |steps| && i + 1 < |states|
    requires
      IsDirty(states[i + 1], c) <==>
      || (IsDirty(states[i], c) && !StartsClean(states[i], steps[i], c))
      || Struck(states[i], steps[i], states[i + 1], c)
    ensures R.FlagRule(Dirties(states, c), Strikes(states, steps, c), CleanStarts(states, steps, c), i)
  {}

  lemma DirtyAt<T>(states: seq<Thread<T>>, steps: seq<Step<T>>, i: nat, c: T)
    requires IsRun(states, steps) && i < |steps| && c in states[i + 1].server.conns
    ensures R.FlagRule(Dirties(states, c), Strikes(states, steps, c), CleanStarts(states, steps, c), i)
  {
    RunKeepsInv(states, steps, i);
    StepAt(states, steps, i);
    DirtyNext(states[i], steps[i], states[i + 1], c);
    Lifted(states, steps, i, c);
  }

  /**
   A connection is dirty exactly when a key it watched was announced since its last clean start, be it by a
   command of its own time or by one that an EXEC suspended long before has only now come to.
   */
  lemma DirtyIsExact<T>(states: seq<Thread<T>>, steps: seq<Step<T>>, c: T, j: nat)
    requires IsRun(states, steps) && j < |states| && c in states[j].server.conns
    ensures IsDirty(states[j], c) <==> R.Since(Strikes(states, steps, c), CleanStarts(states, steps, c), j)
  {
    var flag, there := Dirties(states, c), Connections(states, c);
    var event, wiped := Strikes(states, steps, c), CleanStarts(states, steps, c);
    forall i: nat | i < j && there(i + 1) ensures R.FlagRule(flag, event, wiped, i) {
      DirtyAt(states, steps, i, c);
    }
    R.FlagIsSince(flag, there, event, wiped, j);
  }

  /** EXEC inside MULTI runs its commands if and only if no such announcement was made. */
  lemma ExecRunsExactly<T>(states: seq<Thread<T>>, steps: seq<Step<T>>, j: nat, c: T, request: RespValue)
    requires IsRun(states, steps) && j < |steps| && steps[j] == Request(c, request) && KindOf(request) == Exec
    requires c in states[j].server.conns && states[j].server.conns[c].active
    ensures states[j + 1].stack == [Run(states[j].server.conns[c].queue)] <==>
            !R.Since(Strikes(states, steps, c), CleanStarts(states, steps, c), j)
  {
    DirtyIsExact(states, steps, c, j);
    StepAt(states, steps, j);
  }

  // ---------------------------------------------------------------- check-and-set

  /** The key keeps its contents, or, if something was popped, its list gets shorter. */
  predicate Moved(before: Data, after: Data, key: string, popped: bool) {
    if popped then |ItemsAt(after, key)| < |ItemsAt(before, key)| else Content(after, key) == Content(before, key)
  }

  lemma MovedTwice(a: Data, b: Data, c: Data, key: string, first: bool, second: bool)
    requires Moved(a, b, key, first) && Moved(b, c, key, second)
    ensures Moved(a, c, key, first || second)
  {}

  /** In this step a BLPOP begins that takes from the key at once. */
  predicate Pops<T>(s: Thread<T>, step: Step<T>, key: string) {
    Beginning(s, step).Some? && PopsFrom(s.server.store, Beginning(s, step).value, key)
  }

  /** A command announces every key whose contents it changes, except that BLPOP takes silently. */
  lemma BegunMoves(w: World, request: RespValue, now: nat, key: string)
    requires NoEmptyList(w.data) && key !in Begun(w.data, request, now).1
    ensures Moved(w.data, Begun(w.data, request, now).0, key, PopsFrom(w, request, key))
  {
    match ActOf(request)
    case Pushing(op) => SilentChangeIsRejectedXAdd(w.data, op, now, key);
    case Writing(op) => SilentChangeIsRejectedXAdd(w.data, op, now, key);
    case Popping(keys) => B.FirstListFinds(w.data, keys);
    case Nothing =>
  }

  /** Serving a key changes no other. */
  lemma ServeMoves<T>(s: Thread<T>, now: nat, key: string)
    requires Inv(s) && s.stack != [] && s.stack[0].Serve? && s.stack[0].key != key
    ensures Moved(s.server.store.data, Go(s, now).server.store.data, key, false)
  {
    var w, served := s.server.store, s.stack[0].key;
    if Queue(w, served) != [] {
      if HasList(w.data, served) { ServedOneOk(w, served); } else { NothingToServe(w, served); }
    }
  }

  lemma GoMoves<T>(s: Thread<T>, now: nat, key: string)
    requires Inv(s) && s.stack != [] && key !in Announced(s, Goes(now)) && s.stack[0] != Serve(key)
    ensures Moved(s.server.store.data, Go(s, now).server.store.data, key, Pops(s, Goes(now), key))
  {
    if s.stack[0].Serve? {
      ServeMoves(s, now, key);
    } else if Beginning(s, Goes(now)).Some? && !MustWait(s.server.store, Beginning(s, Goes(now)).value) {
      BegunMoves(s.server.store, Beginning(s, Goes(now)).value, now, key);
    }
  }

  lemma OthersDoNotMove<T>(s: Thread<T>, step: Step<T>, t: Thread<T>)
    requires Inv(s) && Next(s, step, t) && !step.Goes?
    ensures t.server.store.data == s.server.store.data
  {
    if step.Request? {
      if RunsNothing(s.server.conns[step.c], KindOf(step.request)) {
        OnlyRunningCommandsHaveEffect(RedisEngine, s.server, step.c, step.request, _ => 0);
      }
    }
  }

  ghost predicate IsWatching<T>(s: Thread<T>, c: T, key: string) {
    c in s.server.conns && key in s.server.conns[c].watched
  }

  lemma EndUnwatches<T>(s: Thread<T>, step: Step<T>, t: Thread<T>, c: T)
    requires Inv(s) && Next(s, step, t) && Ends(s, step, c)
    ensures c in t.server.conns && t.server.conns[c].watched == map[]
  {}

  /** A step after which a watcher is clean: it was clean before, and the key changed only if a BLPOP took from it. */
  lemma CleanStep<T>(s: Thread<T>, step: Step<T>, t: Thread<T>, c: T, key: string)
    requires Inv(s) && Next(s, step, t) && IsWatching(s, c, key) && IsWatching(t, c, key) && !t.server.conns[c].dirty
    ensures !s.server.conns[c].dirty
    ensures Moved(s.server.store.data, t.server.store.data, key, Pops(s, step, key))
  {
    StepDirty(s, step, t, c);
    if Ends(s, step, c) { EndUnwatches(s, step, t, c); }
    assert key !in Announced(s, step);
    if step.Goes? {
      assert Serve(key) !in s.stack;
      GoMoves(s, step.now, key);
    } else {
      OthersDoNotMove(s, step, t);
    }
  }

  /** `c` is connected and watches the key in every state from `i` to `j`. */
  ghost predicate WatchesThroughout<T>(states: seq<Thread<T>>, c: T, key: string, i: nat, j: nat)
    requires j < |states|
  {
    forall k :: i <= k <= j ==> IsWatching(states[k], c, key)
  }

  /** The steps in which a BLPOP begins that takes from the key. */
  ghost function Poppings<T>(states: seq<Thread<T>>, steps: seq<Step<T>>, key: string): nat -> bool {
    (k: nat) => k < |steps| && k < |states| && Pops(states[k], steps[k], key)
  }

  /** `event` happens at some time from `i` on, before `j`. */
  ghost predicate Between(event: nat -> bool, i: nat, j: nat) {
    exists k: nat :: i <= k < j && event(k)
  }

  lemma BetweenSnoc(event: nat -> bool, i: nat, j: nat)
    requires i < j
    ensures Between(event, i, j) <==> Between(event, i, j - 1) || event(j - 1)
  {}

  lemma CleanStepAt<T>(states: seq<Thread<T>>, steps: seq<Step<T>>, c: T, key: string, j: nat)
    requires IsRun(states, steps) && 0 < j < |states|
    requires IsWatching(states[j - 1], c, key) && IsWatching(states[j], c, key) && !states[j].server.conns[c].dirty
    ensures !states[j - 1].server.conns[c].dirty
    ensures Moved(states[j - 1].server.store.data, states[j].server.store.data, key,
                  Poppings(states, steps, key)(j - 1))
  {
    RunKeepsInv(states, steps, j - 1);
    StepAt(states, steps, j - 1);
    CleanStep(states[j - 1], steps[j - 1], states[j], c, key);
  }

  lemma {:induction false} CleanMoves<T>(states: seq<Thread<T>>, steps: seq<Step<T>>, c: T, key: string, i: nat, j: nat)
    requires IsRun(states, steps) && i <= j < |states|
    requires WatchesThroughout(states, c, key, i, j) && !states[j].server.conns[c].dirty
    ensures Moved(states[i].server.store.data, states[j].server.store.data, key,
                  Between(Poppings(states, steps, key), i, j))
    decreases j
  {
    if i < j {
      CleanStepAt(states, steps, c, key, j);
      CleanMoves(states, steps, c, key, i, j - 1);
      BetweenSnoc(Poppings(states, steps, key), i, j);
      MovedTwice(states[i].server.store.data, states[j - 1].server.store.data, states[j].server.store.data, key,
                 Between(Poppings(states, steps, key), i, j - 1), Poppings(states, steps, key)(j - 1));
    }
  }

  /**
   Check-and-set with WATCH, over all runs, suspended EXECs included: while a connection watches a key and stays
   clean, the key has at `j` what it had at `i` if and only if no BLPOP began in between that took from it.
   */
  lemma CleanValueIffNotPopped<T>(states: seq<Thread<T>>, steps: seq<Step<T>>, c: T, key: string, i: nat, j: nat)
    requires IsRun(states, steps) && i <= j < |states|
    requires WatchesThroughout(states, c, key, i, j) && !states[j].server.conns[c].dirty
    ensures Content(states[j].server.store.data, key) == Content(states[i].server.store.data, key) <==>
            !Between(Poppings(states, steps, key), i, j)
  {
    CleanMoves(states, steps, c, key, i, j);
  }

  // ---------------------------------------------------------------- a pop inside another client's push

  lemma {:induction false} SameFirstList(a: Data, b: Data, keys: seq<string>)
    requires forall key :: key in keys ==> (HasList(a, key) <==> HasList(b, key))
    ensures B.FirstList(a, keys) == B.FirstList(b, keys)
  {
    if keys != [] {
      assert HasList(a, keys[0]) <==> HasList(b, keys[0]);
      assert forall key :: key in keys[1..] ==> key in keys;
      SameFirstList(a, b, keys[1..]);
    }
  }

  /** The first waiter of the key being served gets its item and replies. */
  lemma ServeWakes<T>(s: Thread<T>, key: string, now: nat)
    requires Inv(s) && s.stack != [] && s.stack[0] == Serve(key)
    requires Queue(s.server.store, key) != [] && HasList(s.server.store.data, key)
    ensures
      var t := Go(Go(s, now), now);
      && t.server.store == ServedOne(s.server.store, key)
      && t.server.conns == s.server.conns && t.server.index == s.server.index
      && t.stack == [Run(Queue(s.server.store, key)[0].owner.rest), Serve(key)] + s.stack[1..]
  {
    ServedOneOk(s.server.store, key);
    var waiter := Queue(s.server.store, key)[0].owner;
    var woken := Go(s, now);
    assert woken.stack == [Replied(waiter.request)] + ([Run(waiter.rest), Serve(key)] + s.stack[1..]);
  }

  /**
   While a push on one key is being served, an EXEC that was suspended there goes on inside it. If its next
   command is a BLPOP on other keys, that takes from `key` and makes no watcher of `key` dirty.
   */
  lemma PopInsideAnotherPush<T>(s: Thread<T>, served: string, key: string, now: nat)
    requires Inv(s) && s.stack != [] && s.stack[0] == Serve(served)
    requires Queue(s.server.store, served) != [] && HasList(s.server.store.data, served)
    requires
      var rest := Queue(s.server.store, served)[0].owner.rest;
      rest != [] && ActOf(rest[0]).Popping? && served !in ActOf(rest[0]).keys && PopsFrom(s.server.store, rest[0], key)
    ensures
      var t := Go(Go(Go(s, now), now), now);
      && |ItemsAt(t.server.store.data, key)| < |ItemsAt(s.server.store.data, key)|
      && t.server.conns == s.server.conns
  {
    var w := s.server.store;
    var woken, request := Go(Go(s, now), now), Queue(w, served)[0].owner.rest[0];
    ServeWakes(s, served, now);
    ServedOneOk(w, served);
    ServedElsewhere(w, served);
    SameFirstList(w.data, woken.server.store.data, ActOf(request).keys);
    B.FirstListFinds(w.data, ActOf(request).keys);
    TakesFirst(woken, request, key, now);
  }

  lemma ServedElsewhere(w: World, served: string)
    requires StoreOk(w) && Queue(w, served) != [] && HasList(w.data, served)
    ensures forall key :: key != served ==>
              (HasList(ServedOne(w, served).data, key) <==> HasList(w.data, key)) &&
              ItemsAt(ServedOne(w, served).data, key) == ItemsAt(w.data, key)
  {}

  lemma TakesFirst<T>(s: Thread<T>, request: RespValue, key: string, now: nat)
    requires NoEmptyList(s.server.store.data) && s.stack != [] && s.stack[0].Run? && s.stack[0].queue != []
    requires s.stack[0].queue[0] == request && ActOf(request).Popping?
    requires B.FirstList(s.server.store.data, ActOf(request).keys) == Some(key)
    ensures |ItemsAt(Go(s, now).server.store.data, key)| < |ItemsAt(s.server.store.data, key)|
    ensures Go(s, now).server.conns == s.server.conns
  {
    B.FirstListFinds(s.server.store.data, ActOf(request).keys);
    assert Notified(s.server.conns, s.server.index, []) == s.server.conns;
  }
}
