/** The store thread always comes to rest, and what it does with commands that reply at once is what a dispatch does. */
module StoreThreadRest {
  import opened StoreData
  import opened Resp
  import opened Commands
  import opened Registrations
  import opened Transactions
  import opened RedisTransactions
  import opened Suspension
  import B = BlockingRuns

  function Iterated<X>(next: (X, nat) -> X, s: X, clocks: seq<nat>): X {
    if clocks == [] then s else next(Iterated(next, s, clocks[..|clocks| - 1]), clocks[|clocks| - 1])
  }

  lemma {:induction false} IteratedTwice<X>(next: (X, nat) -> X, s: X, a: seq<nat>, b: seq<nat>)
    ensures Iterated(next, Iterated(next, s, a), b) == Iterated(next, s, a + b)
  {
    if b == [] {
      assert a + b == a;
    } else {
      var n := |b| - 1;
      IteratedTwice(next, s, a, b[..n]);
      assert (a + b)[..|a| + n] == a + b[..n];
    }
  }

  lemma IteratedOnce<X>(next: (X, nat) -> X, s: X, now: nat)
    ensures Iterated(next, s, [now]) == next(s, now)
  {
    assert [now][..0] == [];
  }

  ghost function Going<T>(): (Thread<T>, nat) -> Thread<T> {
    (s: Thread<T>, now: nat) => Go(s, now)
  }

  /** The thread goes on, at the given times. */
  ghost function Gone<T>(s: Thread<T>, clocks: seq<nat>): Thread<T> {
    Iterated(Going(), s, clocks)
  }

  lemma GoneOnce<T>(s: Thread<T>, now: nat)
    ensures Gone(s, [now]) == Go(s, now)
  {
    IteratedOnce(Going(), s, now);
  }

  lemma GoneTwice<T>(s: Thread<T>, a: seq<nat>, b: seq<nat>)
    ensures Gone(Gone(s, a), b) == Gone(s, a + b)
  {
    IteratedTwice(Going(), s, a, b);
  }

  // ---------------------------------------------------------------- it comes to rest

  /** How much a waiter may still add to the stack. */
  function Weight(r: Registration<Waiter>): nat {
    3 * |r.owner.rest| + 3
  }

  function FrameWeight(frame: Frame): nat {
    match frame
    case Run(queue) => 3 * |queue| + 1
    case Serve(_) => 1
    case Replied(_) => 1
  }

  function StackWeight(stack: seq<Frame>): nat {
    if stack == [] then 0 else FrameWeight(stack[0]) + StackWeight(stack[1..])
  }

  ghost function Total(rs: set<Registration<Waiter>>): nat {
    if rs == {} then 0
    else
      var r :| r in rs;
      Weight(r) + Total(rs - {r})
  }

  lemma {:induction false} TotalWithout(rs: set<Registration<Waiter>>, r: Registration<Waiter>)
    requires r in rs
    ensures Total(rs) == Weight(r) + Total(rs - {r})
  {
    var q :| q in rs && Total(rs) == Weight(q) + Total(rs - {q});
    if q != r {
      TotalWithout(rs - {q}, r);
      TotalWithout(rs - {r}, q);
      assert rs - {q} - {r} == rs - {r} - {q};
    }
  }

  lemma {:induction false} TotalGrows(rs: set<Registration<Waiter>>, more: set<Registration<Waiter>>)
    requires rs <= more
    ensures Total(rs) <= Total(more)
  {
    if rs != {} {
      var r :| r in rs;
      TotalWithout(rs, r);
      TotalWithout(more, r);
      TotalGrows(rs - {r}, more - {r});
    }
  }

  /** Everyone who waits. */
  ghost function Blocked(w: World): set<Registration<Waiter>> {
    set key, r | key in w.index.watchers && r in w.index.watchers[key] :: r
  }

  ghost function Potential<T>(s: Thread<T>): nat {
    StackWeight(s.stack) + Total(Blocked(s.server.store))
  }

  lemma {:induction false} StackWeightConcat(a: seq<Frame>, b: seq<Frame>)
    ensures StackWeight(a + b) == StackWeight(a) + StackWeight(b)
  {
    if a == [] {
      assert a + b == b;
    } else {
      assert (a + b)[1..] == a[1..] + b;
      StackWeightConcat(a[1..], b);
    }
  }

  lemma WaitWeighs(w: World, request: RespValue, rest: seq<RespValue>)
    requires StoreOk(w) && MustWait(w, request)
    ensures Total(Blocked(Waiting(w, request, rest))) <= Total(Blocked(w)) + 3 * |rest| + 3
  {
    var keys, waiter := ActOf(request).keys, Waiter(request, rest);
    var r, after := Registration(w.index.nextId, waiter), Waiting(w, request, rest);
    forall q | q in Blocked(after) ensures q in Blocked(w) + {r} {
      var key :| key in after.index.watchers && q in after.index.watchers[key];
      B.JoinedAt(w.index, keys, waiter, key);
    }
    TotalGrows(Blocked(after), Blocked(w) + {r});
    TotalWithout(Blocked(w) + {r}, r);
    TotalGrows(Blocked(w) + {r} - {r}, Blocked(w));
  }

  lemma ServedWeighs(w: World, key: string)
    requires StoreOk(w) && Queue(w, key) != [] && HasList(w.data, key)
    ensures Total(Blocked(ServedOne(w, key))) + Weight(Queue(w, key)[0]) <= Total(Blocked(w))
  {
    var first, after := Queue(w, key)[0], ServedOne(w, key);
    ServedOneOk(w, key);
    assert first in w.index.watchers[key];
    forall q | q in Blocked(after) ensures q in Blocked(w) - {first} {
      var k :| k in after.index.watchers && q in after.index.watchers[k];
      assert q in Registrations.At(after.index, k);
      PurgedMembers(w.index, {first.id}, k, q);
    }
    TotalGrows(Blocked(after), Blocked(w) - {first});
    TotalWithout(Blocked(w), first);
  }

  lemma FollowingWeighs(request: RespValue, rest: seq<RespValue>)
    ensures StackWeight(Following(request, rest)) <= 3 * |rest| + 3
  {
    var serving := if ActOf(request).Pushing? then [Serve(ActOf(request).op.key)] else [];
    StackWeightConcat(serving, [Replied(request), Run(rest)]);
    assert [Replied(request), Run(rest)][1..] == [Run(rest)];
    assert StackWeight([Run(rest)]) == 3 * |rest| + 1;
  }

  lemma RunWeighs<T>(s: Thread<T>, now: nat)
    requires Inv(s) && s.stack != [] && s.stack[0].Run? && s.stack[0].queue != []
    ensures Potential(Go(s, now)) < Potential(s)
  {
    var w, queue, below := s.server.store, s.stack[0].queue, s.stack[1..];
    if MustWait(w, queue[0]) {
      WaitWeighs(w, queue[0], queue[1..]);
    } else {
      FollowingWeighs(queue[0], queue[1..]);
      StackWeightConcat(Following(queue[0], queue[1..]), below);
      assert Blocked(Go(s, now).server.store) == Blocked(w);
    }
  }

  lemma WokenWeighs(waiter: Waiter, key: string, below: seq<Frame>)
    ensures StackWeight(Woken(waiter) + [Serve(key)] + below) == 3 * |waiter.rest| + 3 + StackWeight(below)
  {
    StackWeightConcat(Woken(waiter) + [Serve(key)], below);
    StackWeightConcat(Woken(waiter), [Serve(key)]);
    assert Woken(waiter)[1..] == [Run(waiter.rest)];
    assert StackWeight([Run(waiter.rest)]) == 3 * |waiter.rest| + 1;
  }

  lemma ServeWeighs<T>(s: Thread<T>, now: nat)
    requires Inv(s) && s.stack != [] && s.stack[0].Serve?
    ensures Potential(Go(s, now)) < Potential(s)
  {
    var w, key, below := s.server.store, s.stack[0].key, s.stack[1..];
    if Queue(w, key) != [] {
      if HasList(w.data, key) {
        ServedOneOk(w, key);
        ServedWeighs(w, key);
        WokenWeighs(Queue(w, key)[0].owner, key, below);
      } else {
        NothingToServe(w, key);
      }
    }
  }

  lemma GoWeighs<T>(s: Thread<T>, now: nat)
    requires Inv(s) && s.stack != []
    ensures Potential(Go(s, now)) < Potential(s)
  {
    match s.stack[0]
    case Run(queue) => if queue != [] { RunWeighs(s, now); }
    case Serve(_) => ServeWeighs(s, now);
    case Replied(_) =>
  }

  lemma {:induction false} GoneWeighs<T>(s: Thread<T>, clocks: seq<nat>)
    requires Inv(s)
    ensures Inv(Gone(s, clocks))
    ensures Gone(s, clocks).stack == [] || Potential(Gone(s, clocks)) + |clocks| <= Potential(s)
  {
    if clocks != [] {
      var n := |clocks| - 1;
      GoneWeighs(s, clocks[..n]);
      GoKeepsInv(Gone(s, clocks[..n]), clocks[n]);
      if Gone(s, clocks[..n]).stack != [] {
        GoWeighs(Gone(s, clocks[..n]), clocks[n]);
      }
    }
  }

  lemma SomethingWeighs(stack: seq<Frame>)
    requires stack != []
    ensures StackWeight(stack) > 0
  {}

  /**
   However servings and suspended EXECs are nested: if nothing new arrives, the store thread is idle after a
   bounded number of steps.
   */
  lemma ComesToRest<T>(s: Thread<T>, clocks: seq<nat>)
    requires Inv(s) && |clocks| >= Potential(s)
    ensures Gone(s, clocks).stack == []
  {
    GoneWeighs(s, clocks);
    if Gone(s, clocks).stack != [] {
      SomethingWeighs(Gone(s, clocks).stack);
    }
  }

  // ---------------------------------------------------------------- commands that reply at once

  lemma OpIsEffect(w: World, request: RespValue, now: nat)
    requires ActOf(request).Pushing? || ActOf(request).Writing?
    ensures IsRequest(request) && EffectOf(RedisEngine, w, request, now) == RunOp(w, ActOf(request).op, now)
  {
    assert IsWrite(RedisEngine.kind(request));
  }

  lemma PopIsEffect(w: World, request: RespValue, now: nat)
    requires ActOf(request).Popping?
    ensures IsRequest(request) && KindOf(request) == BLPop
    ensures EffectOf(RedisEngine, w, request, now) == RunBlpop(w, request)
  {}

  lemma NothingIsEffect(w: World, request: RespValue, now: nat)
    requires ActOf(request).Nothing? && IsRequest(request)
    ensures EffectOf(RedisEngine, w, request, now).store == w && EffectOf(RedisEngine, w, request, now).notified == []
  {}

  /** Then what a command does before serving anyone is all it does. */
  lemma BegunIsEffect(w: World, request: RespValue, now: nat)
    requires NobodyWaits(w) && IsRequest(request) && !MustWait(w, request)
    ensures
      var effect, begun := EffectOf(RedisEngine, w, request, now), Begun(w.data, request, now);
      effect.store == w.(data := begun.0) && effect.notified == begun.1
  {
    match ActOf(request)
    case Pushing(op) => OpIsEffect(w, request, now); NobodyIsServed(w, op, now);
    case Writing(op) => OpIsEffect(w, request, now); NobodyIsServed(w, op, now);
    case Popping(_) => PopIsEffect(w, request, now);
    case Nothing => NothingIsEffect(w, request, now);
  }

  /** One command from its beginning to its reply. */
  lemma RunsOne<T>(s: Thread<T>, request: RespValue, rest: seq<RespValue>, now: nat, after: Server<World, T>)
    returns (clocks: seq<nat>)
    requires s.stack == [Run([request] + rest)] && IsRequest(request)
    requires NobodyWaits(s.server.store) && !MustWait(s.server.store, request)
    requires after == Ran(RedisEngine, s.server, request, now)
    ensures Gone(s, clocks) == Thread(after, [Run(rest)], s.parked) && NobodyWaits(after.store)
  {
    BegunIsEffect(s.server.store, request, now);
    clocks := if ActOf(request).Pushing? then [now, now, now] else [now, now];
    assert ([request] + rest)[1..] == rest;
    var begun := Go(s, now);
    assert begun.stack == Following(request, rest) + [] == Following(request, rest);
    GoneOnce(s, now);
    GoneTwice(s, [now], clocks[1..]);
    assert clocks == [now] + clocks[1..];
    RepliesAtOnce(begun, request, rest, now);
  }

  lemma RepliesAtOnce<T>(s: Thread<T>, request: RespValue, rest: seq<RespValue>, now: nat)
    requires s.stack == Following(request, rest) && IsRequest(request) && NobodyWaits(s.server.store)
    ensures Gone(s, if ActOf(request).Pushing? then [now, now] else [now]) ==
        Thread(Sent(s.server, request), [Run(rest)], s.parked)
  {
    var replying := s.(stack := [Replied(request), Run(rest)]);
    assert replying.stack[1..] == [Run(rest)];
    GoneOnce(replying, now);
    if ActOf(request).Pushing? {
      assert s.stack[1..] == [Replied(request), Run(rest)];
      GoneOnce(s, now);
      GoneTwice(s, [now], [now]);
      assert [now] + [now] == [now, now];
    } else {
      assert s.stack == [Replied(request), Run(rest)];
    }
  }

  /** Every command of the queue need not wait when its turn comes. */
  ghost predicate AllAtOnce(w: World, queue: seq<RespValue>, clock: nat -> nat)
    requires AllOrdinary(RedisEngine, queue)
  {
    forall m :: 0 <= m < |queue| ==> !MustWait(StoreAfter(RedisEngine, w, queue[..m], clock), queue[m])
  }

  lemma AtOnceAt<T>(s: Server<World, T>, queue: seq<RespValue>, clock: nat -> nat, k: nat)
    requires AllOrdinary(RedisEngine, queue) && k < |queue| && AllAtOnce(s.store, queue, clock)
    ensures !MustWait(RanAll(RedisEngine, s, queue[..k], clock).store, queue[k])
  {
    StoreOfRanAll(RedisEngine, s, queue[..k], clock);
  }

  /** The first `k` commands of the queue have run. */
  ghost function Reached<T>(s: Thread<T>, queue: seq<RespValue>, clock: nat -> nat, k: nat): Thread<T>
    requires AllOrdinary(RedisEngine, queue) && k <= |queue|
  {
    Thread(RanAll(RedisEngine, s.server, queue[..k], clock), [Run(queue[k..])], s.parked)
  }

  lemma RunsOneOf<T>(s: Thread<T>, start: Server<World, T>, queue: seq<RespValue>, clock: nat -> nat, k: nat)
    returns (clocks: seq<nat>)
    requires AllOrdinary(RedisEngine, queue) && k < |queue|
    requires s.server == RanAll(RedisEngine, start, queue[..k], clock) && s.stack == [Run([queue[k]] + queue[k + 1..])]
    requires NobodyWaits(s.server.store) && !MustWait(s.server.store, queue[k])
    ensures Gone(s, clocks) ==
        Thread(RanAll(RedisEngine, start, queue[..k + 1], clock), [Run(queue[k + 1..])], s.parked)
    ensures NobodyWaits(Gone(s, clocks).server.store)
  {
    RanAllSnoc(RedisEngine, start, queue, clock, k);
    clocks := RunsOne(s, queue[k], queue[k + 1..], clock(k), RanAll(RedisEngine, start, queue[..k + 1], clock));
  }

  lemma ReachedStack<T>(s: Thread<T>, queue: seq<RespValue>, clock: nat -> nat, k: nat)
    requires AllOrdinary(RedisEngine, queue) && k < |queue|
    ensures Reached(s, queue, clock, k).stack == [Run([queue[k]] + queue[k + 1..])]
  {
    assert queue[k..] == [queue[k]] + queue[k + 1..];
  }

  lemma RunsNext<T>(s: Thread<T>, t: Thread<T>, queue: seq<RespValue>, clock: nat -> nat, k: nat)
    returns (clocks: seq<nat>)
    requires AllOrdinary(RedisEngine, queue) && k < |queue| && t == Reached(s, queue, clock, k)
    requires NobodyWaits(t.server.store) && !MustWait(t.server.store, queue[k])
    ensures Gone(t, clocks) == Reached(s, queue, clock, k + 1) && NobodyWaits(Gone(t, clocks).server.store)
  {
    ReachedStack(s, queue, clock, k);
    clocks := RunsOneOf(t, s.server, queue, clock, k);
  }

  lemma RunsNextAtOnce<T>(s: Thread<T>, queue: seq<RespValue>, clock: nat -> nat, k: nat) returns (clocks: seq<nat>)
    requires AllOrdinary(RedisEngine, queue) && k < |queue| && AllAtOnce(s.server.store, queue, clock)
    requires NobodyWaits(Reached(s, queue, clock, k).server.store)
    ensures Gone(Reached(s, queue, clock, k), clocks) == Reached(s, queue, clock, k + 1)
    ensures NobodyWaits(Reached(s, queue, clock, k + 1).server.store)
  {
    AtOnceAt(s.server, queue, clock, k);
    clocks := RunsNext(s, Reached(s, queue, clock, k), queue, clock, k);
  }

  lemma {:induction false} RunsUpTo<T>(s: Thread<T>, queue: seq<RespValue>, clock: nat -> nat, k: nat)
    returns (clocks: seq<nat>)
    requires s.stack == [Run(queue)] && AllOrdinary(RedisEngine, queue) && k <= |queue|
    requires NobodyWaits(s.server.store) && AllAtOnce(s.server.store, queue, clock)
    ensures Gone(s, clocks) == Reached(s, queue, clock, k) && NobodyWaits(Reached(s, queue, clock, k).server.store)
    decreases k
  {
    if k == 0 {
      clocks := [];
    } else {
      var some := RunsUpTo(s, queue, clock, k - 1);
      var more := RunsNextAtOnce(s, queue, clock, k - 1);
      GoneTwice(s, some, more);
      clocks := some + more;
    }
  }

  /**
   An EXEC with nobody blocked, none of whose commands has to wait, comes to its end at once, and leaves what
   dispatching it in one step leaves.
   */
  lemma ExecAtOnceIsDispatch<T>(s: Thread<T>, c: T, request: RespValue, clock: nat -> nat) returns (clocks: seq<nat>)
    requires Inv(s) && s.stack == [] && c in s.server.conns && IsRequest(request) && KindOf(request) == Exec
    requires s.server.conns[c].active && !s.server.conns[c].dirty
    requires NobodyWaits(s.server.store) && AllAtOnce(s.server.store, s.server.conns[c].queue, clock)
    ensures Gone(Accept(s, c, request), clocks) ==
            s.(server := Dispatch(RedisEngine, s.server, c, request, clock).server)
  {
    var queue, accepted := s.server.conns[c].queue, Accept(s, c, request);
    clocks := RunsUpTo(accepted, queue, clock, |queue|);
    assert queue[..|queue|] == queue && queue[|queue|..] == [];
    GoneTwice(accepted, clocks, [0]);
    GoneOnce(Gone(accepted, clocks), 0);
    clocks := clocks + [0];
  }

  /** So does a request outside a transaction that need not wait. */
  lemma OrdinaryAtOnceIsDispatch<T>(s: Thread<T>, c: T, request: RespValue, clock: nat -> nat)
    returns (clocks: seq<nat>)
    requires Inv(s) && s.stack == [] && c in s.server.conns && !s.server.conns[c].active
    requires IsRequest(request) && !IsTransactionControl(KindOf(request))
    requires NobodyWaits(s.server.store) && !MustWait(s.server.store, request)
    ensures Gone(Accept(s, c, request), clocks) ==
            s.(server := Dispatch(RedisEngine, s.server, c, request, clock).server)
  {
    var accepted, after := Accept(s, c, request), Ran(RedisEngine, s.server, request, clock(0));
    assert [request] + [] == [request];
    clocks := RunsOne(accepted, request, [], clock(0), after);
    GoneTwice(accepted, clocks, [0]);
    GoneOnce(Gone(accepted, clocks), 0);
    clocks := clocks + [0];
  }
}
