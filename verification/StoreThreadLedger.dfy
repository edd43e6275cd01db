/**
 The books of the store thread: every command a client's request loads is begun exactly once and replies exactly
 once, wherever it waits in between, and every write is propagated exactly once, when it replies.
 */
module StoreThreadLedger {
  import opened Base
  import opened Resp
  import opened Commands
  import opened Registrations
  import opened StoreData
  import opened Transactions
  import opened RedisTransactions
  import opened Suspension
  import opened SuspensionRuns
  import opened StoreThreadRest
  import B = BlockingRuns

  // ---------------------------------------------------------------- sums

  type Bag = multiset<RespValue>

  function SeqSum<X>(xs: seq<X>, f: X -> Bag): Bag {
    if xs == [] then multiset{} else f(xs[0]) + SeqSum(xs[1..], f)
  }

  lemma {:induction false} SeqSumConcat<X>(xs: seq<X>, ys: seq<X>, f: X -> Bag)
    ensures SeqSum(xs + ys, f) == SeqSum(xs, f) + SeqSum(ys, f)
  {
    if xs == [] {
      assert xs + ys == ys;
    } else {
      assert (xs + ys)[1..] == xs[1..] + ys;
      SeqSumConcat(xs[1..], ys, f);
    }
  }

  lemma SeqSumOne<X>(x: X, f: X -> Bag)
    ensures SeqSum([x], f) == f(x)
  {
    assert [x][1..] == [];
  }

  lemma SeqSumCons<X>(xs: seq<X>, f: X -> Bag)
    requires xs != []
    ensures SeqSum(xs, f) == f(xs[0]) + SeqSum(xs[1..], f)
  {}

  ghost function SetSum<X>(xs: set<X>, f: X -> Bag): Bag {
    if xs == {} then multiset{}
    else
      var x :| x in xs;
      f(x) + SetSum(xs - {x}, f)
  }

  lemma {:induction false} SetSumWithout<X>(xs: set<X>, x: X, f: X -> Bag)
    requires x in xs
    ensures SetSum(xs, f) == f(x) + SetSum(xs - {x}, f)
  {
    var y :| y in xs && SetSum(xs, f) == f(y) + SetSum(xs - {y}, f);
    if y != x {
      SetSumWithout(xs - {y}, x, f);
      SetSumWithout(xs - {x}, y, f);
      assert xs - {y} - {x} == xs - {x} - {y};
    }
  }

  /** Something moves from one pile to another. */
  lemma MovesOver(from: Bag, left: Bag, to: Bag, grown: Bag, moved: Bag, other: Bag)
    requires from == moved + left && grown == moved + to
    ensures grown + left + other == to + from + other
  {}

  // ---------------------------------------------------------------- who waits

  /** A registration id belongs to one waiter. */
  ghost predicate OneOwner(w: World) {
    forall r, q :: r in Blocked(w) && q in Blocked(w) && r.id == q.id ==> r == q
  }

  lemma InQueueIsBlocked(w: World, key: string, r: Registration<Waiter>)
    requires r in Queue(w, key)
    ensures r in Blocked(w)
  {}

  lemma BlockedQueue(w: World, r: Registration<Waiter>) returns (key: string)
    requires r in Blocked(w)
    ensures r in Queue(w, key)
  {
    key :| key in w.index.watchers && r in w.index.watchers[key];
  }

  /** Dropping an id drops its waiter and no other. */
  lemma PurgedBlocked(w: World, v: World, r: Registration<Waiter>)
    requires OneOwner(w) && r in Blocked(w) && v.index == Purged(w.index, {r.id})
    ensures Blocked(v) == Blocked(w) - {r} && OneOwner(v)
  {
    forall q ensures q in Blocked(v) <==> q in Blocked(w) - {r} {
      if q in Blocked(v) {
        var key := BlockedQueue(v, q);
        PurgedMembers(w.index, {r.id}, key, q);
        InQueueIsBlocked(w, key, q);
      }
      if q in Blocked(w) - {r} {
        var key := BlockedQueue(w, q);
        PurgedMembers(w.index, {r.id}, key, q);
        InQueueIsBlocked(v, key, q);
      }
    }
  }

  lemma WaitingQueue(w: World, request: RespValue, rest: seq<RespValue>, key: string, q: Registration<Waiter>)
    requires StoreOk(w) && MustWait(w, request)
    ensures
      var r := Registration(w.index.nextId, Waiter(request, rest));
      q in Queue(Waiting(w, request, rest), key) <==> q in Queue(w, key) || (q == r && key in ActOf(request).keys)
  {
    var keys, r := ActOf(request).keys, Registration(w.index.nextId, Waiter(request, rest));
    B.EnlistedAt(w.index.watchers, keys, r, key);
    B.CountPositive(keys, key);
  }

  /** A new waiter joins those who wait. */
  lemma WaitingBlocked(w: World, request: RespValue, rest: seq<RespValue>)
    requires StoreOk(w) && OneOwner(w) && MustWait(w, request)
    ensures
      var r, v := Registration(w.index.nextId, Waiter(request, rest)), Waiting(w, request, rest);
      r !in Blocked(w) && Blocked(v) == Blocked(w) + {r} && OneOwner(v)
  {
    var keys := ActOf(request).keys;
    var r, v := Registration(w.index.nextId, Waiter(request, rest)), Waiting(w, request, rest);
    forall q ensures q in Blocked(v) <==> q in Blocked(w) || q == r {
      if q in Blocked(v) {
        var key := BlockedQueue(v, q);
        WaitingQueue(w, request, rest, key, q);
        if q in Queue(w, key) { InQueueIsBlocked(w, key, q); }
      }
      if q in Blocked(w) {
        var key := BlockedQueue(w, q);
        WaitingQueue(w, request, rest, key, q);
        InQueueIsBlocked(v, key, q);
      }
      if q == r {
        WaitingQueue(w, request, rest, keys[0], q);
        InQueueIsBlocked(v, keys[0], q);
      }
    }
    forall q | q in Blocked(w) ensures q.id < w.index.nextId {
      var key := BlockedQueue(w, q);
    }
  }

  // ---------------------------------------------------------------- what is still to come

  /** How much a frame holds; serving holds nothing, and neither does an empty queue. */
  type Scale = Frame -> Bag

  ghost predicate IsScale(f: Scale) {
    f(Run([])) == multiset{} && forall key :: f(Serve(key)) == multiset{}
  }

  /** A waiter holds what it will put on the stack. */
  ghost function OfWaiter(f: Scale): Waiter -> Bag {
    (waiter: Waiter) => f(Replied(waiter.request)) + f(Run(waiter.rest))
  }

  ghost function OfBlocked(f: Scale): Registration<Waiter> -> Bag {
    (r: Registration<Waiter>) => OfWaiter(f)(r.owner)
  }

  /** All that the stack, the blocked and the parked hold. */
  ghost function Held<T>(s: Thread<T>, f: Scale): Bag {
    SeqSum(s.stack, f) + SetSum(Blocked(s.server.store), OfBlocked(f)) + SeqSum(s.parked, OfWaiter(f))
  }

  lemma FollowingHolds(request: RespValue, rest: seq<RespValue>, below: seq<Frame>, f: Scale)
    requires IsScale(f)
    ensures SeqSum(Following(request, rest) + below, f) == f(Replied(request)) + f(Run(rest)) + SeqSum(below, f)
  {
    var serving: seq<Frame> := if ActOf(request).Pushing? then [Serve(ActOf(request).op.key)] else [];
    SeqSumConcat(Following(request, rest), below, f);
    SeqSumConcat(serving, [Replied(request), Run(rest)], f);
    WokenHolds(Waiter(request, rest), [], f);
    if ActOf(request).Pushing? { SeqSumOne(serving[0], f); }
    assert [Replied(request), Run(rest)] + [] == [Replied(request), Run(rest)];
  }

  lemma WokenHolds(waiter: Waiter, below: seq<Frame>, f: Scale)
    ensures SeqSum(Woken(waiter) + below, f) == OfWaiter(f)(waiter) + SeqSum(below, f)
  {
    SeqSumConcat(Woken(waiter), below, f);
    SeqSumOne(Run(waiter.rest), f);
    assert Woken(waiter)[1..] == [Run(waiter.rest)];
  }

  /** A command begins: its queue gets shorter, and its reply is due. */
  lemma RunHolds<T>(s: Thread<T>, now: nat, f: Scale)
    requires IsScale(f) && Inv(s) && OneOwner(s.server.store)
    requires s.stack != [] && s.stack[0].Run? && s.stack[0].queue != []
    ensures
      var queue, t := s.stack[0].queue, Go(s, now);
      && Held(t, f) + f(Run(queue)) == Held(s, f) + f(Replied(queue[0])) + f(Run(queue[1..]))
      && OneOwner(t.server.store)
  {
    var w, queue, below := s.server.store, s.stack[0].queue, s.stack[1..];
    SeqSumCons(s.stack, f);
    if MustWait(w, queue[0]) {
      WaitingBlocked(w, queue[0], queue[1..]);
      var r, v := Registration(w.index.nextId, Waiter(queue[0], queue[1..])), Waiting(w, queue[0], queue[1..]);
      SetSumWithout(Blocked(v), r, OfBlocked(f));
      assert Blocked(v) - {r} == Blocked(w);
    } else {
      FollowingHolds(queue[0], queue[1..], below, f);
      assert Blocked(Go(s, now).server.store) == Blocked(w);
    }
  }

  lemma WokenAndServe(waiter: Waiter, key: string, below: seq<Frame>, f: Scale)
    requires IsScale(f)
    ensures SeqSum(Woken(waiter) + [Serve(key)] + below, f) == OfWaiter(f)(waiter) + SeqSum(below, f)
  {
    WokenHolds(waiter, [Serve(key)] + below, f);
    SeqSumConcat([Serve(key)], below, f);
    SeqSumOne(Serve(key), f);
    assert Woken(waiter) + [Serve(key)] + below == Woken(waiter) + ([Serve(key)] + below);
  }

  /** One waiter fewer: what it held is what its frames hold. */
  lemma ServedBlocked(w: World, key: string, f: Scale)
    requires StoreOk(w) && OneOwner(w) && Queue(w, key) != [] && HasList(w.data, key)
    ensures OneOwner(ServedOne(w, key))
    ensures SetSum(Blocked(w), OfBlocked(f)) ==
            OfWaiter(f)(Queue(w, key)[0].owner) + SetSum(Blocked(ServedOne(w, key)), OfBlocked(f))
  {
    var first := Queue(w, key)[0];
    ServedOneOk(w, key);
    InQueueIsBlocked(w, key, first);
    PurgedBlocked(w, ServedOne(w, key), first);
    SetSumWithout(Blocked(w), first, OfBlocked(f));
  }

  lemma ServeGoes<T>(s: Thread<T>, now: nat)
    requires Inv(s) && s.stack != [] && s.stack[0].Serve?
    requires Queue(s.server.store, s.stack[0].key) != [] && HasList(s.server.store.data, s.stack[0].key)
    ensures
      var key, t := s.stack[0].key, Go(s, now);
      && t.server.store == ServedOne(s.server.store, key) && t.parked == s.parked
      && t.stack == Woken(Queue(s.server.store, key)[0].owner) + [Serve(key)] + s.stack[1..]
  {
    ServedOneOk(s.server.store, s.stack[0].key);
  }

  lemma ServeWakesHolds<T>(s: Thread<T>, now: nat, f: Scale)
    requires IsScale(f) && Inv(s) && OneOwner(s.server.store) && s.stack != [] && s.stack[0].Serve?
    requires Queue(s.server.store, s.stack[0].key) != [] && HasList(s.server.store.data, s.stack[0].key)
    ensures Held(Go(s, now), f) == Held(s, f) && OneOwner(Go(s, now).server.store)
  {
    var w, key, below, t := s.server.store, s.stack[0].key, s.stack[1..], Go(s, now);
    var waiter := Queue(w, key)[0].owner;
    ServeGoes(s, now);
    SeqSumCons(s.stack, f);
    ServedBlocked(w, key, f);
    WokenAndServe(waiter, key, below, f);
    MovesOver(SetSum(Blocked(w), OfBlocked(f)), SetSum(Blocked(t.server.store), OfBlocked(f)),
              SeqSum(s.stack, f), SeqSum(t.stack, f), OfWaiter(f)(waiter), SeqSum(s.parked, OfWaiter(f)));
  }

  lemma ServeHolds<T>(s: Thread<T>, now: nat, f: Scale)
    requires IsScale(f) && Inv(s) && OneOwner(s.server.store) && s.stack != [] && s.stack[0].Serve?
    ensures Held(Go(s, now), f) == Held(s, f) && OneOwner(Go(s, now).server.store)
  {
    var w, key := s.server.store, s.stack[0].key;
    if Queue(w, key) != [] && HasList(w.data, key) {
      ServeWakesHolds(s, now, f);
    } else {
      SeqSumCons(s.stack, f);
      if Queue(w, key) != [] { NothingToServe(w, key); }
    }
  }

  /** Where no command begins, only a reply leaves. */
  lemma OtherHolds<T>(s: Thread<T>, now: nat, f: Scale)
    requires IsScale(f) && Inv(s) && OneOwner(s.server.store) && s.stack != []
    requires s.stack[0].Run? ==> s.stack[0].queue == []
    ensures OneOwner(Go(s, now).server.store)
    ensures Held(Go(s, now), f) + (if s.stack[0].Replied? then f(s.stack[0]) else multiset{}) == Held(s, f)
  {
    if s.stack[0].Serve? { ServeHolds(s, now, f); } else { SeqSumCons(s.stack, f); }
  }

  lemma ParkHolds<T>(s: Thread<T>, t: Thread<T>, f: Scale)
    requires Next(s, Parks, t)
    ensures
      var queue := s.stack[0].queue;
      Held(t, f) + f(Run(queue)) == Held(s, f) + f(Replied(queue[0])) + f(Run(queue[1..]))
  {
    var queue := s.stack[0].queue;
    SeqSumCons(s.stack, f);
    SeqSumConcat(s.parked, [Waiter(queue[0], queue[1..])], OfWaiter(f));
    SeqSumOne(Waiter(queue[0], queue[1..]), OfWaiter(f));
  }

  lemma ResumeHolds<T>(s: Thread<T>, i: nat, t: Thread<T>, f: Scale)
    requires Next(s, Resumes(i), t)
    ensures Held(t, f) == Held(s, f)
  {
    var parked := s.parked;
    WokenHolds(parked[i], s.stack, f);
    assert parked == parked[..i] + ([parked[i]] + parked[i + 1..]);
    SeqSumConcat(parked[..i], [parked[i]] + parked[i + 1..], OfWaiter(f));
    SeqSumConcat([parked[i]], parked[i + 1..], OfWaiter(f));
    SeqSumOne(parked[i], OfWaiter(f));
    SeqSumConcat(parked[..i], parked[i + 1..], OfWaiter(f));
  }

  lemma TimeoutHolds<T>(s: Thread<T>, key: string, waiter: Registration<Waiter>, t: Thread<T>, f: Scale)
    requires OneOwner(s.server.store) && Next(s, Timeout(key, waiter), t)
    ensures Held(t, f) == Held(s, f) && OneOwner(t.server.store)
  {
    var w := s.server.store;
    InQueueIsBlocked(w, key, waiter);
    PurgedBlocked(w, t.server.store, waiter);
    SetSumWithout(Blocked(w), waiter, OfBlocked(f));
    WokenHolds(waiter.owner, [], f);
    assert Woken(waiter.owner) + [] == Woken(waiter.owner);
  }

  // ---------------------------------------------------------------- one step

  /** The commands a step loads: those of an EXEC that runs, or a command outside MULTI. */
  ghost function Loading<T>(s: Thread<T>, step: Step<T>): seq<RespValue> {
    if !(step.Request? && step.c in s.server.conns) then []
    else
      var conn, kind := s.server.conns[step.c], KindOf(step.request);
      if RunsNothing(conn, kind) then [] else if kind == Exec then conn.queue else [step.request]
  }

  /** The command that begins in a step, by running or by waiting for its reply. */
  function Starting<T>(s: Thread<T>, step: Step<T>): seq<RespValue> {
    if (step.Goes? || step.Parks?) && s.stack != [] && s.stack[0].Run? && s.stack[0].queue != []
    then [s.stack[0].queue[0]]
    else []
  }

  /** The command that replies in a step. */
  function Replying<T>(s: Thread<T>, step: Step<T>): seq<RespValue> {
    if step.Goes? && s.stack != [] && s.stack[0].Replied? then [s.stack[0].request] else []
  }

  function ToRun(frame: Frame): Bag {
    if frame.Run? then multiset(frame.queue) else multiset{}
  }

  function ToReply(frame: Frame): Bag {
    if frame.Replied? then multiset{frame.request} else multiset{}
  }

  lemma AreScales()
    ensures IsScale(ToRun) && IsScale(ToReply)
  {}

  /** The commands that are loaded but have not begun. */
  ghost function Pending<T>(s: Thread<T>): Bag {
    Held(s, ToRun)
  }

  /** The commands that have begun but not replied. */
  ghost function Unanswered<T>(s: Thread<T>): Bag {
    Held(s, ToReply)
  }

  lemma LoadedStack<T>(s: Thread<T>, c: T, request: RespValue, t: Thread<T>)
    requires Inv(s) && Next(s, Request(c, request), t)
    ensures t.server.store == s.server.store && t.server.stream == s.server.stream
    ensures t.parked == s.parked && s.stack == []
    ensures t.stack ==
            if RunsNothing(s.server.conns[c], KindOf(request)) then [] else [Run(Loading(s, Request(c, request)))]
  {
    if RunsNothing(s.server.conns[c], KindOf(request)) {
      OnlyRunningCommandsHaveEffect(RedisEngine, s.server, c, request, _ => 0);
    }
  }

  lemma LoadHolds<T>(s: Thread<T>, c: T, request: RespValue, t: Thread<T>, f: Scale)
    requires Inv(s) && Next(s, Request(c, request), t) && IsScale(f)
    ensures Held(t, f) == Held(s, f) + f(Run(Loading(s, Request(c, request))))
    ensures t.server.store == s.server.store && t.server.stream == s.server.stream
  {
    LoadedStack(s, c, request, t);
    if !RunsNothing(s.server.conns[c], KindOf(request)) {
      SeqSumOne(Run(Loading(s, Request(c, request))), f);
    }
  }

  lemma OneFewer(queue: seq<RespValue>, before: Bag, after: Bag)
    requires queue != [] && after + multiset(queue) == before + multiset{} + multiset(queue[1..])
    ensures after + multiset([queue[0]]) == before
  {
    var one, rest := multiset([queue[0]]), multiset(queue[1..]);
    assert multiset(queue) == one + rest by { assert queue == [queue[0]] + queue[1..]; }
    forall x ensures (after + one)[x] == before[x] {
      assert (after + multiset(queue))[x] == after[x] + one[x] + rest[x];
      assert (before + multiset{} + rest)[x] == before[x] + rest[x];
    }
  }

  lemma OneMore(x: RespValue, before: Bag, after: Bag)
    requires after + multiset{} == before + multiset{x} + multiset{}
    ensures after == before + multiset([x])
  {
    assert multiset([x]) == multiset{x};
    forall y ensures after[y] == (before + multiset{x})[y] {
      assert (after + multiset{})[y] == after[y];
      assert (before + multiset{x} + multiset{})[y] == (before + multiset{x})[y];
    }
  }

  /** What is pending and what is unanswered before and after `loaded`, `started` and `replied`. */
  predicate Balance(
    pending: Bag, unanswered: Bag, loaded: seq<RespValue>, started: seq<RespValue>, replied: seq<RespValue>,
    stillPending: Bag, stillUnanswered: Bag)
  {
    && stillPending + multiset(started) == pending + multiset(loaded)
    && stillUnanswered + multiset(replied) == unanswered + multiset(started)
  }

  /** Nothing is lost or invented in a step. */
  ghost predicate Balanced<T>(s: Thread<T>, step: Step<T>, t: Thread<T>) {
    Balance(
      Pending(s), Unanswered(s), Loading(s, step), Starting(s, step), Replying(s, step), Pending(t), Unanswered(t))
  }

  /** A command begins. */
  ghost predicate Begins<T>(s: Thread<T>, t: Thread<T>, f: Scale) {
    && s.stack != [] && s.stack[0].Run? && s.stack[0].queue != []
    && var queue := s.stack[0].queue;
       Held(t, f) + f(Run(queue)) == Held(s, f) + f(Replied(queue[0])) + f(Run(queue[1..]))
  }

  lemma BeginningBalances<T>(s: Thread<T>, t: Thread<T>, step: Step<T>)
    requires Begins(s, t, ToRun) && Begins(s, t, ToReply) && (step.Goes? || step.Parks?)
    ensures Balanced(s, step, t)
  {
    var queue := s.stack[0].queue;
    assert ToRun(Run(queue)) == multiset(queue) && ToRun(Run(queue[1..])) == multiset(queue[1..]);
    assert ToRun(Replied(queue[0])) == multiset{} && ToReply(Replied(queue[0])) == multiset{queue[0]};
    assert ToReply(Run(queue)) == multiset{} && ToReply(Run(queue[1..])) == multiset{};
    OneFewer(queue, Held(s, ToRun), Held(t, ToRun));
    OneMore(queue[0], Held(s, ToReply), Held(t, ToReply));
    NothingAdded(Pending(s));
    NothingAdded(Unanswered(t));
  }

  lemma NothingAdded(a: Bag)
    ensures a + multiset([]) == a
  {}

  lemma RunBalances<T>(s: Thread<T>, now: nat)
    requires Inv(s) && OneOwner(s.server.store) && s.stack != [] && s.stack[0].Run? && s.stack[0].queue != []
    ensures Balanced(s, Goes(now), Go(s, now)) && OneOwner(Go(s, now).server.store)
  {
    AreScales();
    RunHolds(s, now, ToRun);
    RunHolds(s, now, ToReply);
    BeginningBalances(s, Go(s, now), Goes(now));
  }

  lemma OtherBalances<T>(s: Thread<T>, now: nat)
    requires Inv(s) && OneOwner(s.server.store) && s.stack != [] && (s.stack[0].Run? ==> s.stack[0].queue == [])
    ensures Balanced(s, Goes(now), Go(s, now)) && OneOwner(Go(s, now).server.store)
  {
    AreScales();
    OtherHolds(s, now, ToRun);
    OtherHolds(s, now, ToReply);
    var t, frame := Go(s, now), s.stack[0];
    NothingAdded(Pending(s));
    NothingAdded(Pending(t));
    NothingAdded(Unanswered(s));
    NothingAdded(Unanswered(t));
    if frame.Replied? {
      assert multiset([frame.request]) == multiset{frame.request} == ToReply(frame);
      assert ToRun(frame) == multiset{};
    }
  }

  lemma GoBalances<T>(s: Thread<T>, now: nat)
    requires Inv(s) && OneOwner(s.server.store) && s.stack != []
    ensures Balanced(s, Goes(now), Go(s, now)) && OneOwner(Go(s, now).server.store)
  {
    if s.stack[0].Run? && s.stack[0].queue != [] {
      RunBalances(s, now);
    } else {
      OtherBalances(s, now);
    }
  }

  lemma ParkBalances<T>(s: Thread<T>, t: Thread<T>)
    requires Next(s, Parks, t)
    ensures Balanced(s, Parks, t)
  {
    ParkHolds(s, t, ToRun);
    ParkHolds(s, t, ToReply);
    BeginningBalances(s, t, Parks);
  }

  lemma LoadBalances<T>(s: Thread<T>, c: T, request: RespValue, t: Thread<T>)
    requires Inv(s) && Next(s, Request(c, request), t)
    ensures Balanced(s, Request(c, request), t) && t.server.store == s.server.store
  {
    AreScales();
    LoadHolds(s, c, request, t, ToRun);
    LoadHolds(s, c, request, t, ToReply);
  }

  lemma StepBalances<T>(s: Thread<T>, step: Step<T>, t: Thread<T>)
    requires Inv(s) && OneOwner(s.server.store) && Next(s, step, t)
    ensures Balanced(s, step, t) && OneOwner(t.server.store)
  {
    AreScales();
    match step
    case Connect(_) =>
    case Disconnect(_) =>
    case Request(c, request) => LoadBalances(s, c, request, t);
    case Timeout(key, waiter) =>
      TimeoutHolds(s, key, waiter, t, ToRun);
      TimeoutHolds(s, key, waiter, t, ToReply);
    case Goes(now) => GoBalances(s, now);
    case Parks => ParkBalances(s, t);
    case Resumes(i) =>
      ResumeHolds(s, i, t, ToRun);
      ResumeHolds(s, i, t, ToReply);
  }

  // ---------------------------------------------------------------- runs

  /** Everything gathered before time `j`, in order. */
  function Gathered(at: nat -> seq<RespValue>, j: nat): seq<RespValue> {
    if j == 0 then [] else Gathered(at, j - 1) + at(j - 1)
  }

  ghost function Loads<T>(states: seq<Thread<T>>, steps: seq<Step<T>>): nat -> seq<RespValue> {
    (i: nat) => if i < |steps| && i < |states| then Loading(states[i], steps[i]) else []
  }

  ghost function Starts<T>(states: seq<Thread<T>>, steps: seq<Step<T>>): nat -> seq<RespValue> {
    (i: nat) => if i < |steps| && i < |states| then Starting(states[i], steps[i]) else []
  }

  ghost function Answers<T>(states: seq<Thread<T>>, steps: seq<Step<T>>): nat -> seq<RespValue> {
    (i: nat) => if i < |steps| && i < |states| then Replying(states[i], steps[i]) else []
  }

  /** The write commands among `commands`, in order. */
  function WritesIn(commands: seq<RespValue>): seq<RespValue> {
    if commands == [] then []
    else
      var n := |commands| - 1;
      WritesIn(commands[..n]) + (if IsWrite(KindOf(commands[n])) then [commands[n]] else [])
  }

  lemma AddBalance(
    loads: seq<RespValue>, starts: seq<RespValue>, answers: seq<RespValue>, pending: Bag, unanswered: Bag,
    loaded: seq<RespValue>, started: seq<RespValue>, replied: seq<RespValue>, stillPending: Bag, stillUnanswered: Bag)
    requires multiset(loads) == multiset(starts) + pending && multiset(starts) == multiset(answers) + unanswered
    requires Balance(pending, unanswered, loaded, started, replied, stillPending, stillUnanswered)
    ensures multiset(loads + loaded) == multiset(starts + started) + stillPending
    ensures multiset(starts + started) == multiset(answers + replied) + stillUnanswered
  {
    forall x ensures multiset(loads + loaded)[x] == (multiset(starts + started) + stillPending)[x] {
      assert (stillPending + multiset(started))[x] == (pending + multiset(loaded))[x];
    }
    forall x ensures multiset(starts + started)[x] == (multiset(answers + replied) + stillUnanswered)[x] {
      assert (stillUnanswered + multiset(replied))[x] == (unanswered + multiset(started))[x];
    }
  }

  /** The step at time `i` keeps the balance. */
  ghost predicate BalanceAt(
    loads: nat -> seq<RespValue>, starts: nat -> seq<RespValue>, answers: nat -> seq<RespValue>,
    pending: nat -> Bag, unanswered: nat -> Bag, i: nat)
  {
    Balance(pending(i), unanswered(i), loads(i), starts(i), answers(i), pending(i + 1), unanswered(i + 1))
  }

  /** The books of everything up to `j`. */
  ghost predicate Books(
    loads: nat -> seq<RespValue>, starts: nat -> seq<RespValue>, answers: nat -> seq<RespValue>,
    pending: nat -> Bag, unanswered: nat -> Bag, j: nat)
  {
    && multiset(Gathered(loads, j)) == multiset(Gathered(starts, j)) + pending(j)
    && multiset(Gathered(starts, j)) == multiset(Gathered(answers, j)) + unanswered(j)
  }

  lemma {:induction false} BalanceGathers(
    loads: nat -> seq<RespValue>, starts: nat -> seq<RespValue>, answers: nat -> seq<RespValue>,
    pending: nat -> Bag, unanswered: nat -> Bag, j: nat)
    requires pending(0) == multiset{} && unanswered(0) == multiset{}
    requires forall i: nat :: i < j ==> BalanceAt(loads, starts, answers, pending, unanswered, i)
    ensures Books(loads, starts, answers, pending, unanswered, j)
    decreases j
  {
    if j > 0 {
      var i := j - 1;
      BalanceGathers(loads, starts, answers, pending, unanswered, i);
      assert BalanceAt(loads, starts, answers, pending, unanswered, i);
      AddBalance(Gathered(loads, i), Gathered(starts, i), Gathered(answers, i), pending(i), unanswered(i),
                 loads(i), starts(i), answers(i), pending(j), unanswered(j));
    }
  }

  ghost function PendingAt<T>(states: seq<Thread<T>>): nat -> Bag {
    (i: nat) => if i < |states| then Pending(states[i]) else multiset{}
  }

  ghost function UnansweredAt<T>(states: seq<Thread<T>>): nat -> Bag {
    (i: nat) => if i < |states| then Unanswered(states[i]) else multiset{}
  }

  lemma NothingYet<T>(s: Thread<T>)
    requires Initial(s)
    ensures OneOwner(s.server.store) && Pending(s) == multiset{} && Unanswered(s) == multiset{}
  {
    assert Blocked(s.server.store) == {};
  }

  lemma BalancedAt<T>(states: seq<Thread<T>>, steps: seq<Step<T>>, i: nat)
    requires IsRun(states, steps) && i < |steps| && OneOwner(states[i].server.store)
    ensures Balanced(states[i], steps[i], states[i + 1]) && OneOwner(states[i + 1].server.store)
  {
    RunKeepsInv(states, steps, i);
    StepAt(states, steps, i);
    StepBalances(states[i], steps[i], states[i + 1]);
  }

  lemma {:induction false} AlwaysOneOwner<T>(states: seq<Thread<T>>, steps: seq<Step<T>>, i: nat)
    requires IsRun(states, steps) && i < |states|
    ensures OneOwner(states[i].server.store)
    decreases i
  {
    if i == 0 {
      NothingYet(states[0]);
    } else {
      AlwaysOneOwner(states, steps, i - 1);
      BalancedAt(states, steps, i - 1);
    }
  }

  lemma BalanceHolds<T>(states: seq<Thread<T>>, steps: seq<Step<T>>, i: nat)
    requires IsRun(states, steps) && i < |steps|
    ensures BalanceAt(Loads(states, steps), Starts(states, steps), Answers(states, steps),
                      PendingAt(states), UnansweredAt(states), i)
  {
    AlwaysOneOwner(states, steps, i);
    BalancedAt(states, steps, i);
  }

  /**
   In every run, every command that was loaded has begun exactly once or is still pending, and every command that
   began has replied exactly once or is still unanswered: none is lost and none is invented, wherever it waits.
   */
  lemma BooksBalance<T>(states: seq<Thread<T>>, steps: seq<Step<T>>, j: nat)
    requires IsRun(states, steps) && j < |states|
    ensures Books(Loads(states, steps), Starts(states, steps), Answers(states, steps),
                  PendingAt(states), UnansweredAt(states), j)
  {
    NothingYet(states[0]);
    var loads, starts, answers := Loads(states, steps), Starts(states, steps), Answers(states, steps);
    forall i: nat | i < j ensures BalanceAt(loads, starts, answers, PendingAt(states), UnansweredAt(states), i) {
      BalanceHolds(states, steps, i);
    }
    BalanceGathers(loads, starts, answers, PendingAt(states), UnansweredAt(states), j);
  }

  /** When the thread is idle and nobody waits, everything loaded has begun once and replied once. */
  lemma NothingIsLost<T>(states: seq<Thread<T>>, steps: seq<Step<T>>, j: nat)
    requires IsRun(states, steps) && j < |states|
    requires states[j].stack == [] && states[j].parked == [] && NobodyWaits(states[j].server.store)
    ensures multiset(Gathered(Loads(states, steps), j)) == multiset(Gathered(Starts(states, steps), j))
    ensures multiset(Gathered(Starts(states, steps), j)) == multiset(Gathered(Answers(states, steps), j))
  {
    BooksBalance(states, steps, j);
    assert Blocked(states[j].server.store) == {};
    assert Pending(states[j]) == multiset{} && Unanswered(states[j]) == multiset{};
  }

  // ---------------------------------------------------------------- propagation

  lemma WritesSnoc(commands: seq<RespValue>, more: seq<RespValue>)
    requires |more| <= 1
    ensures SerializeAll(WritesIn(commands + more)) ==
            SerializeAll(WritesIn(commands)) + if more == [] then "" else SerializeAll(WritesIn(more))
  {
    if more == [] {
      assert commands + more == commands;
    } else {
      assert (commands + more)[..|commands|] == commands && more[..0] == [];
      assert [] + WritesIn(more) == WritesIn(more);
      SerializeAllConcat(WritesIn(commands), WritesIn(more));
      assert WritesIn(more) == if IsWrite(KindOf(more[0])) then [more[0]] else [];
    }
  }

  lemma SentIs<T>(server: Server<World, T>, request: RespValue)
    ensures Sent(server, request).stream == server.stream + SerializeAll(WritesIn([request]))
  {
    assert server.stream + "" == server.stream;
    assert [request][..0] == [];
    assert WritesIn([request]) == if IsWrite(KindOf(request)) then [request] else [];
    SerializeAllSnoc([], request);
    assert [] + [request] == [request];
  }

  lemma GoSends<T>(s: Thread<T>, now: nat)
    requires s.stack != []
    ensures Go(s, now).server.stream ==
            if s.stack[0].Replied? then Sent(s.server, s.stack[0].request).stream else s.server.stream
  {}

  lemma StepSends<T>(s: Thread<T>, step: Step<T>, t: Thread<T>)
    requires Inv(s) && Next(s, step, t)
    ensures t.server.stream == s.server.stream + SerializeAll(WritesIn(Replying(s, step)))
  {
    assert s.server.stream + "" == s.server.stream;
    match step
    case Request(c, request) => LoadedStack(s, c, request, t);
    case Goes(now) =>
      GoSends(s, now);
      if s.stack[0].Replied? { SentIs(s.server, s.stack[0].request); }
    case _ =>
  }

  ghost predicate SendsRule(stream: nat -> string, answers: nat -> seq<RespValue>, i: nat) {
    stream(i + 1) == stream(i) + SerializeAll(WritesIn(answers(i))) && |answers(i)| <= 1
  }

  lemma {:induction false} StreamGathers(stream: nat -> string, answers: nat -> seq<RespValue>, j: nat)
    requires forall i: nat :: i < j ==> SendsRule(stream, answers, i)
    ensures stream(j) == stream(0) + SerializeAll(WritesIn(Gathered(answers, j)))
    decreases j
  {
    if j == 0 {
      assert stream(0) + "" == stream(0);
    } else {
      var i := j - 1;
      StreamGathers(stream, answers, i);
      assert SendsRule(stream, answers, i);
      WritesSnoc(Gathered(answers, i), answers(i));
      Assoc(stream(0), SerializeAll(WritesIn(Gathered(answers, i))), SerializeAll(WritesIn(answers(i))));
    }
  }

  ghost function StreamAt<T>(states: seq<Thread<T>>): nat -> string {
    (i: nat) => if i < |states| then states[i].server.stream else ""
  }

  lemma SendsAt<T>(states: seq<Thread<T>>, steps: seq<Step<T>>, i: nat)
    requires IsRun(states, steps) && i < |steps|
    ensures SendsRule(StreamAt(states), Answers(states, steps), i)
  {
    RunKeepsInv(states, steps, i);
    StepAt(states, steps, i);
    StepSends(states[i], steps[i], states[i + 1]);
  }

  /** In every run, what is propagated is the writes that have replied, each once, in the order they replied. */
  lemma WritesAreSentWhenTheyReply<T>(states: seq<Thread<T>>, steps: seq<Step<T>>, j: nat)
    requires IsRun(states, steps) && j < |states|
    ensures states[j].server.stream ==
            states[0].server.stream + SerializeAll(WritesIn(Gathered(Answers(states, steps), j)))
  {
    forall i: nat | i < j ensures SendsRule(StreamAt(states), Answers(states, steps), i) {
      SendsAt(states, steps, i);
    }
    StreamGathers(StreamAt(states), Answers(states, steps), j);
  }

  // ---------------------------------------------------------------- order

  /** Everything still to run, at every place it may wait, is `ok`. */
  ghost predicate AllRests<T>(s: Thread<T>, ok: seq<RespValue> -> bool) {
    StackOk(s.stack, ok) && BlockedOk(s.server.store, ok) && forall i :: 0 <= i < |s.parked| ==> ok(s.parked[i].rest)
  }

  ghost predicate TailsToo(ok: seq<RespValue> -> bool) {
    forall queue :: queue != [] && ok(queue) ==> ok(queue[1..])
  }

  ghost predicate StackOk(stack: seq<Frame>, ok: seq<RespValue> -> bool) {
    forall i :: 0 <= i < |stack| && stack[i].Run? ==> ok(stack[i].queue)
  }

  ghost predicate BlockedOk(w: World, ok: seq<RespValue> -> bool) {
    forall r :: r in Blocked(w) ==> ok(r.owner.rest)
  }

  lemma FollowingOk(request: RespValue, rest: seq<RespValue>, below: seq<Frame>, ok: seq<RespValue> -> bool)
    requires StackOk(below, ok) && ok(rest)
    ensures StackOk(Following(request, rest) + below, ok) && StackOk(Woken(Waiter(request, rest)) + below, ok)
  {}

  lemma RunKeepsRests<T>(s: Thread<T>, now: nat, ok: seq<RespValue> -> bool)
    requires Inv(s) && OneOwner(s.server.store) && AllRests(s, ok) && TailsToo(ok)
    requires s.stack != [] && s.stack[0].Run? && s.stack[0].queue != []
    ensures AllRests(Go(s, now), ok)
  {
    var w, queue, below := s.server.store, s.stack[0].queue, s.stack[1..];
    assert ok(queue) && ok(queue[1..]);
    if MustWait(w, queue[0]) {
      WaitingBlocked(w, queue[0], queue[1..]);
    } else {
      FollowingOk(queue[0], queue[1..], below, ok);
      assert Blocked(Go(s, now).server.store) == Blocked(w);
    }
  }

  lemma ServeKeepsRests<T>(s: Thread<T>, now: nat, ok: seq<RespValue> -> bool)
    requires Inv(s) && OneOwner(s.server.store) && AllRests(s, ok) && s.stack != [] && s.stack[0].Serve?
    requires Queue(s.server.store, s.stack[0].key) != [] && HasList(s.server.store.data, s.stack[0].key)
    ensures AllRests(Go(s, now), ok)
  {
    var w, key, below := s.server.store, s.stack[0].key, s.stack[1..];
    var first := Queue(w, key)[0];
    ServeGoes(s, now);
    InQueueIsBlocked(w, key, first);
    PurgedBlocked(w, ServedOne(w, key), first);
    FollowingOk(first.owner.request, first.owner.rest, [Serve(key)] + below, ok);
    assert Woken(first.owner) + [Serve(key)] + below == Woken(first.owner) + ([Serve(key)] + below);
  }

  lemma GoKeepsRests<T>(s: Thread<T>, now: nat, ok: seq<RespValue> -> bool)
    requires Inv(s) && OneOwner(s.server.store) && AllRests(s, ok) && TailsToo(ok) && s.stack != []
    ensures AllRests(Go(s, now), ok)
  {
    var w, frame := s.server.store, s.stack[0];
    if frame.Run? && frame.queue != [] {
      RunKeepsRests(s, now, ok);
    } else if frame.Serve? && Queue(w, frame.key) != [] && HasList(w.data, frame.key) {
      ServeKeepsRests(s, now, ok);
    } else if frame.Serve? && Queue(w, frame.key) != [] {
      NothingToServe(w, frame.key);
    }
  }

  lemma ParkKeepsRests<T>(s: Thread<T>, step: Step<T>, t: Thread<T>, ok: seq<RespValue> -> bool)
    requires AllRests(s, ok) && TailsToo(ok) && Next(s, step, t) && (step.Parks? || step.Resumes?)
    ensures AllRests(t, ok)
  {
    if step.Parks? { assert ok(s.stack[0].queue); }
    else { FollowingOk(s.parked[step.i].request, s.parked[step.i].rest, s.stack, ok); }
  }

  lemma TimeoutKeepsRests<T>(s: Thread<T>, step: Step<T>, t: Thread<T>, ok: seq<RespValue> -> bool)
    requires OneOwner(s.server.store) && AllRests(s, ok) && Next(s, step, t) && step.Timeout?
    ensures AllRests(t, ok)
  {
    InQueueIsBlocked(s.server.store, step.key, step.waiter);
    PurgedBlocked(s.server.store, t.server.store, step.waiter);
  }

  lemma StepKeepsRests<T>(s: Thread<T>, step: Step<T>, t: Thread<T>, ok: seq<RespValue> -> bool)
    requires Inv(s) && OneOwner(s.server.store) && AllRests(s, ok) && TailsToo(ok) && Next(s, step, t)
    requires step.Request? ==> ok(Loading(s, step))
    ensures AllRests(t, ok)
  {
    match step
    case Connect(_) =>
    case Disconnect(_) =>
    case Request(c, request) => LoadedStack(s, c, request, t);
    case Timeout(_, _) => TimeoutKeepsRests(s, step, t, ok);
    case Goes(now) => GoKeepsRests(s, now, ok);
    case Parks => ParkKeepsRests(s, step, t, ok);
    case Resumes(_) => ParkKeepsRests(s, step, t, ok);
  }

  /** A rest of what was loaded at some time before `j`. */
  ghost function RestsOf(loads: nat -> seq<RespValue>, j: nat): seq<RespValue> -> bool {
    (queue: seq<RespValue>) => exists i: nat, n: nat :: i < j && n <= |loads(i)| && queue == loads(i)[n..]
  }

  lemma RestsHaveTails(loads: nat -> seq<RespValue>, j: nat)
    ensures TailsToo(RestsOf(loads, j))
  {
    forall queue | queue != [] && RestsOf(loads, j)(queue) ensures RestsOf(loads, j)(queue[1..]) {
      var i: nat, n: nat :| i < j && n <= |loads(i)| && queue == loads(i)[n..];
      assert queue[1..] == loads(i)[n + 1..];
    }
  }

  lemma MoreRests<T>(s: Thread<T>, loads: nat -> seq<RespValue>, j: nat)
    requires AllRests(s, RestsOf(loads, j))
    ensures AllRests(s, RestsOf(loads, j + 1))
  {}

  /**
   In every run, whatever is still to run, on the stack, of a blocked BLPOP or of a parked command, is the end of the
   commands some request loaded, in the order they were sent.
   */
  lemma {:induction false} RestsKeepTheirOrder<T>(states: seq<Thread<T>>, steps: seq<Step<T>>, j: nat)
    requires IsRun(states, steps) && j < |states|
    ensures AllRests(states[j], RestsOf(Loads(states, steps), j))
    decreases j
  {
    if j == 0 {
      assert Blocked(states[0].server.store) == {};
    } else {
      var i, loads := j - 1, Loads(states, steps);
      RestsKeepTheirOrder(states, steps, i);
      MoreRests(states[i], loads, i);
      RestsHaveTails(loads, j);
      AlwaysOneOwner(states, steps, i);
      RunKeepsInv(states, steps, i);
      StepAt(states, steps, i);
      assert loads(i)[0..] == loads(i);
      StepKeepsRests(states[i], steps[i], states[j], RestsOf(loads, j));
    }
  }
}
