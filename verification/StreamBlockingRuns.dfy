/** Runs of writes, blocking XREADs and timeouts: what a blocked reader is woken with, and when. */
module StreamBlockingRuns {
  import opened Base
  import opened Decimal
  import opened StreamIds
  import opened StoreData
  import opened Streams
  import opened Commands
  import opened Registrations
  import opened Store
  import opened Blocking
  import opened BlockingManager
  import opened StreamBlocking
  import B = BlockingRuns
  import Ops = StoreOps

  /** What the callback of a blocked XREAD holds on to: its keys and the IDs they were resolved to. */
  datatype Reader = Reader(client: nat, keys: seq<string>, ids: seq<string>)

  /** The reply to the blocked read `id`; `Some([])` is the null array, `None` an ID that cannot be read. */
  datatype Answer = Answer(id: nat, found: Option<seq<(string, seq<Entry>)>>)

  datatype World = World(data: Data, index: Index<Reader>, answers: seq<Answer>)

  datatype Step =
    | Write(op: Op, now: nat)
    | XReadBlock(client: nat, keys: seq<string>, ids: seq<string>)
    | Timeout(id: nat)

  function ReadFor(data: Data, reader: Reader): Option<seq<(string, seq<Entry>)>> {
    if |reader.keys| != |reader.ids| then None else Ops.XRead(data, reader.keys, reader.ids)
  }

  /** The answers of the woken readers, each reading the store anew. */
  function Answers(data: Data, woken: seq<Registration<Reader>>): seq<Answer> {
    if woken == [] then []
    else [Answer(woken[0].id, ReadFor(data, woken[0].owner))] + Answers(data, woken[1..])
  }

  /** The operation is an XADD that succeeds. */
  predicate Adds(data: Data, op: Op, now: nat) {
    op.XAddOp? && Ops.XAdd(data, op.key, op.pattern, op.fields, now).result.Ok?
  }

  /** A successful XADD wakes everyone registered at its key. */
  ghost function AfterWrite(s: World, op: Op, now: nat): World {
    var data := Run(s.data, op, now).data;
    if !Adds(s.data, op, now) then s.(data := data)
    else
      var woken := At(s.index, op.key);
      World(data, Purged(s.index, Ids(woken)), s.answers + Answers(data, woken))
  }

  /** XREAD BLOCK resolves its IDs, and waits if a read from them finds nothing. */
  ghost function AfterXRead(s: World, client: nat, keys: seq<string>, ids: seq<string>): World {
    if |keys| != |ids| then s
    else
      match ResolvedAll(s.data, keys, ids)
      case None => s
      case Some(resolved) =>
        if Ops.XRead(s.data, keys, resolved) == Some([]) then
          s.(index := Joined(s.index, keys, Reader(client, keys, resolved)))
        else s
  }

  /** A reader that still waits is told that nothing came. */
  ghost function AfterTimeout(s: World, id: nat): World {
    if id !in s.index.idToKeys then s
    else s.(index := Purged(s.index, {id}), answers := s.answers + [Answer(id, Some([]))])
  }

  ghost function After(s: World, step: Step): World {
    match step
    case Write(op, now) => AfterWrite(s, op, now)
    case XReadBlock(client, keys, ids) => AfterXRead(s, client, keys, ids)
    case Timeout(id) => AfterTimeout(s, id)
  }

  /** States joined by steps, from an empty store with nobody waiting. */
  ghost predicate IsRun(states: seq<World>, steps: seq<Step>) {
    && |states| == |steps| + 1 && states[0] == World(map[], Index(map[], map[], 1), [])
    && forall k :: 0 <= k < |steps| ==> states[k + 1] == After(states[k], steps[k])
  }

  // ---------------------------------------------------------------- one reader among the others

  /** The registrations of one id. */
  function Mine<T>(regs: seq<Registration<T>>, id: nat): seq<Registration<T>> {
    if regs == [] then []
    else if regs[0].id == id then [regs[0]] + Mine(regs[1..], id)
    else Mine(regs[1..], id)
  }

  /** The answers given to one id. */
  function AnswersTo(answers: seq<Answer>, id: nat): seq<Answer> {
    if answers == [] then []
    else if answers[0].id == id then [answers[0]] + AnswersTo(answers[1..], id)
    else AnswersTo(answers[1..], id)
  }

  /** The reader stands exactly once at each of its keys, and nowhere else. */
  ghost predicate Stands(w: Index<Reader>, r: Registration<Reader>, keys: seq<string>) {
    r.id < w.nextId && forall key :: Mine(At(w, key), r.id) == if key in keys then [r] else []
  }

  lemma Prepend<X>(x: X, a: seq<X>, b: seq<X>)
    ensures [x] + (a + b) == ([x] + a) + b
  {}

  lemma {:induction false} MineConcat<T>(a: seq<Registration<T>>, b: seq<Registration<T>>, id: nat)
    ensures Mine(a + b, id) == Mine(a, id) + Mine(b, id)
  {
    if a == [] {
      assert a + b == b;
    } else {
      assert (a + b)[1..] == a[1..] + b;
      MineConcat(a[1..], b, id);
      Prepend(a[0], Mine(a[1..], id), Mine(b, id));
    }
  }

  lemma {:induction false} MineCopies<T>(r: Registration<T>, n: nat, id: nat)
    ensures Mine(B.Copies(r, n), id) == if r.id == id then B.Copies(r, n) else []
  {
    if n > 0 {
      MineCopies(r, n - 1, id);
      MineConcat(B.Copies(r, n - 1), [r], id);
      assert [r][1..] == [];
    }
  }

  lemma {:induction false} MineKept<T>(regs: seq<Registration<T>>, ids: set<nat>, id: nat)
    ensures Mine(Keep(regs, ids), id) == if id in ids then [] else Mine(regs, id)
  {
    if regs != [] {
      MineKept(regs[1..], ids, id);
      if regs[0].id !in ids {
        assert ([regs[0]] + Keep(regs[1..], ids))[1..] == Keep(regs[1..], ids);
      } else {
        assert [] + Keep(regs[1..], ids) == Keep(regs[1..], ids);
      }
    }
  }

  lemma {:induction false} MineMembers<T>(regs: seq<Registration<T>>, id: nat)
    ensures Mine(regs, id) == [] <==> forall r :: r in regs ==> r.id != id
  {
    if regs != [] {
      MineMembers(regs[1..], id);
      assert forall r :: r in regs <==> r == regs[0] || r in regs[1..];
    }
  }

  lemma {:induction false} AnswersToConcat(a: seq<Answer>, b: seq<Answer>, id: nat)
    ensures AnswersTo(a + b, id) == AnswersTo(a, id) + AnswersTo(b, id)
  {
    if a == [] {
      assert a + b == b;
    } else {
      assert (a + b)[1..] == a[1..] + b;
      AnswersToConcat(a[1..], b, id);
      Prepend(a[0], AnswersTo(a[1..], id), AnswersTo(b, id));
    }
  }

  /** Of the woken, a reader gets the answers of its own registrations. */
  lemma {:induction false} AnswersToMine(data: Data, woken: seq<Registration<Reader>>, id: nat)
    ensures AnswersTo(Answers(data, woken), id) == Answers(data, Mine(woken, id))
  {
    if woken != [] {
      AnswersToMine(data, woken[1..], id);
      var first, rest := Answer(woken[0].id, ReadFor(data, woken[0].owner)), Answers(data, woken[1..]);
      assert ([first] + rest)[1..] == rest;
      if woken[0].id == id {
        assert ([woken[0]] + Mine(woken[1..], id))[1..] == Mine(woken[1..], id);
      }
    }
  }

  // ---------------------------------------------------------------- joining and leaving

  lemma {:induction false} CountDistinct(keys: seq<string>, key: string)
    requires Distinct(keys)
    ensures B.Count(keys, key) == if key in keys then 1 else 0
  {
    if keys != [] {
      NotBefore(keys);
      CountDistinct(keys[..|keys| - 1], key);
    }
  }

  lemma JoinedQueue(w: Index<Reader>, keys: seq<string>, owner: Reader, key: string, id: nat)
    ensures
      var last := Registration(w.nextId, owner);
      Mine(At(Joined(w, keys, owner), key), id) ==
      Mine(At(w, key), id) + (if id == w.nextId then B.Copies(last, B.Count(keys, key)) else [])
  {
    var last := Registration(w.nextId, owner);
    B.EnlistedAt(w.watchers, keys, last, key);
    MineConcat(At(w, key), B.Copies(last, B.Count(keys, key)), id);
    MineCopies(last, B.Count(keys, key), id);
  }

  lemma NobodyYet(w: Index<Reader>, key: string)
    requires B.QueuesOk(w)
    ensures Mine(At(w, key), w.nextId) == []
  {
    MineMembers(At(w, key), w.nextId);
  }

  lemma JoinerStands(w: Index<Reader>, keys: seq<string>, owner: Reader)
    requires B.QueuesOk(w) && Distinct(keys)
    ensures Stands(Joined(w, keys, owner), Registration(w.nextId, owner), keys)
  {
    var last := Registration(w.nextId, owner);
    forall key ensures Mine(At(Joined(w, keys, owner), key), w.nextId) == if key in keys then [last] else [] {
      NobodyYet(w, key);
      JoinedQueue(w, keys, owner, key, w.nextId);
      CountDistinct(keys, key);
      assert B.Copies(last, 1) == [last];
    }
  }

  lemma JoinKeepsStanding(
    w: Index<Reader>, r: Registration<Reader>, mine: seq<string>, keys: seq<string>, owner: Reader)
    requires Stands(w, r, mine)
    ensures Stands(Joined(w, keys, owner), r, mine)
  {
    forall key ensures Mine(At(Joined(w, keys, owner), key), r.id) == Mine(At(w, key), r.id) {
      JoinedQueue(w, keys, owner, key, r.id);
    }
  }

  lemma PurgedQueue(w: Index<Reader>, ids: set<nat>, key: string, id: nat)
    ensures Mine(At(Purged(w, ids), key), id) == if id in ids then [] else Mine(At(w, key), id)
  {
    MineKept(At(w, key), ids, id);
  }

  lemma PurgeKeepsStanding(w: Index<Reader>, r: Registration<Reader>, mine: seq<string>, ids: set<nat>)
    requires Stands(w, r, mine) && r.id !in ids
    ensures Stands(Purged(w, ids), r, mine)
  {
    forall key ensures Mine(At(Purged(w, ids), key), r.id) == Mine(At(w, key), r.id) {
      PurgedQueue(w, ids, key, r.id);
    }
  }

  // ---------------------------------------------------------------- steps

  /** No answer has been given to an id that is not yet in use. */
  ghost predicate Inv(s: World) {
    B.QueuesOk(s.index) && forall i :: 0 <= i < |s.answers| ==> s.answers[i].id < s.index.nextId
  }

  lemma {:induction false} AnswersAreTheirs(data: Data, woken: seq<Registration<Reader>>)
    ensures |Answers(data, woken)| == |woken|
    ensures forall i :: 0 <= i < |woken| ==> Answers(data, woken)[i].id == woken[i].id
  {
    if woken != [] { AnswersAreTheirs(data, woken[1..]); }
  }

  lemma StepKeepsInv(s: World, step: Step)
    requires Inv(s)
    ensures Inv(After(s, step))
  {
    match step
    case Write(op, now) =>
      var woken := At(s.index, op.key);
      AnswersAreTheirs(Run(s.data, op, now).data, woken);
      B.PurgedQueuesOk(s.index, Ids(woken));
    case XReadBlock(client, keys, ids) =>
      if |keys| == |ids| && ResolvedAll(s.data, keys, ids).Some? {
        B.JoinedQueuesOk(s.index, keys, Reader(client, keys, ResolvedAll(s.data, keys, ids).value));
      }
    case Timeout(id) => B.PurgedQueuesOk(s.index, {id});
  }

  lemma {:induction false} RunKeepsInv(states: seq<World>, steps: seq<Step>, i: nat)
    requires IsRun(states, steps) && i < |states|
    ensures Inv(states[i])
    decreases i
  {
    if i > 0 {
      RunKeepsInv(states, steps, i - 1);
      StepKeepsInv(states[i - 1], steps[i - 1]);
    }
  }

  /** The reader waits: it stands at its keys and has had no answer. */
  ghost predicate Waits(s: World, r: Registration<Reader>) {
    Stands(s.index, r, r.owner.keys) && AnswersTo(s.answers, r.id) == []
  }

  lemma {:induction false} NoAnswerYet(answers: seq<Answer>, id: nat)
    requires forall i :: 0 <= i < |answers| ==> answers[i].id != id
    ensures AnswersTo(answers, id) == []
  {
    if answers != [] { NoAnswerYet(answers[1..], id); }
  }

  /** Whoever is woken at another key leaves the reader alone. */
  lemma WriteElsewhere(s: World, r: Registration<Reader>, op: Op, now: nat)
    requires Waits(s, r) && (Adds(s.data, op, now) ==> op.key !in r.owner.keys)
    ensures Waits(AfterWrite(s, op, now), r)
  {
    if Adds(s.data, op, now) {
      var data, woken := Run(s.data, op, now).data, At(s.index, op.key);
      assert Mine(woken, r.id) == [];
      MineMembers(woken, r.id);
      PurgeKeepsStanding(s.index, r, r.owner.keys, Ids(woken));
      AnswersToMine(data, woken, r.id);
      AnswersToConcat(s.answers, Answers(data, woken), r.id);
    }
  }

  lemma TimeoutElsewhere(s: World, r: Registration<Reader>, id: nat)
    requires Waits(s, r) && id != r.id
    ensures Waits(AfterTimeout(s, id), r)
  {
    PurgeKeepsStanding(s.index, r, r.owner.keys, {id});
    AnswersToConcat(s.answers, [Answer(id, Some([]))], r.id);
  }

  lemma XReadElsewhere(s: World, r: Registration<Reader>, client: nat, keys: seq<string>, ids: seq<string>)
    requires Waits(s, r)
    ensures Waits(AfterXRead(s, client, keys, ids), r)
  {
    if |keys| == |ids| && ResolvedAll(s.data, keys, ids).Some? {
      JoinKeepsStanding(s.index, r, r.owner.keys, keys, Reader(client, keys, ResolvedAll(s.data, keys, ids).value));
    }
  }

  /** A successful XADD on one of its keys gives the reader one answer and takes it out of every queue. */
  lemma XAddWakes(s: World, r: Registration<Reader>, op: Op, now: nat)
    requires Waits(s, r) && Adds(s.data, op, now) && op.key in r.owner.keys
    ensures
      var t := AfterWrite(s, op, now);
      && AnswersTo(t.answers, r.id) == [Answer(r.id, ReadFor(t.data, r.owner))]
      && r.id !in t.index.idToKeys && forall key :: Mine(At(t.index, key), r.id) == []
  {
    var data, woken := Run(s.data, op, now).data, At(s.index, op.key);
    assert Mine(woken, r.id) == [r];
    MineMembers(woken, r.id);
    assert r.id in Ids(woken);
    AnswersToMine(data, woken, r.id);
    AnswersToConcat(s.answers, Answers(data, woken), r.id);
    assert [r][1..] == [];
    forall key ensures Mine(At(Purged(s.index, Ids(woken)), key), r.id) == [] {
      PurgedQueue(s.index, Ids(woken), key, r.id);
    }
  }

  lemma StandsIsListed(w: Index<Reader>, r: Registration<Reader>, key: string)
    requires B.QueuesOk(w) && Stands(w, r, r.owner.keys) && key in r.owner.keys
    ensures r.id in w.idToKeys
  {
    assert Mine(At(w, key), r.id) == [r];
    MineMembers(At(w, key), r.id);
  }

  /** Its timeout tells the reader that nothing came and takes it out of every queue. */
  lemma TimeoutTells(s: World, r: Registration<Reader>)
    requires Inv(s) && Waits(s, r) && r.owner.keys != []
    ensures
      var t := AfterTimeout(s, r.id);
      && AnswersTo(t.answers, r.id) == [Answer(r.id, Some([]))] && t.data == s.data
      && r.id !in t.index.idToKeys && forall key :: Mine(At(t.index, key), r.id) == []
  {
    StandsIsListed(s.index, r, r.owner.keys[0]);
    AnswersToConcat(s.answers, [Answer(r.id, Some([]))], r.id);
    assert [Answer(r.id, Some([]))][1..] == [];
    forall key ensures Mine(At(Purged(s.index, {r.id}), key), r.id) == [] {
      PurgedQueue(s.index, {r.id}, key, r.id);
    }
  }

  /** The id was given out, and nobody waits under it any more. */
  ghost predicate Left(w: Index<Reader>, id: nat) {
    id < w.nextId && id !in w.idToKeys
  }

  /** Whoever no longer waits is told nothing more. */
  lemma StepLeavesAnswered(s: World, step: Step, id: nat)
    requires Inv(s) && Left(s.index, id)
    ensures Left(After(s, step).index, id) && AnswersTo(After(s, step).answers, id) == AnswersTo(s.answers, id)
  {
    match step
    case Write(op, now) =>
      if Adds(s.data, op, now) {
        var data, woken := Run(s.data, op, now).data, At(s.index, op.key);
        AnswersAreTheirs(data, woken);
        NoAnswerYet(Answers(data, woken), id);
        AnswersToConcat(s.answers, Answers(data, woken), id);
      }
    case XReadBlock(client, keys, ids) =>
    case Timeout(other) =>
      AnswersToConcat(s.answers, [Answer(other, Some([]))], id);
  }

  // ---------------------------------------------------------------- every run

  /** The streams at `keys` hold the same entries in both. */
  ghost predicate SameStreams(a: Data, b: Data, keys: seq<string>) {
    forall key :: key in keys ==> EntriesAt(b, key) == EntriesAt(a, key)
  }

  lemma SparedMeansNotAdded(s: World, op: Op, now: nat, keys: seq<string>)
    requires SameStreams(s.data, AfterWrite(s, op, now).data, keys) && Adds(s.data, op, now)
    ensures op.key !in keys
  {
    var id := Ops.XAdd(s.data, op.key, op.pattern, op.fields, now).result.value;
    AddedEntry(s.data, op.key, op.pattern, op.fields, now, id, op.key);
    assert |EntriesAt(AfterWrite(s, op, now).data, op.key)| == |EntriesAt(s.data, op.key)| + 1;
  }

  /** A step that leaves the reader's streams as they are, and is not its timeout, leaves it waiting. */
  lemma StepKeepsWaiting(s: World, step: Step, r: Registration<Reader>)
    requires Waits(s, r) && step != Timeout(r.id) && SameStreams(s.data, After(s, step).data, r.owner.keys)
    ensures Waits(After(s, step), r)
  {
    match step
    case Write(op, now) =>
      if Adds(s.data, op, now) { SparedMeansNotAdded(s, op, now, r.owner.keys); }
      WriteElsewhere(s, r, op, now);
    case XReadBlock(client, keys, ids) => XReadElsewhere(s, r, client, keys, ids);
    case Timeout(id) => TimeoutElsewhere(s, r, id);
  }

  /** Over every run, what a reader that no longer waits has been told is all it is ever told. */
  lemma {:induction false} AnswerIsFinal(states: seq<World>, steps: seq<Step>, i: nat, j: nat, id: nat)
    requires IsRun(states, steps) && i <= j < |states| && Left(states[i].index, id)
    ensures Left(states[j].index, id) && AnswersTo(states[j].answers, id) == AnswersTo(states[i].answers, id)
    decreases j
  {
    if j > i {
      AnswerIsFinal(states, steps, i, j - 1, id);
      RunKeepsInv(states, steps, j - 1);
      StepLeavesAnswered(states[j - 1], steps[j - 1], id);
    }
  }

  /** Over every run, a reader that times out is told exactly once that nothing came, and never anything else. */
  lemma TimedOutIsToldOnce(states: seq<World>, steps: seq<Step>, i: nat, j: nat, r: Registration<Reader>)
    requires IsRun(states, steps) && i < j < |states| && steps[i] == Timeout(r.id)
    requires Waits(states[i], r) && r.owner.keys != []
    ensures AnswersTo(states[j].answers, r.id) == [Answer(r.id, Some([]))]
  {
    RunKeepsInv(states, steps, i);
    TimeoutTells(states[i], r);
    AnswerIsFinal(states, steps, i + 1, j, r.id);
  }

  /** The registration an XREAD BLOCK makes when it has to wait. */
  ghost function Newcomer(s: World, client: nat, keys: seq<string>, ids: seq<string>): Registration<Reader> {
    var resolved := if |keys| == |ids| then ResolvedAll(s.data, keys, ids) else None;
    Registration(s.index.nextId, Reader(client, keys, if resolved.Some? then resolved.value else []))
  }

  /** It asks for `$` on distinct keys whose streams are in order. */
  ghost predicate AsksForNewest(data: Data, keys: seq<string>, ids: seq<string>) {
    && Distinct(keys) && |ids| == |keys|
    && forall i :: 0 <= i < |keys| ==> ids[i] == "$" && Ordered(EntriesAt(data, keys[i]))
  }

  /** Such a read finds nothing at once and waits. */
  lemma DollarWaits(s: World, client: nat, keys: seq<string>, ids: seq<string>)
    requires Inv(s) && AsksForNewest(s.data, keys, ids)
    ensures AreNewest(s.data, keys, Newcomer(s, client, keys, ids).owner.ids)
    ensures Waits(AfterXRead(s, client, keys, ids), Newcomer(s, client, keys, ids))
    ensures AfterXRead(s, client, keys, ids).data == s.data
  {
    DollarsAreNewest(s.data, keys, ids);
    var r := Newcomer(s, client, keys, ids);
    XReadFindsNothing(s.data, keys, r.owner.ids);
    JoinerStands(s.index, keys, r.owner);
    NoAnswerYet(s.answers, r.id);
  }

  /** From the step after `b` up to state `n`, the reader's streams stay as they are and it does not time out. */
  ghost predicate Undisturbed(states: seq<World>, steps: seq<Step>, b: nat, n: nat, id: nat, keys: seq<string>)
    requires b < n <= |steps| < |states|
  {
    forall k :: b < k < n ==>
      steps[k] != Timeout(id) && SameStreams(states[b].data, states[k + 1].data, keys)
  }

  lemma UndisturbedBefore(states: seq<World>, steps: seq<Step>, b: nat, i: nat, n: nat, id: nat, keys: seq<string>)
    requires b < i <= n <= |steps| < |states| && Undisturbed(states, steps, b, n, id, keys)
    ensures Undisturbed(states, steps, b, i, id, keys)
  {}

  lemma {:induction false} WaitsOn(states: seq<World>, steps: seq<Step>, b: nat, n: nat, r: Registration<Reader>)
    requires IsRun(states, steps) && b < n <= |steps| && Undisturbed(states, steps, b, n, r.id, r.owner.keys)
    requires Waits(states[b + 1], r) && states[b + 1].data == states[b].data
    ensures Waits(states[n], r) && SameStreams(states[b].data, states[n].data, r.owner.keys)
    decreases n
  {
    if n > b + 1 {
      WaitsOn(states, steps, b, n - 1, r);
      StepKeepsWaiting(states[n - 1], steps[n - 1], r);
    }
  }

  /** The read waits, without an answer, as long as its streams stay as they are and it does not time out. */
  lemma BlockedReadWaits(
    states: seq<World>, steps: seq<Step>, b: nat, n: nat, client: nat, keys: seq<string>, ids: seq<string>)
    requires IsRun(states, steps) && b < n <= |steps| && steps[b] == XReadBlock(client, keys, ids)
    requires AsksForNewest(states[b].data, keys, ids) && Undisturbed(states, steps, b, n, states[b].index.nextId, keys)
    ensures AreNewest(states[b].data, keys, Newcomer(states[b], client, keys, ids).owner.ids)
    ensures Waits(states[n], Newcomer(states[b], client, keys, ids))
    ensures SameStreams(states[b].data, states[n].data, keys)
  {
    RunKeepsInv(states, steps, b);
    DollarWaits(states[b], client, keys, ids);
    assert states[b + 1] == After(states[b], steps[b]);
    WaitsOn(states, steps, b, n, Newcomer(states[b], client, keys, ids));
  }

  /** The reader has exactly one answer, this one, and is in no queue any more. */
  ghost predicate WokenWith(t: World, id: nat, found: Option<seq<(string, seq<Entry>)>>) {
    && AnswersTo(t.answers, id) == [Answer(id, found)]
    && id !in t.index.idToKeys && forall k :: Mine(At(t.index, k), id) == []
  }

  /** The entry just added at the key, or, if that put its stream out of order, nothing or an error. */
  predicate FoundOrMissed(found: Option<seq<(string, seq<Entry>)>>, keeps: bool, key: string, entry: Entry) {
    if keeps then found == Some([(key, [entry])]) else found == Some([]) || found.None?
  }

  lemma XAddWakesWithTheEntry(
    s: World, was: Data, r: Registration<Reader>,
    key: string, pattern: string, fields: seq<(string, string)>, now: nat, id: string)
    returns (found: Option<seq<(string, seq<Entry>)>>)
    requires Waits(s, r) && Distinct(r.owner.keys) && AreNewest(was, r.owner.keys, r.owner.ids) && key in r.owner.keys
    requires SameStreams(was, s.data, r.owner.keys) && forall k :: k in r.owner.keys ==> Ordered(EntriesAt(was, k))
    requires Ops.XAdd(s.data, key, pattern, fields, now).result == Ok(id) && now <= INT64_MAX
    ensures WokenWith(AfterWrite(s, XAddOp(key, pattern, fields), now), r.id, found)
    ensures FoundOrMissed(found, KeepsOrder(pattern, LastIdOf(EntriesAt(was, key)), now), key, Entry(id, fields))
  {
    XAddWakes(s, r, XAddOp(key, pattern, fields), now);
    ReadAfterXAdd(was, s.data, r.owner.keys, r.owner.ids, key, pattern, fields, now, id);
    found := ReadFor(AfterWrite(s, XAddOp(key, pattern, fields), now).data, r.owner);
  }

  /**
   XREAD BLOCK with `$` on distinct keys whose streams are in order. Whatever other steps come in between, as
   long as its streams stay as they are and it does not time out: the read has no answer until the first
   successful XADD on one of its keys; that XADD gives it exactly one, and it is then in no queue any more. The
   answer is that key with that entry if and only if the XADD keeps the stream in order.
   */
  lemma BlockedReadIsWokenByFirstXAdd(
    states: seq<World>, steps: seq<Step>, b: nat, j: nat, client: nat, keys: seq<string>, ids: seq<string>,
    key: string, pattern: string, fields: seq<(string, string)>, now: nat, id: string)
    returns (found: Option<seq<(string, seq<Entry>)>>)
    requires IsRun(states, steps) && b < j < |steps| && steps[b] == XReadBlock(client, keys, ids)
    requires AsksForNewest(states[b].data, keys, ids) && Undisturbed(states, steps, b, j, states[b].index.nextId, keys)
    requires steps[j] == Write(XAddOp(key, pattern, fields), now) && key in keys && now <= INT64_MAX
    requires Ops.XAdd(states[j].data, key, pattern, fields, now).result == Ok(id)
    ensures forall n :: b < n <= j ==> Waits(states[n], Newcomer(states[b], client, keys, ids))
    ensures WokenWith(states[j + 1], states[b].index.nextId, found)
    ensures
      var keeps := KeepsOrder(pattern, LastIdOf(EntriesAt(states[b].data, key)), now);
      FoundOrMissed(found, keeps, key, Entry(id, fields))
  {
    var r := Newcomer(states[b], client, keys, ids);
    forall n | b < n <= j ensures Waits(states[n], r) {
      UndisturbedBefore(states, steps, b, n, j, states[b].index.nextId, keys);
      BlockedReadWaits(states, steps, b, n, client, keys, ids);
    }
    assert states[j + 1] == After(states[j], steps[j]) == AfterWrite(states[j], XAddOp(key, pattern, fields), now);
    BlockedReadWaits(states, steps, b, j, client, keys, ids);
    assert r.owner.keys == keys && Distinct(keys) && forall k :: k in keys ==> Ordered(EntriesAt(states[b].data, k));
    found := XAddWakesWithTheEntry(states[j], states[b].data, r, key, pattern, fields, now, id);
  }

  // ---------------------------------------------------------------- the handlers

  /** The callbacks of the woken readers: each reads the store from its own IDs. */
  method AnswerAll(store: Store, woken: seq<Registration<Reader>>) returns (answers: seq<Answer>)
    requires forall r :: r in woken ==> |r.owner.keys| == |r.owner.ids|
    ensures answers == Answers(store.data, woken)
  {
    answers := [];
    assert woken[0..] == woken;
    for i := 0 to |woken|
      invariant answers + Answers(store.data, woken[i..]) == Answers(store.data, woken)
    {
      assert woken[i..][1..] == woken[i + 1..];
      var found := store.XRead(woken[i].owner.keys, woken[i].owner.ids);
      Snoc(answers, Answer(woken[i].id, found), Answers(store.data, woken[i + 1..]));
      answers := answers + [Answer(woken[i].id, found)];
    }
  }

  lemma Snoc<X>(a: seq<X>, x: X, b: seq<X>)
    ensures a + ([x] + b) == (a + [x]) + b
  {}

  lemma AfterXAdd(
    data: Data, index: Index<Reader>, key: string, pattern: string, fields: seq<(string, string)>, now: nat)
    ensures
      var u, woken := Ops.XAdd(data, key, pattern, fields, now), At(index, key);
      AfterWrite(World(data, index, []), XAddOp(key, pattern, fields), now) ==
      if u.result.Ok? then World(u.data, Purged(index, Ids(woken)), Answers(u.data, woken))
      else World(u.data, index, [])
  {
    var u := Ops.XAdd(data, key, pattern, fields, now);
    assert [] + Answers(u.data, At(index, key)) == Answers(u.data, At(index, key));
  }

  /** XADD: the entry, then everyone waiting for the key. */
  method XAdd(
    registry: BlockingRegistry<Reader>, store: Store,
    key: string, pattern: string, fields: seq<(string, string)>, now: nat)
    returns (result: Result<string>, answers: seq<Answer>)
    requires Listed(registry.State()) && NoneEmpty(registry.State())
    requires forall r :: r in At(registry.State(), key) ==> |r.owner.keys| == |r.owner.ids|
    modifies registry, store
    ensures result == Ops.XAdd(old(store.data), key, pattern, fields, now).result
    ensures World(store.data, registry.State(), answers) ==
            AfterWrite(World(old(store.data), old(registry.State()), []), XAddOp(key, pattern, fields), now)
  {
    AfterXAdd(store.data, registry.State(), key, pattern, fields, now);
    answers := [];
    result := store.XAdd(key, pattern, fields, now);
    if result.Ok? {
      var woken := ServeXreadWaiters(registry, key);
      answers := AnswerAll(store, woken);
    }
  }

  /** XREAD BLOCK: what it finds at once, or a place in the queues of all its keys. */
  method XReadBlocking(
    registry: BlockingRegistry<Reader>, store: Store, client: nat, keys: seq<string>, ids: seq<string>)
    returns (found: Option<seq<(string, seq<Entry>)>>)
    requires |keys| == |ids|
    modifies registry
    ensures World(store.data, registry.State(), []) ==
            AfterXRead(World(old(store.data), old(registry.State()), []), client, keys, ids)
    ensures found ==
            match ResolvedAll(store.data, keys, ids) {
              case None => None
              case Some(r) => Ops.XRead(store.data, keys, r)
            }
  {
    var resolved := ResolveStreamIds(store, keys, ids);
    if resolved.None? { return None; }
    found := store.XRead(keys, resolved.value);
    if found == Some([]) {
      var id := registry.RegisterCallbacks(keys, Reader(client, keys, resolved.value));
    }
  }
}
