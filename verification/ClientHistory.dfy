/**
 What a connection's transaction state must be, told from nothing but the requests its client has sent
 (src/command/execution/TransactionManager.cpp, src/command/impl/TransactionCommands.cpp,
 src/command/impl/WatchCommands.cpp).
 */
module ClientHistory {
  import opened Base
  import opened Resp
  import opened Commands
  import opened Transactions
  import R = TransactionRuns

  /** What one connection does in one step of a run. */
  datatype Move = Appears | Leaves | Sends(request: RespValue) | Rests

  type Kinds = RespValue -> Kind

  /** The client sends a request of this kind. */
  predicate Asks(kind: Kinds, move: Move, wanted: Kind) {
    move.Sends? && IsRequest(move.request) && kind(move.request) == wanted
  }

  /** The client sends a command that is not transaction control. */
  predicate IsCommand(kind: Kinds, move: Move) {
    move.Sends? && IsRequest(move.request) && !IsTransactionControl(kind(move.request))
  }

  /** The client sends EXEC or DISCARD, or the connection comes or goes. */
  predicate Finishes(kind: Kinds, move: Move) {
    Asks(kind, move, Exec) || Asks(kind, move, Discard) || move.Appears? || move.Leaves?
  }

  // ---------------------------------------------------------------- told from the requests

  ghost function Begun(kind: Kinds, moves: seq<Move>): nat -> bool {
    (i: nat) => i < |moves| && Asks(kind, moves[i], Multi)
  }

  ghost function Finished(kind: Kinds, moves: seq<Move>): nat -> bool {
    (i: nat) => i < |moves| && Finishes(kind, moves[i])
  }

  /** MULTI was sent, and nothing since then that ends it. */
  ghost predicate InMulti(kind: Kinds, moves: seq<Move>, j: nat) {
    R.Since(Begun(kind, moves), Finished(kind, moves), j)
  }

  /** The command that a move sends, if any. */
  function Added(kind: Kinds, move: Move): seq<RespValue> {
    if IsCommand(kind, move) then [move.request] else []
  }

  /** The commands sent from move `i` on, before `j`, in the order they were sent. */
  function SentBetween(kind: Kinds, moves: seq<Move>, i: nat, j: nat): seq<RespValue>
    requires i <= j <= |moves|
  {
    if i == j then []
    else SentBetween(kind, moves, i, j - 1) + Added(kind, moves[j - 1])
  }

  /** MULTI is sent in move `i`, outside MULTI, and nothing that ends it before `j`. */
  ghost predicate InTransaction(kind: Kinds, moves: seq<Move>, i: nat, j: nat) {
    && i < j <= |moves| && Asks(kind, moves[i], Multi) && !InMulti(kind, moves, i)
    && forall k :: i < k < j ==> !Finishes(kind, moves[k])
  }

  predicate AsksToWatch(kind: Kinds, move: Move, key: string) {
    Asks(kind, move, Watch) && key in Args(move.request)
  }

  /** The client drops its watches: by UNWATCH without arguments, by ending a transaction, by coming or going. */
  predicate Drops(kind: Kinds, move: Move, inMulti: bool) {
    || (Asks(kind, move, Unwatch) && Args(move.request) == [])
    || (Finishes(kind, move) && (inMulti || !move.Sends?))
  }

  /** A WATCH naming the key was sent outside MULTI. */
  ghost function WatchSent(kind: Kinds, moves: seq<Move>, key: string): nat -> bool {
    (i: nat) => i < |moves| && AsksToWatch(kind, moves[i], key) && !InMulti(kind, moves, i)
  }

  ghost function WatchesDropped(kind: Kinds, moves: seq<Move>): nat -> bool {
    (i: nat) => i < |moves| && Drops(kind, moves[i], InMulti(kind, moves, i))
  }

  /** The client asked to watch the key, and nothing since then ended that. */
  ghost predicate AskedToWatch(kind: Kinds, moves: seq<Move>, key: string, j: nat) {
    R.Since(WatchSent(kind, moves, key), WatchesDropped(kind, moves), j)
  }

  // ---------------------------------------------------------------- what a step must do to a connection

  /** Two connections that differ at most in their dirty flags and watch ids. */
  predicate Alike(a: Conn, b: Conn) {
    a.active == b.active && a.queue == b.queue && a.watched.Keys == b.watched.Keys
  }

  predicate Controlled(kind: Kind, before: Conn, args: seq<string>, after: Conn)
    requires IsTransactionControl(kind)
  {
    match kind
    case Multi =>
      && after.active && after.queue == (if before.active then before.queue else [])
      && after.watched.Keys == before.watched.Keys
    case Watch =>
      if before.active then Alike(before, after)
      else
        && !after.active && after.queue == before.queue
        && after.watched.Keys == before.watched.Keys + (set key | key in args)
    case Unwatch =>
      && after.active == before.active && after.queue == before.queue
      && after.watched.Keys == if args == [] then {} else before.watched.Keys
    case Exec => if before.active then Alike(after, Idle) else Alike(before, after)
    case Discard => if before.active then Alike(after, Idle) else Alike(before, after)
  }

  /** How a connection changes in a step in which its client makes this move. */
  predicate Changes(kind: Kinds, before: Option<Conn>, move: Move, after: Option<Conn>) {
    match move
    case Appears => before.None? && after.Some? && Alike(after.value, Idle)
    case Leaves => before.Some? && after.None?
    case Rests => before.None? == after.None? && (before.Some? ==> Alike(before.value, after.value))
    case Sends(request) =>
      && before.Some? && after.Some? && IsRequest(request)
      && if IsTransactionControl(kind(request)) then
           Controlled(kind(request), before.value, Args(request), after.value)
         else if before.value.active then
           Alike(after.value, before.value.(queue := before.value.queue + [request]))
         else Alike(before.value, after.value)
  }

  /** The moves that do not lead from one state of the connection to the next. */
  ghost function Breaks(kind: Kinds, conns: seq<Option<Conn>>, moves: seq<Move>): set<nat>
    requires |conns| == |moves| + 1
  {
    set i | 0 <= i < |moves| && !Changes(kind, conns[i], moves[i], conns[i + 1])
  }

  /** A connection through a run. */
  ghost predicate IsHistory(kind: Kinds, conns: seq<Option<Conn>>, moves: seq<Move>) {
    |conns| == |moves| + 1 && conns[0].None? && Breaks(kind, conns, moves) == {}
  }

  lemma ChangesAt(kind: Kinds, conns: seq<Option<Conn>>, moves: seq<Move>, i: nat)
    requires IsHistory(kind, conns, moves) && i < |moves|
    ensures Changes(kind, conns[i], moves[i], conns[i + 1])
  {
    assert i !in Breaks(kind, conns, moves);
  }

  // ---------------------------------------------------------------- the state is what the requests say

  lemma {:induction false} ActiveIsInMulti(kind: Kinds, conns: seq<Option<Conn>>, moves: seq<Move>, j: nat)
    requires IsHistory(kind, conns, moves) && j < |conns|
    ensures conns[j].Some? ==> (conns[j].value.active <==> InMulti(kind, moves, j))
    ensures conns[j].Some? && !conns[j].value.active ==> conns[j].value.queue == []
    decreases j
  {
    if j > 0 {
      ActiveIsInMulti(kind, conns, moves, j - 1);
      R.SinceStep(Begun(kind, moves), Finished(kind, moves), j - 1);
      ChangesAt(kind, conns, moves, j - 1);
    }
  }

  lemma QueueStep(kind: Kinds, before: Option<Conn>, move: Move, after: Option<Conn>)
    requires Changes(kind, before, move, after) && before.Some? && before.value.active && !Finishes(kind, move)
    ensures after.Some? && after.value.active && after.value.queue == before.value.queue + Added(kind, move)
  {
    assert before.value.queue + [] == before.value.queue;
  }

  lemma BeginStep(kind: Kinds, before: Option<Conn>, move: Move, after: Option<Conn>)
    requires Changes(kind, before, move, after) && Asks(kind, move, Multi) && (before.Some? ==> !before.value.active)
    ensures after.Some? && after.value.active && after.value.queue == []
  {}

  /** Between a MULTI and whatever ends it, the queue holds exactly the commands sent since, in sending order. */
  lemma {:induction false} QueueIsWhatWasSent(kind: Kinds, conns: seq<Option<Conn>>, moves: seq<Move>, i: nat, j: nat)
    requires IsHistory(kind, conns, moves) && InTransaction(kind, moves, i, j)
    ensures conns[j].Some? && conns[j].value.active
    ensures conns[j].value.queue == SentBetween(kind, moves, i + 1, j)
    decreases j
  {
    ChangesAt(kind, conns, moves, j - 1);
    if j == i + 1 {
      ActiveIsInMulti(kind, conns, moves, i);
      BeginStep(kind, conns[i], moves[i], conns[j]);
    } else {
      QueueIsWhatWasSent(kind, conns, moves, i, j - 1);
      QueueStep(kind, conns[j - 1], moves[j - 1], conns[j]);
    }
  }

  lemma WatchOnce(kind: Kinds, before: Option<Conn>, move: Move, after: Option<Conn>, key: string, inMulti: bool)
    requires Changes(kind, before, move, after) && after.Some? && (before.Some? ==> before.value.active == inMulti)
    ensures key in after.value.watched <==>
            || (AsksToWatch(kind, move, key) && !inMulti)
            || (!Drops(kind, move, inMulti) && before.Some? && key in before.value.watched)
  {}

  lemma WatchStep(kind: Kinds, conns: seq<Option<Conn>>, moves: seq<Move>, key: string, j: nat)
    requires IsHistory(kind, conns, moves) && j < |moves| && conns[j + 1].Some?
    ensures key in conns[j + 1].value.watched <==>
            || WatchSent(kind, moves, key)(j)
            || (!WatchesDropped(kind, moves)(j) && conns[j].Some? && key in conns[j].value.watched)
  {
    ActiveIsInMulti(kind, conns, moves, j);
    ChangesAt(kind, conns, moves, j);
    WatchOnce(kind, conns[j], moves[j], conns[j + 1], key, InMulti(kind, moves, j));
  }

  lemma GoneMeansDropped(kind: Kinds, conns: seq<Option<Conn>>, moves: seq<Move>, j: nat)
    requires IsHistory(kind, conns, moves) && j < |moves| && conns[j].None? && conns[j + 1].Some?
    ensures WatchesDropped(kind, moves)(j)
  {
    ChangesAt(kind, conns, moves, j);
  }

  /** A connection watches exactly the keys its client asked it to watch. */
  lemma {:induction false} WatchesWhatWasAsked(
    kind: Kinds, conns: seq<Option<Conn>>, moves: seq<Move>, key: string, j: nat)
    requires IsHistory(kind, conns, moves) && j < |conns| && conns[j].Some?
    ensures key in conns[j].value.watched <==> AskedToWatch(kind, moves, key, j)
    decreases j
  {
    WatchStep(kind, conns, moves, key, j - 1);
    R.SinceStep(WatchSent(kind, moves, key), WatchesDropped(kind, moves), j - 1);
    if conns[j - 1].Some? {
      WatchesWhatWasAsked(kind, conns, moves, key, j - 1);
    } else {
      GoneMeansDropped(kind, conns, moves, j - 1);
    }
  }
}
