/**
 The parser the server runs (src/resp/RespParser.cpp): a loop over the input with an explicit stack
 of array frames. It is proved to compute, on every input, what recursive descent computes.
 */
module RespParser {
  import opened Base
  import opened Resp

  /** An array being filled: the elements read so far and how many are still missing. */
  datatype Frame = Frame(elements: seq<RespValue>, remaining: nat)

  predicate AllOpen(stack: seq<Frame>) {
    forall i :: 0 <= i < |stack| ==> stack[i].remaining > 0
  }

  /** What recursive descent goes on to return once `v` is complete at `pos` inside `stack`. */
  ghost function Complete(s: string, pos: nat, stack: seq<Frame>, v: RespValue): Option<At<RespValue>>
    requires pos <= |s| && AllOpen(stack)
    decreases |stack|, 0
  {
    if stack == [] then Some(At(v, pos))
    else
      var top := stack[|stack| - 1];
      Fill(s, pos, stack[..|stack| - 1], Frame(top.elements + [v], top.remaining - 1))
  }

  /** What recursive descent goes on to return when `open` stands on `stack` and `pos` is next. */
  ghost function Fill(s: string, pos: nat, stack: seq<Frame>, open: Frame): Option<At<RespValue>>
    requires pos <= |s| && AllOpen(stack)
    decreases |stack|, 1
  {
    match ParseElements(s, pos, open.remaining)
    case None => None
    case Some(rest) => Complete(s, rest.pos, stack, Array(open.elements + rest.value))
  }

  /** The outcome still to be computed in a loop state. */
  ghost function Pending(s: string, pos: nat, stack: seq<Frame>, current: Option<RespValue>): Option<At<RespValue>>
    requires pos <= |s| && AllOpen(stack)
  {
    match current
    case Some(v) => Complete(s, pos, stack, v)
    case None =>
      if stack == [] then ParseValue(s, pos)
      else Fill(s, pos, stack[..|stack| - 1], stack[|stack| - 1])
  }

  lemma FullFrame(s: string, pos: nat, stack: seq<Frame>, elements: seq<RespValue>)
    requires pos <= |s| && AllOpen(stack)
    ensures Fill(s, pos, stack, Frame(elements, 0)) == Complete(s, pos, stack, Array(elements))
  {
    assert elements + [] == elements;
  }

  /** Reading one value and completing it with it is what filling the top frame does. */
  lemma FillOne(s: string, pos: nat, stack: seq<Frame>)
    requires pos <= |s| && AllOpen(stack) && stack != []
    ensures Pending(s, pos, stack, None) ==
            match ParseValue(s, pos) {
              case None => None
              case Some(v) => Complete(s, v.pos, stack, v.value)
            }
  {
    var top := stack[|stack| - 1];
    match ParseValue(s, pos)
    case None =>
    case Some(v) =>
      match ParseElements(s, v.pos, top.remaining - 1)
      case None =>
      case Some(rest) =>
        assert top.elements + ([v.value] + rest.value) == top.elements + [v.value] + rest.value;
  }

  /** Hands a finished value to the innermost open array and closes every array this completes. */
  method ProcessStack(stack: seq<Frame>, value: RespValue, ghost s: string, ghost pos: nat)
    returns (stack': seq<Frame>, current: Option<RespValue>)
    requires pos <= |s| && AllOpen(stack) && stack != []
    ensures AllOpen(stack')
    ensures current.Some? ==> stack' == []
    ensures current.None? ==> stack' != []
    ensures Pending(s, pos, stack', current) == Complete(s, pos, stack, value)
  {
    var top := stack[|stack| - 1];
    stack' := stack[..|stack| - 1] + [Frame(top.elements + [value], top.remaining - 1)];
    current := None;
    while stack' != [] && stack'[|stack'| - 1].remaining == 0
      invariant stack' != [] && current == None
      invariant AllOpen(stack'[..|stack'| - 1])
      invariant Fill(s, pos, stack'[..|stack'| - 1], stack'[|stack'| - 1]) == Complete(s, pos, stack, value)
      decreases |stack'|
    {
      var finished := Array(stack'[|stack'| - 1].elements);
      FullFrame(s, pos, stack'[..|stack'| - 1], stack'[|stack'| - 1].elements);
      stack' := stack'[..|stack'| - 1];
      if stack' == [] {
        current := Some(finished);
        return;
      }
      var parent := stack'[|stack'| - 1];
      stack' := stack'[..|stack'| - 1] + [Frame(parent.elements + [finished], parent.remaining - 1)];
    }
  }

  /** Reads an array header after its '*': a finished null or empty array, or a new open frame. */
  method HandleArrayHeader(s: string, pos: nat, stack: seq<Frame>)
    returns (ok: bool, pos': nat, stack': seq<Frame>, current: Option<RespValue>)
    requires pos <= |s| && AllOpen(stack)
    ensures ok == ParseCount(s, pos).Some?
    ensures ok ==> pos < pos' <= |s| && AllOpen(stack')
    ensures ok ==>
              var count := ParseCount(s, pos).value;
              && pos' == count.pos
              && current ==
                  (if count.value == -1 then Some(Null) else if count.value == 0 then Some(Array([])) else None)
              && stack' == (if count.value <= 0 then stack else stack + [Frame([], count.value)])
  {
    ok, pos', stack', current := false, pos, stack, None;
    var line := ReadLine(s, pos);
    if line.None? { return; }
    var count := ParseInt(line.value.value);
    if count.None? { return; }
    // A count below -1 makes `reserve` throw.
    if count.value < -1 { return; }
    ok, pos' := true, line.value.pos;
    if count.value == -1 {
      current := Some(Null);
    } else if count.value == 0 {
      current := Some(Array([]));
    } else {
      stack' := stack + [Frame([], count.value)];
    }
  }

  /** The state after the type byte '*': the header stands for the array it opens. */
  lemma HeaderKeepsPending(s: string, pos: nat, stack: seq<Frame>)
    requires pos < |s| && AllOpen(stack) && s[pos] == '*'
    ensures
      var count := ParseCount(s, pos + 1);
      match count {
        case None => Pending(s, pos, stack, None) == None
        case Some(c) =>
          Pending(s, pos, stack, None) ==
          if c.value == -1 then Complete(s, c.pos, stack, Null)
          else if c.value == 0 then Complete(s, c.pos, stack, Array([]))
          else Pending(s, c.pos, stack + [Frame([], c.value)], None)
      }
  {
    if stack != [] {
      FillOne(s, pos, stack);
    }
    match ParseCount(s, pos + 1)
    case None =>
    case Some(c) =>
      if c.value > 0 {
        var stack' := stack + [Frame([], c.value)];
        assert stack'[..|stack'| - 1] == stack;
        match ParseElements(s, c.pos, c.value)
        case None =>
        case Some(rest) => assert [] + rest.value == rest.value;
      }
  }

  /**
   `RespParser::parse` with its `consumed` count. The loop keeps every frame open and a pending value
   only over an empty stack, and always makes progress in the input.
   */
  method ParseIterative(s: string) returns (value: Option<RespValue>, consumed: nat)
    ensures Parse(s) == match value { case None => None case Some(v) => Some(At(v, consumed)) }
  {
    consumed := 0;
    if s == [] { return None, 0; }
    var pos := 0;
    var stack: seq<Frame> := [];
    var current: Option<RespValue> := None;
    while pos < |s| || stack != []
      invariant pos <= |s| && AllOpen(stack)
      invariant current.Some? ==> stack == []
      invariant current.None? && stack == [] ==> pos == 0
      invariant Pending(s, pos, stack, current) == Parse(s)
      decreases |s| - pos, current.None?
    {
      if current.None? {
        if pos >= |s| {
          FillOne(s, pos, stack);
          return None, 0;
        }
        var kind := s[pos];
        if kind == '*' {
          HeaderKeepsPending(s, pos, stack);
          var ok;
          ok, pos, stack, current := HandleArrayHeader(s, pos + 1, stack);
          if !ok { return None, 0; }
          if current.None? { continue; }
        } else {
          if stack != [] { FillOne(s, pos, stack); }
          var scalar := ParseScalar(s, kind, pos + 1);
          if scalar.None? { return None, 0; }
          current, pos := Some(scalar.value.value), scalar.value.pos;
        }
      }
      if stack == [] {
        return current, pos;
      }
      stack, current := ProcessStack(stack, current.value, s, pos);
    }
    return current, pos;
  }
}
