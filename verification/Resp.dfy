/**
 The RESP2 value tree, its wire format, and a recursive-descent reading of that format
 (src/resp/RespParser.cpp). One `char` stands for one byte.
 */
module Resp {
  import opened Base
  import opened Decimal

  datatype RespValue =
    | SimpleString(str: string)
    | Integer(str: string)
    | BulkString(str: string)
    | Array(elements: seq<RespValue>)
    | Null
  {
    /** The `str` member, empty for arrays and nulls. */
    function Str(): string {
      if Array? || Null? then "" else str
    }
  }

  const CRLF: string := "\r\n"

  /** A parsed item together with the position just after it. */
  datatype At<+T> = At(value: T, pos: nat)

  // ---------------------------------------------------------------- lines

  predicate CrlfAt(s: string, i: int) {
    0 <= i && i + 1 < |s| && s[i] == '\r' && s[i + 1] == '\n'
  }

  predicate NoCrlf(s: string) {
    forall i :: 0 <= i < |s| ==> !CrlfAt(s, i)
  }

  /** `input.find("\r\n", pos)`. */
  function FindCrlf(s: string, pos: nat): (r: Option<nat>)
    requires pos <= |s|
    ensures r.Some? ==> pos <= r.value && r.value + 2 <= |s|
    decreases |s| - pos
  {
    if pos == |s| then None
    else if CrlfAt(s, pos) then Some(pos)
    else FindCrlf(s, pos + 1)
  }

  /** The position found is the first CRLF, and nothing is found only when there is none. */
  lemma {:induction false} FindCrlfIsFirst(s: string, pos: nat, end: nat)
    requires pos <= end <= |s|
    requires forall i :: pos <= i < end ==> !CrlfAt(s, i)
    ensures CrlfAt(s, end) ==> FindCrlf(s, pos) == Some(end)
    ensures end == |s| ==> FindCrlf(s, pos) == None
    decreases end - pos
  {
    if pos < end {
      FindCrlfIsFirst(s, pos + 1, end);
    }
  }

  lemma {:induction false} LineHasNoCrlf(s: string, pos: nat)
    requires pos <= |s| && FindCrlf(s, pos).Some?
    ensures NoCrlf(s[pos..FindCrlf(s, pos).value])
    decreases |s| - pos
  {
    if !CrlfAt(s, pos) {
      LineHasNoCrlf(s, pos + 1);
      var end := FindCrlf(s, pos).value;
      forall i | 0 <= i < end - pos ensures !CrlfAt(s[pos..end], i) {
        if i > 0 {
          assert !CrlfAt(s[pos + 1..end], i - 1);
        }
      }
    }
  }

  /** A line up to the next CRLF, and the position after it. */
  function ReadLine(s: string, pos: nat): (r: Option<At<string>>)
    requires pos <= |s|
    ensures r.Some? ==> pos + 2 <= r.value.pos <= |s|
  {
    match FindCrlf(s, pos)
    case None => None
    case Some(end) =>
      Some(At(s[pos..end], end + 2))
  }

  /** `parse_int`: a 32-bit integer at the front of the line; what follows it is not looked at. */
  function ParseInt(line: string): (r: Option<int>)
    ensures r.Some? ==> -INT32_MAX - 1 <= r.value <= INT32_MAX
  {
    match FromChars(line, -INT32_MAX - 1, INT32_MAX)
    case None => None
    case Some(scanned) => Some(scanned.value)
  }

  // ---------------------------------------------------------------- recursive descent

  /** A bulk string after its '$'. The two bytes after the payload are skipped unread. */
  function ParseBulk(s: string, pos: nat): (r: Option<At<RespValue>>)
    requires pos <= |s|
    ensures r.Some? ==> pos < r.value.pos <= |s|
  {
    match ReadLine(s, pos)
    case None => None
    case Some(line) =>
      match ParseInt(line.value)
      case None => None
      case Some(length) =>
        if length < 0 then Some(At(Null, line.pos))
        else if line.pos + length + 2 > |s| then None
        else Some(At(BulkString(s[line.pos..line.pos + length]), line.pos + length + 2))
  }

  /** A value that is not an array, after its type byte. */
  function ParseScalar(s: string, kind: char, pos: nat): (r: Option<At<RespValue>>)
    requires pos <= |s|
    ensures r.Some? ==> pos < r.value.pos <= |s|
  {
    if kind == '$' then ParseBulk(s, pos)
    else if kind == ':' || kind == '+' then
      match ReadLine(s, pos)
      case None => None
      case Some(line) =>
        Some(At(if kind == ':' then Integer(line.value) else SimpleString(line.value), line.pos))
    else None
  }

  /** The element count of an array after its '*'; counts below -1 are an error. */
  function ParseCount(s: string, pos: nat): (r: Option<At<int>>)
    requires pos <= |s|
    ensures r.Some? ==> pos < r.value.pos <= |s| && -1 <= r.value.value <= INT32_MAX
  {
    match ReadLine(s, pos)
    case None => None
    case Some(line) =>
      match ParseInt(line.value)
      case None => None
      case Some(count) => if count < -1 then None else Some(At(count, line.pos))
  }

  /** One value at `pos`, by recursive descent. */
  function ParseValue(s: string, pos: nat): (r: Option<At<RespValue>>)
    requires pos <= |s|
    ensures r.Some? ==> pos < r.value.pos <= |s|
    decreases |s| - pos, 0
  {
    if pos == |s| then None
    else if s[pos] != '*' then ParseScalar(s, s[pos], pos + 1)
    else
      match ParseCount(s, pos + 1)
      case None => None
      case Some(count) =>
        if count.value == -1 then Some(At(Null, count.pos))
        else
          match ParseElements(s, count.pos, count.value)
          case None => None
          case Some(elements) => Some(At(Array(elements.value), elements.pos))
  }

  /** Exactly `n` values, one after another. */
  function ParseElements(s: string, pos: nat, n: nat): (r: Option<At<seq<RespValue>>>)
    requires pos <= |s|
    ensures r.Some? ==> pos <= r.value.pos <= |s| && |r.value.value| == n
    decreases |s| - pos, 1
  {
    if n == 0 then Some(At([], pos))
    else
      match ParseValue(s, pos)
      case None => None
      case Some(first) =>
        match ParseElements(s, first.pos, n - 1)
        case None => None
        case Some(rest) => Some(At([first.value] + rest.value, rest.pos))
  }

  /** The first value of a buffer and the number of bytes it takes. */
  function Parse(s: string): (r: Option<At<RespValue>>)
    ensures r.Some? ==> 0 < r.value.pos <= |s|
  {
    ParseValue(s, 0)
  }

  // ---------------------------------------------------------------- serialisation

  function Serialize(v: RespValue): (s: string)
    ensures |s| > 0
    decreases v, 1
  {
    match v
    case SimpleString(str) => "+" + str + CRLF
    case Integer(str) => ":" + str + CRLF
    case BulkString(str) => "$" + IntText(|str|) + CRLF + str + CRLF
    case Null => "$-1\r\n"
    case Array(elements) => "*" + IntText(|elements|) + CRLF + SerializeAll(elements)
  }

  function SerializeAll(vs: seq<RespValue>): string
    decreases vs, 0
  {
    if vs == [] then "" else Serialize(vs[0]) + SerializeAll(vs[1..])
  }

  function Bulks(parts: seq<string>): (vs: seq<RespValue>)
    ensures |vs| == |parts|
    ensures forall i :: 0 <= i < |parts| ==> vs[i] == BulkString(parts[i])
  {
    if parts == [] then [] else [BulkString(parts[0])] + Bulks(parts[1..])
  }

  /** `encode_array` as a value: an array of bulk strings. */
  function Request(parts: seq<string>): RespValue {
    Array(Bulks(parts))
  }

  /** The values RESP2 can carry: lines without CRLF, and lengths that fit the parser's `int`. */
  predicate WellFormed(v: RespValue)
    decreases v, 1
  {
    match v
    case SimpleString(str) => NoCrlf(str)
    case Integer(str) => NoCrlf(str)
    case BulkString(str) => |str| <= INT32_MAX
    case Null => true
    case Array(elements) => |elements| <= INT32_MAX && AllWellFormed(elements)
  }

  predicate AllWellFormed(vs: seq<RespValue>)
    decreases vs, 0
  {
    forall i :: 0 <= i < |vs| ==> WellFormed(vs[i])
  }

  // ---------------------------------------------------------------- every parsed value is well formed

  lemma {:induction false} ParseValueWellFormed(s: string, pos: nat)
    requires pos <= |s| && ParseValue(s, pos).Some?
    ensures WellFormed(ParseValue(s, pos).value.value)
    decreases |s| - pos, 0
  {
    if s[pos] == '*' {
      var count := ParseCount(s, pos + 1).value;
      if count.value >= 0 {
        ParseElementsWellFormed(s, count.pos, count.value);
      }
    } else {
      LineHasNoCrlf(s, pos + 1);
    }
  }

  lemma {:induction false} ParseElementsWellFormed(s: string, pos: nat, n: nat)
    requires pos <= |s| && ParseElements(s, pos, n).Some?
    ensures AllWellFormed(ParseElements(s, pos, n).value.value)
    decreases |s| - pos, 1
  {
    if n > 0 {
      ParseValueWellFormed(s, pos);
      ParseElementsWellFormed(s, ParseValue(s, pos).value.pos, n - 1);
    }
  }

  // ---------------------------------------------------------------- framing

  /** `s` and `t` hold the same first `n` bytes. */
  predicate SamePrefix(s: string, t: string, n: nat) {
    n <= |s| && n <= |t| && s[..n] == t[..n]
  }

  lemma {:induction false} FindCrlfStable(s: string, t: string, pos: nat, n: nat)
    requires pos <= |s| && FindCrlf(s, pos).Some? && FindCrlf(s, pos).value + 2 <= n
    requires SamePrefix(s, t, n)
    ensures FindCrlf(t, pos) == FindCrlf(s, pos)
    decreases |s| - pos
  {
    assert s[pos] == s[..n][pos] == t[pos] && s[pos + 1] == s[..n][pos + 1] == t[pos + 1];
    if !CrlfAt(s, pos) {
      FindCrlfStable(s, t, pos + 1, n);
    }
  }

  lemma ReadLineStable(s: string, t: string, pos: nat, n: nat)
    requires pos <= |s| && ReadLine(s, pos).Some? && ReadLine(s, pos).value.pos <= n
    requires SamePrefix(s, t, n)
    ensures ReadLine(t, pos) == ReadLine(s, pos)
  {
    FindCrlfStable(s, t, pos, n);
    var end := FindCrlf(s, pos).value;
    assert s[pos..end] == s[..n][pos..end] == t[pos..end];
  }

  lemma ParseScalarStable(s: string, t: string, kind: char, pos: nat, n: nat)
    requires pos <= |s| && ParseScalar(s, kind, pos).Some? && ParseScalar(s, kind, pos).value.pos <= n
    requires SamePrefix(s, t, n)
    ensures ParseScalar(t, kind, pos) == ParseScalar(s, kind, pos)
  {
    ReadLineStable(s, t, pos, n);
    var line := ReadLine(s, pos).value;
    if kind == '$' && ParseInt(line.value).value >= 0 {
      var end := line.pos + ParseInt(line.value).value;
      assert s[line.pos..end] == s[..n][line.pos..end] == t[line.pos..end];
    }
  }

  /** A parse that succeeds depends only on the bytes it consumed. */
  lemma {:induction false} ParseValueStable(s: string, t: string, pos: nat, n: nat)
    requires pos <= |s| && ParseValue(s, pos).Some? && ParseValue(s, pos).value.pos <= n
    requires SamePrefix(s, t, n)
    ensures ParseValue(t, pos) == ParseValue(s, pos)
    decreases |s| - pos, 0
  {
    assert s[pos] == s[..n][pos] == t[pos];
    if s[pos] != '*' {
      ParseScalarStable(s, t, s[pos], pos + 1, n);
    } else {
      var count := ParseCount(s, pos + 1).value;
      ReadLineStable(s, t, pos + 1, n);
      if count.value >= 0 {
        ParseElementsStable(s, t, count.pos, count.value, n);
      }
    }
  }

  lemma {:induction false} ParseElementsStable(s: string, t: string, pos: nat, k: nat, n: nat)
    requires pos <= |s| && ParseElements(s, pos, k).Some? && ParseElements(s, pos, k).value.pos <= n
    requires SamePrefix(s, t, n)
    ensures ParseElements(t, pos, k) == ParseElements(s, pos, k)
    decreases |s| - pos, 1
  {
    if k > 0 {
      FirstOfElements(s, pos, k);
      ParseValueStable(s, t, pos, n);
      ParseElementsStable(s, t, ParseValue(s, pos).value.pos, k - 1, n);
      SameElements(s, t, pos, k);
    }
  }

  lemma FirstOfElements(s: string, pos: nat, k: nat)
    requires pos <= |s| && k > 0 && ParseElements(s, pos, k).Some?
    ensures ParseValue(s, pos).Some? && pos < ParseValue(s, pos).value.pos <= |s|
    ensures ParseElements(s, ParseValue(s, pos).value.pos, k - 1).Some?
    ensures ParseElements(s, ParseValue(s, pos).value.pos, k - 1).value.pos == ParseElements(s, pos, k).value.pos
  {}

  lemma SameElements(s: string, t: string, pos: nat, k: nat)
    requires pos <= |s| && pos <= |t| && k > 0 && ParseValue(s, pos) == ParseValue(t, pos) && ParseValue(s, pos).Some?
    requires var next := ParseValue(s, pos).value.pos; ParseElements(s, next, k - 1) == ParseElements(t, next, k - 1)
    ensures ParseElements(s, pos, k) == ParseElements(t, pos, k)
  {}

  /** Framing, both ways: more bytes after a complete value, or none, change nothing. */
  lemma ParseIgnoresWhatFollows(s: string, rest: string)
    requires Parse(s).Some?
    ensures Parse(s + rest) == Parse(s)
    ensures Parse(s[..Parse(s).value.pos]) == Parse(s)
  {
    var n := Parse(s).value.pos;
    assert (s + rest)[..n] == s[..n];
    ParseValueStable(s, s + rest, 0, n);
    assert s[..n][..n] == s[..n];
    ParseValueStable(s, s[..n], 0, n);
  }

  // ---------------------------------------------------------------- round trip

  /** `part` stands in `s` at `pos`. */
  predicate HasAt(s: string, pos: nat, part: string) {
    pos + |part| <= |s| && s[pos..pos + |part|] == part
  }

  lemma SplitAt(s: string, pos: nat, a: string, b: string)
    ensures HasAt(s, pos, a + b) <==> HasAt(s, pos, a) && HasAt(s, pos + |a|, b)
  {
    if HasAt(s, pos, a + b) {
      assert s[pos..pos + |a|] == (a + b)[..|a|];
      assert s[pos + |a|..pos + |a| + |b|] == (a + b)[|a|..];
    }
    if HasAt(s, pos, a) && HasAt(s, pos + |a|, b) {
      assert s[pos..pos + |a + b|] == s[pos..pos + |a|] + s[pos + |a|..pos + |a| + |b|];
    }
  }

  lemma ReadLineAt(s: string, pos: nat, line: string)
    requires NoCrlf(line) && HasAt(s, pos, line + CRLF)
    ensures ReadLine(s, pos) == Some(At(line, pos + |line| + 2))
  {
    var end := pos + |line|;
    SplitAt(s, pos, line, CRLF);
    assert s[end] == s[end..end + 2][0] && s[end + 1] == s[end..end + 2][1];
    assert CrlfAt(s, end);
    forall i | pos <= i < end ensures !CrlfAt(s, i) {
      assert s[i] == s[pos..end][i - pos];
      assert i + 1 < end ==> s[i + 1] == s[pos..end][i + 1 - pos];
      assert !CrlfAt(line, i - pos);
    }
    FindCrlfIsFirst(s, pos, end);
  }

  lemma ReadNumberAt(s: string, pos: nat, n: int)
    requires -1 <= n <= INT32_MAX && HasAt(s, pos, IntText(n) + CRLF)
    ensures ParseInt(IntText(n)) == Some(n)
    ensures ReadLine(s, pos) == Some(At(IntText(n), pos + |IntText(n)| + 2))
  {
    DigitsHaveNoCrlf(n);
    ReadLineAt(s, pos, IntText(n));
    assert IntText(n) + [] == IntText(n);
    FromCharsOfIntText(n, [], -INT32_MAX - 1, INT32_MAX);
  }

  lemma DigitsHaveNoCrlf(n: int)
    ensures NoCrlf(IntText(n))
  {
    NatTextRoundTrip(if n < 0 then -n else n);
    forall i | 0 <= i < |IntText(n)| ensures !CrlfAt(IntText(n), i) {
      assert IntText(n)[i] != '\r';
    }
  }

  /** The type byte and first line of a serialised value. */
  function Header(v: RespValue): string {
    match v
    case SimpleString(str) => str
    case Integer(str) => str
    case BulkString(str) => IntText(|str|)
    case Null => IntText(-1)
    case Array(elements) => IntText(|elements|)
  }

  function TypeByte(v: RespValue): char {
    match v
    case SimpleString(_) => '+'
    case Integer(_) => ':'
    case BulkString(_) => '$'
    case Null => '$'
    case Array(_) => '*'
  }

  function Body(v: RespValue): string {
    match v
    case BulkString(str) => str + CRLF
    case Array(elements) => SerializeAll(elements)
    case _ => ""
  }

  /** Every serialised value is a type byte, a line, and a body. */
  lemma SerializeLayout(v: RespValue)
    ensures Serialize(v) == [TypeByte(v)] + ((Header(v) + CRLF) + Body(v))
  {
    if v.Null? {
      assert IntText(-1) == "-1";
    }
  }

  lemma LayoutAt(s: string, pos: nat, v: RespValue)
    requires HasAt(s, pos, Serialize(v))
    ensures pos < |s| && s[pos] == TypeByte(v)
    ensures HasAt(s, pos + 1, Header(v) + CRLF)
    ensures HasAt(s, pos + 1 + |Header(v)| + 2, Body(v))
    ensures |Serialize(v)| == 1 + |Header(v)| + 2 + |Body(v)|
  {
    SerializeLayout(v);
    SplitAt(s, pos, [TypeByte(v)], (Header(v) + CRLF) + Body(v));
    assert s[pos] == s[pos..pos + 1][0];
    SplitAt(s, pos + 1, Header(v) + CRLF, Body(v));
  }

  lemma BulkRoundTrip(s: string, pos: nat, str: string)
    requires |str| <= INT32_MAX
    requires HasAt(s, pos, IntText(|str|) + CRLF) && HasAt(s, pos + |IntText(|str|)| + 2, str + CRLF)
    ensures ParseBulk(s, pos) == Some(At(BulkString(str), pos + |IntText(|str|)| + 2 + |str| + 2))
  {
    ReadNumberAt(s, pos, |str|);
    SplitAt(s, pos + |IntText(|str|)| + 2, str, CRLF);
  }

  lemma ScalarBodyRoundTrip(s: string, pos: nat, v: RespValue)
    requires WellFormed(v) && !v.Array?
    requires HasAt(s, pos, Header(v) + CRLF) && HasAt(s, pos + |Header(v)| + 2, Body(v))
    ensures ParseScalar(s, TypeByte(v), pos) == Some(At(v, pos + |Header(v)| + 2 + |Body(v)|))
  {
    match v
    case SimpleString(str) => ReadLineAt(s, pos, str);
    case Integer(str) => ReadLineAt(s, pos, str);
    case Null => ReadNumberAt(s, pos, -1);
    case BulkString(str) => BulkRoundTrip(s, pos, str);
  }

  lemma ScalarRoundTrip(s: string, pos: nat, v: RespValue)
    requires WellFormed(v) && !v.Array? && HasAt(s, pos, Serialize(v))
    ensures ParseValue(s, pos) == Some(At(v, pos + |Serialize(v)|))
  {
    LayoutAt(s, pos, v);
    ScalarBodyRoundTrip(s, pos + 1, v);
  }

  function BodyStart(pos: nat, v: RespValue): nat {
    pos + |Header(v)| + 3
  }

  /** A serialised array parses once its elements do. */
  lemma ArrayRoundTrip(s: string, pos: nat, v: RespValue)
    requires WellFormed(v) && v.Array? && HasAt(s, pos, Serialize(v))
    ensures HasAt(s, BodyStart(pos, v), SerializeAll(v.elements))
    ensures ParseElements(s, BodyStart(pos, v), |v.elements|) ==
            Some(At(v.elements, BodyStart(pos, v) + |SerializeAll(v.elements)|)) ==>
            ParseValue(s, pos) == Some(At(v, pos + |Serialize(v)|))
  {
    LayoutAt(s, pos, v);
    ReadNumberAt(s, pos + 1, |v.elements|);
    assert ParseCount(s, pos + 1) == Some(At(|v.elements|, BodyStart(pos, v)));
  }

  /** The serialised values stand one after the other from `pos` to `end`. */
  predicate Laid(s: string, pos: nat, vs: seq<RespValue>, end: nat)
    decreases |vs|
  {
    if vs == [] then pos == end
    else HasAt(s, pos, Serialize(vs[0])) && Laid(s, pos + |Serialize(vs[0])|, vs[1..], end)
  }

  lemma {:induction false} SerializedIsLaid(s: string, pos: nat, vs: seq<RespValue>)
    requires HasAt(s, pos, SerializeAll(vs))
    ensures Laid(s, pos, vs, pos + |SerializeAll(vs)|)
    decreases |vs|
  {
    if vs != [] {
      SplitAt(s, pos, Serialize(vs[0]), SerializeAll(vs[1..]));
      SerializedIsLaid(s, pos + |Serialize(vs[0])|, vs[1..]);
    }
  }

  /** Reading back a serialised value, wherever it stands, gives the value and its exact length. */
  lemma {:induction false} ValueRoundTrip(s: string, pos: nat, v: RespValue)
    requires WellFormed(v) && HasAt(s, pos, Serialize(v))
    ensures ParseValue(s, pos) == Some(At(v, pos + |Serialize(v)|))
    decreases v, 1
  {
    if v.Array? {
      ArrayRoundTrip(s, pos, v);
      var start := BodyStart(pos, v);
      SerializedIsLaid(s, start, v.elements);
      ElementsRoundTrip(s, start, v.elements, start + |SerializeAll(v.elements)|);
    } else {
      ScalarRoundTrip(s, pos, v);
    }
  }

  lemma ElementsStep(s: string, pos: nat, vs: seq<RespValue>, next: nat, end: nat)
    requires vs != [] && pos <= |s| && next <= |s|
    requires ParseValue(s, pos) == Some(At(vs[0], next))
    requires ParseElements(s, next, |vs[1..]|) == Some(At(vs[1..], end))
    ensures pos <= |s| && ParseElements(s, pos, |vs|) == Some(At(vs, end))
  {
    assert vs == [vs[0]] + vs[1..];
  }

  lemma {:induction false} ElementsRoundTrip(s: string, pos: nat, vs: seq<RespValue>, end: nat)
    requires AllWellFormed(vs) && pos <= |s| && Laid(s, pos, vs, end)
    ensures ParseElements(s, pos, |vs|) == Some(At(vs, end))
    decreases vs, 0
  {
    if vs != [] {
      ValueRoundTrip(s, pos, vs[0]);
      var next := pos + |Serialize(vs[0])|;
      ElementsRoundTrip(s, next, vs[1..], end);
      ElementsStep(s, pos, vs, next, end);
    }
  }

  lemma RoundTrip(v: RespValue, after: string)
    requires WellFormed(v)
    ensures Parse(Serialize(v) + after) == Some(At(v, |Serialize(v)|))
  {
    ValueRoundTrip(Serialize(v) + after, 0, v);
  }

  /** Whatever the parser yields can be re-serialised and read back, whatever follows it. */
  lemma ReserialisationIsLossless(x: string, after: string)
    requires Parse(x).Some?
    ensures Parse(Serialize(Parse(x).value.value) + after) ==
            Some(At(Parse(x).value.value, |Serialize(Parse(x).value.value)|))
  {
    ParseValueWellFormed(x, 0);
    RoundTrip(Parse(x).value.value, after);
  }

  /** The wire format is self-delimiting: no strict prefix of a serialised value parses. */
  lemma StrictPrefixDoesNotParse(v: RespValue, n: nat)
    requires WellFormed(v) && n < |Serialize(v)|
    ensures Parse(Serialize(v)[..n]) == None
  {
    var whole := Serialize(v);
    if Parse(whole[..n]).Some? {
      ParseIgnoresWhatFollows(whole[..n], whole[n..]);
      assert whole[..n] + whole[n..] == whole == whole + "";
      RoundTrip(v, "");
    }
  }

  lemma {:induction false} SerializeAllConcat(vs: seq<RespValue>, ws: seq<RespValue>)
    ensures SerializeAll(vs + ws) == SerializeAll(vs) + SerializeAll(ws)
  {
    if vs == [] {
      assert vs + ws == ws;
    } else {
      assert (vs + ws)[1..] == vs[1..] + ws;
      SerializeAllConcat(vs[1..], ws);
    }
  }

  lemma SerializeAllSnoc(vs: seq<RespValue>, v: RespValue)
    ensures SerializeAll(vs + [v]) == SerializeAll(vs) + Serialize(v)
  {
    SerializeAllConcat(vs, [v]);
    assert [v][1..] == [];
    assert SerializeAll([v]) == Serialize(v) + "";
  }
}
