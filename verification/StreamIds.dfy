/** Stream entry IDs: decimal strings `ms-seq` (src/store/types/StreamIdUtils.cpp). */
module StreamIds {
  import opened Base
  import opened Decimal

  datatype Result<+T> = Ok(value: T) | Err(message: string)

  datatype IdParts = IdParts(ms: int, sequence: int, autoSequence: bool)

  /** The decoded last ID of a stream; `NoLast` is the record whose `valid` flag is off. */
  datatype LastId = NoLast | Last(ms: int, sequence: int)

  datatype Bound = Bound(ms: int, sequence: nat)

  predicate Less(a: Bound, b: Bound) {
    a.ms < b.ms || (a.ms == b.ms && a.sequence < b.sequence)
  }

  function FindDash(s: string): (r: Option<nat>)
    ensures r.Some? ==> r.value < |s|
  {
    if s == "" then None
    else if s[0] == '-' then Some(0)
    else match FindDash(s[1..]) { case None => None case Some(i) => Some(i + 1) }
  }

  const INVALID: string := "Invalid stream ID specified"
  const NOT_POSITIVE: string := "The ID specified in XADD " + "must be greater than 0-0"
  const NOT_GREATER: string := "The ID specified in XADD " + "is equal or smaller than " + "the target stream top item"

  /** `now` is the wall clock in milliseconds. */
  function ParseStreamId(pattern: string, now: nat): Result<IdParts> {
    if pattern == "*" then Ok(IdParts(now, 0, true))
    else
      match FindDash(pattern)
      case None => Err(INVALID)
      case Some(dash) =>
        match Stoull(pattern[..dash])
        case None => Err(INVALID)
        case Some(ms) =>
          if pattern[dash + 1..] == "*" then Ok(IdParts(AsSigned64(ms), 0, true))
          else
            match Stoull(pattern[dash + 1..])
            case None => Err(INVALID)
            case Some(sequence) => Ok(IdParts(AsSigned64(ms), AsSigned64(sequence), false))
  }

  function ParseLastId(id: string): Result<LastId> {
    match FindDash(id)
    case None => Ok(NoLast)
    case Some(dash) =>
      match (Stoull(id[..dash]), Stoull(id[dash + 1..]))
      case (Some(ms), Some(sequence)) => Ok(Last(AsSigned64(ms), AsSigned64(sequence)))
      case _ => Err("stoull")
  }

  /** The increment wraps around at 2^63, as on the machines the server runs on. */
  function ResolveSequence(parts: IdParts, last: LastId): int {
    if !parts.autoSequence then parts.sequence
    else if last.Last? && parts.ms == last.ms then
      if last.sequence == INT64_MAX then -INT64_MAX - 1 else last.sequence + 1
    else if parts.ms == 0 then 1
    else 0
  }

  function ValidateId(ms: int, sequence: int, last: LastId): Option<string> {
    if ms == 0 && sequence == 0 then Some(NOT_POSITIVE)
    else if last.Last? && (ms < last.ms || (ms == last.ms && sequence <= last.sequence)) then Some(NOT_GREATER)
    else None
  }

  function IdText(ms: int, sequence: int): string {
    IntText(ms) + "-" + IntText(sequence)
  }

  function GenerateStreamId(pattern: string, lastId: string, now: nat): Result<string> {
    match ParseStreamId(pattern, now)
    case Err(e) => Err(e)
    case Ok(parts) =>
      match ParseLastId(lastId)
      case Err(e) => Err(e)
      case Ok(last) =>
        var sequence := ResolveSequence(parts, last);
        match ValidateId(parts.ms, sequence, last)
        case Some(e) => Err(e)
        case None => Ok(IdText(parts.ms, sequence))
  }

  /** A bound of XRANGE or XREAD; `None` is the exception of a number that cannot be read. */
  function ParseBound(id: string, isStart: bool): Option<Bound> {
    if id == "-" then Some(Bound(0, 0))
    else if id == "+" then Some(Bound(INT64_MAX, UINT64_MAX))
    else
      match FindDash(id)
      case None =>
        (match Stoull(id)
         case None => None
         case Some(ms) => Some(Bound(AsSigned64(ms), if isStart then 0 else UINT64_MAX)))
      case Some(dash) =>
        match (Stoull(id[..dash]), Stoull(id[dash + 1..]))
        case (Some(ms), Some(sequence)) => Some(Bound(AsSigned64(ms), sequence))
        case _ => None
  }

  // ---------------------------------------------------------------- printing and reading IDs

  lemma {:induction false} FindDashOf(digits: string, rest: string)
    requires AllDigits(digits)
    ensures FindDash(digits + "-" + rest) == Some(|digits|)
  {
    var s := digits + "-" + rest;
    if digits != "" {
      assert s[0] == digits[0] && s[1..] == digits[1..] + "-" + rest;
      FindDashOf(digits[1..], rest);
    }
  }

  lemma IdSplits(ms: nat, sequence: int)
    ensures FindDash(IdText(ms, sequence)) == Some(|IntText(ms)|)
    ensures IdText(ms, sequence)[..|IntText(ms)|] == IntText(ms)
    ensures IdText(ms, sequence)[|IntText(ms)| + 1..] == IntText(sequence)
  {
    NatTextRoundTrip(ms);
    FindDashOf(IntText(ms), IntText(sequence));
  }

  lemma StoullOfIntText(n: int)
    requires -INT64_MAX - 1 <= n <= INT64_MAX
    ensures Stoull(IntText(n)) == Some(if n < 0 then UINT64_MAX + 1 + n else n)
  {
    if n < 0 {
      var s := IntText(n);
      assert s[0] == '-' && s[1..] == NatText(-n) == NatText(-n) + "";
      assert SkipSpaces(s) == s;
      ScanDigitsOf(-n, "");
    } else {
      assert IntText(n) == NatText(n) + "";
      StoullOfNatText(n, "");
    }
  }

  /** A printed ID is read back as the pair it prints, by XADD and by the range reads. */
  lemma IdRoundTrip(ms: nat, sequence: nat, isStart: bool)
    requires ms <= INT64_MAX && sequence <= INT64_MAX
    ensures ParseLastId(IdText(ms, sequence)) == Ok(Last(ms, sequence))
    ensures ParseBound(IdText(ms, sequence), isStart) == Some(Bound(ms, sequence))
  {
    IdSplits(ms, sequence);
    StoullOfIntText(ms);
    StoullOfIntText(sequence);
    NatTextRoundTrip(ms);
    assert IdText(ms, sequence)[0] == NatText(ms)[0];
  }

  /** IDs with a sequence of 2^63 or more print as negative numbers and are read back unsigned. */
  lemma NegativeSequenceReads(ms: nat, sequence: int)
    requires ms <= INT64_MAX && -INT64_MAX - 1 <= sequence < 0
    ensures ParseBound(IdText(ms, sequence), true) == Some(Bound(ms, UINT64_MAX + 1 + sequence))
    ensures ParseLastId(IdText(ms, sequence)) == Ok(Last(ms, sequence))
  {
    IdSplits(ms, sequence);
    StoullOfIntText(ms);
    StoullOfIntText(sequence);
    NatTextRoundTrip(ms);
    assert IdText(ms, sequence)[0] == NatText(ms)[0];
  }
}
