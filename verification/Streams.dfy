/** What the store holds (src/store/core/StoreValue.hpp, src/store/types/Stream.hpp), without expiry. */
module StoreData {
  datatype Entry = Entry(id: string, fields: seq<(string, string)>)

  datatype Value = Text(text: string) | List(items: seq<string>) | Stream(entries: seq<Entry>)

  type Data = map<string, Value>

  /** The entries of the stream at a key; none when the key holds no stream. */
  function EntriesAt(data: Data, key: string): seq<Entry> {
    if key in data && data[key].Stream? then data[key].entries else []
  }

  predicate HasList(data: Data, key: string) {
    key in data && data[key].List?
  }

  /** The items of the list at a key; none when the key holds no list. */
  function ItemsAt(data: Data, key: string): seq<string> {
    if HasList(data, key) then data[key].items else []
  }
}

/** Streams as sequences of entries (src/store/impl/StreamStore.cpp). */
module Streams {
  import opened Base
  import opened Decimal
  import opened StreamIds
  import opened StoreData

  /** The ID a stream's next XADD is compared with. */
  function LastIdOf(entries: seq<Entry>): string {
    if entries == [] then "" else entries[|entries| - 1].id
  }

  // ---------------------------------------------------------------- order

  /** A canonical ID above 0-0 whose numbers stay below 2^63. */
  predicate GoodId(id: string) {
    match ParseBound(id, true)
    case None => false
    case Some(b) =>
      && 0 <= b.ms <= INT64_MAX && b.sequence <= INT64_MAX
      && Less(Bound(0, 0), b)
      && id == IdText(b.ms, b.sequence)
  }

  function Decode(id: string): Bound {
    match ParseBound(id, true)
    case None => Bound(0, 0)
    case Some(b) => b
  }

  predicate Increasing(entries: seq<Entry>) {
    forall i, j :: 0 <= i < j < |entries| ==> Less(Decode(entries[i].id), Decode(entries[j].id))
  }

  /** A full ID `ms-seq` that the range reads understand as a pair above 0-0. */
  predicate IsId(id: string) {
    FindDash(id).Some? && ParseBound(id, true).Some? && Less(Bound(0, 0), Decode(id))
  }

  /** The stream invariant: the range reads understand every ID, and rank each above the one before it. */
  predicate Ordered(entries: seq<Entry>) {
    && (forall i :: 0 <= i < |entries| ==> IsId(entries[i].id))
    && Increasing(entries)
  }

  /** All numbers of the stream are below 2^63, and its IDs are in canonical form. */
  predicate InRange(entries: seq<Entry>) {
    forall i :: 0 <= i < |entries| ==> GoodId(entries[i].id)
  }

  /** Insertion reads the last ID as the range reads do, but takes its sequence as a signed number. */
  lemma LastOfOrdered(entries: seq<Entry>)
    requires Ordered(entries)
    ensures entries != [] ==> Decode(LastIdOf(entries)).sequence <= UINT64_MAX
    ensures ParseLastId(LastIdOf(entries)) ==
            if entries == [] then Ok(NoLast)
            else
              var b := Decode(LastIdOf(entries));
              Ok(Last(b.ms, AsSigned64(b.sequence)))
  {
    if entries != [] {
      var id := LastIdOf(entries);
      assert IsId(id);
      assert id != "-" && id != "+";
    }
  }

  lemma GoodIdText(ms: nat, sequence: nat)
    requires ms <= INT64_MAX && sequence <= INT64_MAX && (ms > 0 || sequence > 0)
    ensures GoodId(IdText(ms, sequence)) && Decode(IdText(ms, sequence)) == Bound(ms, sequence)
  {
    IdRoundTrip(ms, sequence, true);
  }

  lemma BadIdText(ms: int, sequence: int)
    requires -INT64_MAX - 1 <= ms <= INT64_MAX && -INT64_MAX - 1 <= sequence <= INT64_MAX
    requires ms < 0 || sequence < 0
    ensures !GoodId(IdText(ms, sequence))
  {
    if ms < 0 {
      assert IdText(ms, sequence)[0] == '-';
      forall b: Bound | 0 <= b.ms ensures IdText(b.ms, b.sequence) != IdText(ms, sequence) {
        NatTextRoundTrip(b.ms);
        assert IdText(b.ms, b.sequence)[0] == NatText(b.ms)[0];
      }
    } else {
      NegativeSequenceReads(ms, sequence);
    }
  }

  lemma AppendOrdered(entries: seq<Entry>, entry: Entry)
    requires Ordered(entries)
    ensures Ordered(entries + [entry]) <==>
            IsId(entry.id) && (entries != [] ==> Less(Decode(LastIdOf(entries)), Decode(entry.id)))
  {
    var all := entries + [entry];
    assert all[|entries|] == entry;
    if entries != [] {
      var last := |entries| - 1;
      assert all[last] == entries[last];
      if IsId(entry.id) && Less(Decode(LastIdOf(entries)), Decode(entry.id)) {
        forall i | 0 <= i < |entries| ensures Less(Decode(entries[i].id), Decode(entry.id)) {
          if i < last {
            assert Less(Decode(entries[i].id), Decode(entries[last].id));
          }
        }
        assert Increasing(all);
      }
    }
  }

  /** The numbers of an XADD pattern a caller may use: a clock or parts below 2^63. */
  predicate PatternInDomain(pattern: string, now: nat) {
    match ParseStreamId(pattern, now)
    case Err(_) => true
    case Ok(parts) => 0 <= parts.ms <= INT64_MAX && (parts.autoSequence || 0 <= parts.sequence)
  }

  /** What the range reads make of an ID that XADD writes. */
  lemma WrittenIdReads(ms: int, sequence: int)
    requires -INT64_MAX - 1 <= ms <= INT64_MAX && -INT64_MAX - 1 <= sequence <= INT64_MAX
    ensures ms < 0 ==> ParseBound(IdText(ms, sequence), true) == None
    ensures ms >= 0 ==> FindDash(IdText(ms, sequence)).Some?
    ensures ms >= 0 ==>
              ParseBound(IdText(ms, sequence), true) ==
              Some(Bound(ms, if sequence < 0 then UINT64_MAX + 1 + sequence else sequence))
  {
    var id := IdText(ms, sequence);
    if ms < 0 {
      assert id[0] == '-' && |id| > 1;
      assert FindDash(id) == Some(0);
      assert id[..0] == "";
      assert Stoull("") == None;
    } else {
      IdSplits(ms, sequence);
      if sequence < 0 {
        NegativeSequenceReads(ms, sequence);
      } else {
        IdRoundTrip(ms, sequence, true);
      }
    }
  }

  /**
   An XADD after `lastId` that keeps the stream in order: its milliseconds are below 2^63, and it does not
   follow, within one millisecond, a sequence of 2^63 or more with one below 2^63.
   */
  predicate KeepsOrder(pattern: string, lastId: string, now: nat) {
    match (ParseStreamId(pattern, now), ParseLastId(lastId))
    case (Ok(parts), Ok(last)) =>
      parts.ms >= 0 && !(last.Last? && parts.ms == last.ms && last.sequence < 0 <= ResolveSequence(parts, last))
    case _ => true
  }

  /** Signed and unsigned order of two sequences agree unless the first is negative and the second is not. */
  lemma AcceptedAfter(entries: seq<Entry>, ms: int, sequence: int)
    requires Ordered(entries) && 0 <= ms <= INT64_MAX && -INT64_MAX - 1 <= sequence <= INT64_MAX
    requires ParseLastId(LastIdOf(entries)).Ok? && ValidateId(ms, sequence, ParseLastId(LastIdOf(entries)).value).None?
    ensures
      var last := ParseLastId(LastIdOf(entries)).value;
      (entries != [] ==> Less(Decode(LastIdOf(entries)), Decode(IdText(ms, sequence)))) <==>
      !(last.Last? && ms == last.ms && last.sequence < 0 <= sequence)
  {
    LastOfOrdered(entries);
    WrittenIdReads(ms, sequence);
  }

  lemma PartsFit(pattern: string, lastId: string, now: nat)
    requires now <= INT64_MAX && ParseStreamId(pattern, now).Ok? && ParseLastId(lastId).Ok?
    ensures
      var parts, last := ParseStreamId(pattern, now).value, ParseLastId(lastId).value;
      -INT64_MAX - 1 <= parts.ms <= INT64_MAX && -INT64_MAX - 1 <= ResolveSequence(parts, last) <= INT64_MAX
  {}

  /**
   An accepted XADD leaves the stream in order if and only if `KeepsOrder` holds: insertion compares
   sequences signed and the range reads unsigned, and only there do the two disagree.
   */
  lemma XAddKeepsOrderExactly(entries: seq<Entry>, pattern: string, now: nat, fields: seq<(string, string)>)
    requires Ordered(entries) && now <= INT64_MAX
    requires GenerateStreamId(pattern, LastIdOf(entries), now).Ok?
    ensures
      var id := GenerateStreamId(pattern, LastIdOf(entries), now).value;
      Ordered(entries + [Entry(id, fields)]) <==> KeepsOrder(pattern, LastIdOf(entries), now)
  {
    PartsFit(pattern, LastIdOf(entries), now);
    var parts := ParseStreamId(pattern, now).value;
    var last := ParseLastId(LastIdOf(entries)).value;
    var sequence := ResolveSequence(parts, last);
    var entry := Entry(IdText(parts.ms, sequence), fields);
    WrittenIdReads(parts.ms, sequence);
    AppendOrdered(entries, entry);
    if parts.ms >= 0 {
      AcceptedAfter(entries, parts.ms, sequence);
    }
  }

  /** Below 2^63 order is never lost. */
  lemma InRangeKeepsOrder(entries: seq<Entry>, pattern: string, now: nat)
    requires Ordered(entries) && InRange(entries) && PatternInDomain(pattern, now)
    ensures KeepsOrder(pattern, LastIdOf(entries), now)
  {
    LastOfOrdered(entries);
    if entries != [] { assert GoodId(LastIdOf(entries)); }
  }

  /** An accepted XADD leaves all numbers of the stream below 2^63 exactly when its own are. */
  lemma XAddStaysInRange(entries: seq<Entry>, pattern: string, now: nat, fields: seq<(string, string)>)
    requires Ordered(entries) && InRange(entries) && now <= INT64_MAX
    requires GenerateStreamId(pattern, LastIdOf(entries), now).Ok?
    ensures
      var id := GenerateStreamId(pattern, LastIdOf(entries), now).value;
      InRange(entries + [Entry(id, fields)]) <==> PatternInDomain(pattern, now)
  {
    LastOfOrdered(entries);
    if entries != [] { assert GoodId(LastIdOf(entries)); }
    PartsFit(pattern, LastIdOf(entries), now);
    var parts := ParseStreamId(pattern, now).value;
    var last := ParseLastId(LastIdOf(entries)).value;
    var sequence := ResolveSequence(parts, last);
    var all := entries + [Entry(IdText(parts.ms, sequence), fields)];
    assert all[|entries|].id == IdText(parts.ms, sequence);
    if PatternInDomain(pattern, now) {
      GoodIdText(parts.ms, sequence);
    } else {
      BadIdText(parts.ms, sequence);
    }
  }

  /**
   Order really can be lost: 1-9223372036854775808 is stored with a negative sequence, so 1-5 is accepted
   after it, though the range reads rank it before.
   */
  lemma OrderCanBeLost()
    ensures
      var first := IdText(1, -INT64_MAX - 1);
      && GenerateStreamId(IdText(1, INT64_MAX + 1), "", 0) == Ok(first)
      && GenerateStreamId(IdText(1, 5), first, 0) == Ok(IdText(1, 5))
      && Less(Decode(IdText(1, 5)), Decode(first))
  {
    var big := INT64_MAX + 1;
    IdSplits(1, big);
    assert NatText(big) + "" == IntText(big);
    StoullOfNatText(big, "");
    StoullOfIntText(1);
    assert NatText(1) + "" == IntText(1);
    NatTextRoundTrip(big);
    assert ParseStreamId(IdText(1, big), 0) == Ok(IdParts(1, -INT64_MAX - 1, false)) by {
      IdNotStar(1, big);
    }
    assert ParseLastId("") == Ok(NoLast);
    PatternOfId(1, 5);
    NegativeSequenceReads(1, -INT64_MAX - 1);
    IdRoundTrip(1, 5, true);
  }

  lemma IdNotStar(ms: nat, sequence: nat)
    ensures IdText(ms, sequence) != "*" && IntText(sequence) != "*"
  {
    NatTextRoundTrip(ms);
    NatTextRoundTrip(sequence);
    assert IdText(ms, sequence)[0] == NatText(ms)[0];
    assert IsDigit(IntText(sequence)[0]);
  }

  lemma PatternOfId(ms: nat, sequence: nat)
    requires ms <= INT64_MAX && sequence <= INT64_MAX
    ensures ParseStreamId(IdText(ms, sequence), 0) == Ok(IdParts(ms, sequence, false))
  {
    IdSplits(ms, sequence);
    IdNotStar(ms, sequence);
    StoullOfIntText(ms);
    StoullOfIntText(sequence);
  }

  lemma PatternOfAuto(ms: nat)
    requires ms <= INT64_MAX
    ensures ParseStreamId(IntText(ms) + "-*", 0) == Ok(IdParts(ms, 0, true))
  {
    var pattern := IntText(ms) + "-*";
    NatTextRoundTrip(ms);
    FindDashOf(IntText(ms), "*");
    assert pattern == IntText(ms) + "-" + "*";
    assert pattern[..|IntText(ms)|] == IntText(ms) && pattern[|IntText(ms)| + 1..] == "*";
    StoullOfIntText(ms);
  }

  // ---------------------------------------------------------------- range reads

  /** How a range read understands an entry's ID. */
  type Reader = string -> Option<Bound>

  function ReadId(id: string): Option<Bound> {
    ParseBound(id, true)
  }

  /** XRANGE's loop: stops at the first entry beyond `high`. `None` is an ID that cannot be read. */
  function ScanRange(read: Reader, entries: seq<Entry>, low: Bound, high: Bound): Option<seq<Entry>> {
    if entries == [] then Some([])
    else
      match read(entries[0].id)
      case None => None
      case Some(b) =>
        if Less(high, b) then Some([])
        else
          match ScanRange(read, entries[1..], low, high)
          case None => None
          case Some(rest) => Some(if Less(b, low) then rest else [entries[0]] + rest)
  }

  /** XREAD's loop: everything strictly after `target`. */
  function ScanAfter(read: Reader, entries: seq<Entry>, target: Bound): Option<seq<Entry>> {
    if entries == [] then Some([])
    else
      match read(entries[0].id)
      case None => None
      case Some(b) =>
        match ScanAfter(read, entries[1..], target)
        case None => None
        case Some(rest) => Some(if Less(target, b) then [entries[0]] + rest else rest)
  }

  /** A scan's result once `found` has been collected and `rest` is what the remaining entries yield. */
  function Collected(found: seq<Entry>, rest: Option<seq<Entry>>): Option<seq<Entry>> {
    match rest
    case None => None
    case Some(more) => Some(found + more)
  }

  lemma CollectedUnits(found: seq<Entry>, rest: Option<seq<Entry>>)
    ensures Collected([], rest) == rest
    ensures Collected(found, Some([])) == Some(found)
  {
    assert found + [] == found;
    if rest.Some? {
      assert [] + rest.value == rest.value;
    }
  }

  lemma CollectedAssoc(found: seq<Entry>, entry: Entry, rest: Option<seq<Entry>>)
    ensures Collected(found, Collected([entry], rest)) == Collected(found + [entry], rest)
  {
    if rest.Some? {
      assert found + ([entry] + rest.value) == found + [entry] + rest.value;
    }
  }

  lemma ScanRangeStep(read: Reader, entries: seq<Entry>, i: nat, low: Bound, high: Bound)
    requires i < |entries|
    ensures ScanRange(read, entries[i..], low, high) ==
            match read(entries[i].id) {
              case None => None
              case Some(b) =>
                var rest := ScanRange(read, entries[i + 1..], low, high);
                if Less(high, b) then Some([]) else if Less(b, low) then rest else Collected([entries[i]], rest)
            }
  {
    assert entries[i..][0] == entries[i] && entries[i..][1..] == entries[i + 1..];
  }

  lemma ScanAfterStep(read: Reader, entries: seq<Entry>, i: nat, target: Bound)
    requires i < |entries|
    ensures ScanAfter(read, entries[i..], target) ==
            match read(entries[i].id) {
              case None => None
              case Some(b) =>
                var rest := ScanAfter(read, entries[i + 1..], target);
                if Less(target, b) then Collected([entries[i]], rest) else rest
            }
  {
    assert entries[i..][0] == entries[i] && entries[i..][1..] == entries[i + 1..];
  }

  predicate Sorted(read: Reader, entries: seq<Entry>) {
    && (forall i :: 0 <= i < |entries| ==> read(entries[i].id).Some?)
    && (forall i, j :: 0 <= i < j < |entries| ==> Less(read(entries[i].id).value, read(entries[j].id).value))
  }

  lemma OrderedIsSorted(entries: seq<Entry>)
    requires Ordered(entries)
    ensures Sorted(ReadId, entries)
  {
    forall i | 0 <= i < |entries| ensures ReadId(entries[i].id) == Some(Decode(entries[i].id)) {
      assert IsId(entries[i].id);
    }
  }

  predicate AllAfter(read: Reader, entries: seq<Entry>, b: Bound) {
    forall i :: 0 <= i < |entries| ==> read(entries[i].id).Some? && Less(b, read(entries[i].id).value)
  }

  /** All entries with low <= id <= high. */
  function Between(read: Reader, entries: seq<Entry>, low: Bound, high: Bound): seq<Entry> {
    if entries == [] then []
    else
      match read(entries[0].id)
      case None => Between(read, entries[1..], low, high)
      case Some(b) =>
        (if Less(b, low) || Less(high, b) then [] else [entries[0]]) + Between(read, entries[1..], low, high)
  }

  lemma SortedTail(read: Reader, entries: seq<Entry>)
    requires Sorted(read, entries) && entries != []
    ensures Sorted(read, entries[1..]) && AllAfter(read, entries[1..], read(entries[0].id).value)
  {
    var tail := entries[1..];
    assert forall i :: 0 <= i < |tail| ==> tail[i] == entries[i + 1];
  }

  lemma AllAfterTail(read: Reader, entries: seq<Entry>, b: Bound)
    requires AllAfter(read, entries, b) && entries != []
    ensures AllAfter(read, entries[1..], b)
  {
    assert forall i :: 0 <= i < |entries[1..]| ==> entries[1..][i] == entries[i + 1];
  }

  lemma {:induction false} NothingBetween(read: Reader, entries: seq<Entry>, low: Bound, high: Bound)
    requires AllAfter(read, entries, high)
    ensures Between(read, entries, low, high) == []
  {
    if entries != [] {
      AllAfterTail(read, entries, high);
      NothingBetween(read, entries[1..], low, high);
    }
  }

  lemma AllAfterBeyond(read: Reader, entries: seq<Entry>, b: Bound)
    requires Sorted(read, entries) && entries != [] && Less(b, read(entries[0].id).value)
    ensures AllAfter(read, entries, b)
  {
  }

  /** On a stream in order, stopping early loses nothing: XRANGE is the filter low <= id <= high. */
  lemma {:induction false} ScanRangeIsFilter(read: Reader, entries: seq<Entry>, low: Bound, high: Bound)
    requires Sorted(read, entries)
    ensures ScanRange(read, entries, low, high) == Some(Between(read, entries, low, high))
  {
    if entries != [] {
      if Less(high, read(entries[0].id).value) {
        AllAfterBeyond(read, entries, high);
        NothingBetween(read, entries, low, high);
      } else {
        SortedTail(read, entries);
        ScanRangeIsFilter(read, entries[1..], low, high);
        var rest := Between(read, entries[1..], low, high);
        assert [] + rest == rest;
      }
    }
  }

  lemma {:induction false} ScanAfterAll(read: Reader, entries: seq<Entry>, target: Bound)
    requires AllAfter(read, entries, target)
    ensures ScanAfter(read, entries, target) == Some(entries)
  {
    if entries != [] {
      AllAfterTail(read, entries, target);
      ScanAfterAll(read, entries[1..], target);
      assert entries == [entries[0]] + entries[1..];
    }
  }

  /** Cutting a stream at any bound: what lies up to it, then what lies after it, is the whole stream. */
  lemma {:induction false} CutAt(read: Reader, entries: seq<Entry>, cut: Bound)
    requires Sorted(read, entries)
    requires forall i :: 0 <= i < |entries| ==> !Less(read(entries[i].id).value, Bound(0, 0))
    ensures ScanAfter(read, entries, cut).Some?
    ensures Between(read, entries, Bound(0, 0), cut) + ScanAfter(read, entries, cut).value == entries
  {
    if entries != [] {
      if Less(cut, read(entries[0].id).value) {
        AllAfterBeyond(read, entries, cut);
        ScanAfterAll(read, entries, cut);
        NothingBetween(read, entries, Bound(0, 0), cut);
      } else {
        SortedTail(read, entries);
        assert forall i :: 0 <= i < |entries[1..]| ==> entries[1..][i] == entries[i + 1];
        CutAt(read, entries[1..], cut);
      }
    }
  }

  /** For every full ID, XRANGE from `-` to the ID followed by XREAD from the ID is the whole stream. */
  lemma XRangeThenXReadIsEverything(entries: seq<Entry>, id: string)
    requires Ordered(entries)
    requires FindDash(id).Some? && id != "-" && ParseBound(id, true).Some?
    ensures
      var low, high := ParseBound("-", true).value, ParseBound(id, false);
      && high.Some?
      && ScanRange(ReadId, entries, low, high.value).Some?
      && ScanAfter(ReadId, entries, ParseBound(id, true).value).Some?
      && ScanRange(ReadId, entries, low, high.value).value +
         ScanAfter(ReadId, entries, ParseBound(id, true).value).value == entries
  {
    var cut := ParseBound(id, true).value;
    OrderedIsSorted(entries);
    ScanRangeIsFilter(ReadId, entries, Bound(0, 0), cut);
    forall i | 0 <= i < |entries| ensures !Less(ReadId(entries[i].id).value, Bound(0, 0)) {
      assert IsId(entries[i].id);
    }
    CutAt(ReadId, entries, cut);
  }
}
