/** What a client sees of streams: which IDs XADD accepts and gives, and which entries XRANGE and XREAD return. */
module StreamLaws {
  import opened Base
  import opened Decimal
  import opened StreamIds
  import opened StoreData
  import opened Streams
  import Ops = StoreOps

  // ---------------------------------------------------------------- which IDs are accepted

  /** The newest ID of a stream, or 0-0. */
  function LastBound(entries: seq<Entry>): Bound {
    if entries == [] then Bound(0, 0) else Decode(LastIdOf(entries))
  }

  lemma ClockIsIgnored(pattern: string, now: nat)
    requires pattern != "*"
    ensures ParseStreamId(pattern, now) == ParseStreamId(pattern, 0)
  {}

  lemma LastInRange(entries: seq<Entry>)
    requires Ordered(entries) && InRange(entries)
    ensures 0 <= LastBound(entries).ms <= INT64_MAX && LastBound(entries).sequence <= INT64_MAX
    ensures ParseLastId(LastIdOf(entries)) ==
            if entries == [] then Ok(NoLast) else Ok(Last(LastBound(entries).ms, LastBound(entries).sequence))
  {
    LastOfOrdered(entries);
    if entries != [] { assert GoodId(LastIdOf(entries)); }
  }

  /** XADD accepts an explicit ID, and stores it as given, if and only if it is above the newest one and above 0-0. */
  lemma ExplicitIdAcceptedIffAbove(entries: seq<Entry>, ms: nat, sequence: nat, now: nat)
    requires Ordered(entries) && InRange(entries) && ms <= INT64_MAX && sequence <= INT64_MAX
    ensures GenerateStreamId(IdText(ms, sequence), LastIdOf(entries), now) ==
            if Less(LastBound(entries), Bound(ms, sequence)) then Ok(IdText(ms, sequence))
            else if ms == 0 && sequence == 0 then Err(NOT_POSITIVE)
            else Err(NOT_GREATER)
  {
    LastInRange(entries);
    IdNotStar(ms, sequence);
    ClockIsIgnored(IdText(ms, sequence), now);
    PatternOfId(ms, sequence);
  }

  /** Some sequence number is left above the newest ID in the given millisecond. */
  predicate HasRoom(last: Bound, ms: nat) {
    last.ms < ms || (last.ms == ms && last.sequence < INT64_MAX)
  }

  /** `sequence` is the least that makes an ID of this millisecond greater than `last`. */
  ghost predicate IsLeastAbove(last: Bound, ms: nat, sequence: nat) {
    Less(last, Bound(ms, sequence)) && forall other: nat :: Less(last, Bound(ms, other)) ==> sequence <= other
  }

  /** The sequence number an automatic ID gets. */
  function Chosen(last: Bound, ms: nat): nat {
    if last.ms == ms then last.sequence + 1 else 0
  }

  lemma ChosenIsLeast(last: Bound, ms: nat)
    requires HasRoom(last, ms)
    ensures IsLeastAbove(last, ms, Chosen(last, ms))
  {}

  lemma ChosenIsResolved(lastId: LastId, last: Bound, ms: nat)
    requires lastId == Last(last.ms, last.sequence) || (lastId == NoLast && last == Bound(0, 0))
    requires 0 <= last.ms && last.sequence <= INT64_MAX
    ensures
      var sequence := ResolveSequence(IdParts(ms, 0, true), lastId);
      if HasRoom(last, ms) then sequence == Chosen(last, ms) && ValidateId(ms, sequence, lastId).None?
      else ValidateId(ms, sequence, lastId) == Some(NOT_GREATER)
  {}

  lemma AutoIdIsChosen(entries: seq<Entry>, ms: nat)
    requires Ordered(entries) && InRange(entries) && ms <= INT64_MAX
    ensures
      var last := LastBound(entries);
      GenerateStreamId(IntText(ms) + "-*", LastIdOf(entries), 0) ==
      if HasRoom(last, ms) then Ok(IdText(ms, Chosen(last, ms))) else Err(NOT_GREATER)
  {
    LastInRange(entries);
    PatternOfAuto(ms);
    ChosenIsResolved(ParseLastId(LastIdOf(entries)).value, LastBound(entries), ms);
  }

  /**
   XADD with `ms-*` gives the least sequence number above the newest ID, and is refused if and only if that
   millisecond has none left.
   */
  lemma AutoIdIsLeastAbove(entries: seq<Entry>, ms: nat, now: nat)
    requires Ordered(entries) && InRange(entries) && ms <= INT64_MAX
    ensures
      var id, last := GenerateStreamId(IntText(ms) + "-*", LastIdOf(entries), now), LastBound(entries);
      if HasRoom(last, ms)
      then exists sequence: nat :: IsLeastAbove(last, ms, sequence) && id == Ok(IdText(ms, sequence))
      else id == Err(NOT_GREATER)
  {
    AutoIdIsChosen(entries, ms);
    ClockIsIgnored(IntText(ms) + "-*", now);
    if HasRoom(LastBound(entries), ms) { ChosenIsLeast(LastBound(entries), ms); }
  }

  /** `*` stands for the clock's millisecond with an automatic sequence number. */
  lemma StarIsNow(lastId: string, now: nat)
    requires now <= INT64_MAX
    ensures GenerateStreamId("*", lastId, now) == GenerateStreamId(IntText(now) + "-*", lastId, now)
  {
    PatternOfAuto(now);
    ClockIsIgnored(IntText(now) + "-*", now);
  }

  /** An ID without a dash that is not `*` is refused. */
  lemma IdWithoutDashIsInvalid(pattern: string, lastId: string, now: nat)
    requires pattern != "*" && '-' !in pattern
    ensures GenerateStreamId(pattern, lastId, now) == Err(INVALID)
  {
    NoDash(pattern);
  }

  lemma {:induction false} NoDash(s: string)
    requires '-' !in s
    ensures FindDash(s) == None
  {
    if s != "" { NoDash(s[1..]); }
  }

  // ---------------------------------------------------------------- which entries are read

  /** The entries whose IDs satisfy `wanted`, in order. */
  function Where(entries: seq<Entry>, wanted: Bound -> bool): seq<Entry> {
    if entries == [] then []
    else (if wanted(Decode(entries[0].id)) then [entries[0]] else []) + Where(entries[1..], wanted)
  }

  predicate AllReadable(entries: seq<Entry>) {
    forall i :: 0 <= i < |entries| ==>
      ReadId(entries[i].id) == Some(Decode(entries[i].id)) && Decode(entries[i].id).sequence <= UINT64_MAX
  }

  lemma OrderedIsReadable(entries: seq<Entry>)
    requires Ordered(entries)
    ensures AllReadable(entries)
  {
    forall i | 0 <= i < |entries|
      ensures ReadId(entries[i].id) == Some(Decode(entries[i].id)) && Decode(entries[i].id).sequence <= UINT64_MAX
    {
      assert IsId(entries[i].id);
    }
  }

  ghost predicate SameBounds(wanted: Bound -> bool, low: Bound, high: Bound) {
    forall b: Bound :: b.sequence <= UINT64_MAX ==> (wanted(b) <==> !Less(b, low) && !Less(high, b))
  }

  lemma {:induction false} BetweenIsWhere(entries: seq<Entry>, wanted: Bound -> bool, low: Bound, high: Bound)
    requires AllReadable(entries) && SameBounds(wanted, low, high)
    ensures Between(ReadId, entries, low, high) == Where(entries, wanted)
  {
    if entries != [] {
      assert AllReadable(entries[1..]) by {
        assert forall i :: 0 <= i < |entries[1..]| ==> entries[1..][i] == entries[i + 1];
      }
      BetweenIsWhere(entries[1..], wanted, low, high);
      assert ReadId(entries[0].id) == Some(Decode(entries[0].id));
    }
  }

  lemma XRangeIsWhere(
    data: Data, key: string, start: string, end: string, low: Bound, high: Bound, wanted: Bound -> bool)
    requires Ordered(EntriesAt(data, key)) && SameBounds(wanted, low, high)
    requires ParseBound(start, true) == Some(low) && ParseBound(end, false) == Some(high)
    ensures Ops.XRange(data, key, start, end) == Some(Where(EntriesAt(data, key), wanted))
  {
    var entries := EntriesAt(data, key);
    OrderedIsSorted(entries);
    OrderedIsReadable(entries);
    ScanRangeIsFilter(ReadId, entries, low, high);
    BetweenIsWhere(entries, wanted, low, high);
  }

  lemma BareMilliseconds(ms: nat)
    requires ms <= INT64_MAX
    ensures ParseBound(IntText(ms), true) == Some(Bound(ms, 0))
    ensures ParseBound(IntText(ms), false) == Some(Bound(ms, UINT64_MAX))
  {
    NatTextRoundTrip(ms);
    assert '-' !in IntText(ms) by {
      assert forall i :: 0 <= i < |IntText(ms)| ==> IsDigit(IntText(ms)[i]);
    }
    NoDash(IntText(ms));
    StoullOfIntText(ms);
    assert IsDigit(IntText(ms)[0]);
  }

  function InMilliseconds(m: nat, n: nat): Bound -> bool {
    (b: Bound) => m <= b.ms <= n
  }

  /** XRANGE between two bare milliseconds returns exactly the entries of those milliseconds, both included. */
  lemma XRangeByMilliseconds(data: Data, key: string, m: nat, n: nat)
    requires Ordered(EntriesAt(data, key)) && m <= INT64_MAX && n <= INT64_MAX
    ensures Ops.XRange(data, key, IntText(m), IntText(n)) == Some(Where(EntriesAt(data, key), InMilliseconds(m, n)))
  {
    BareMilliseconds(m);
    BareMilliseconds(n);
    XRangeIsWhere(data, key, IntText(m), IntText(n), Bound(m, 0), Bound(n, UINT64_MAX), InMilliseconds(m, n));
  }

  function FromTo(low: Bound, high: Bound): Bound -> bool {
    (b: Bound) => !Less(b, low) && !Less(high, b)
  }

  /** XRANGE between two full IDs returns exactly the entries from the one to the other, both included. */
  lemma XRangeByIds(data: Data, key: string, low: Bound, high: Bound)
    requires Ordered(EntriesAt(data, key)) && 0 <= low.ms <= INT64_MAX && low.sequence <= INT64_MAX
    requires 0 <= high.ms <= INT64_MAX && high.sequence <= INT64_MAX
    ensures Ops.XRange(data, key, IdText(low.ms, low.sequence), IdText(high.ms, high.sequence)) ==
            Some(Where(EntriesAt(data, key), FromTo(low, high)))
  {
    IdRoundTrip(low.ms, low.sequence, true);
    IdRoundTrip(high.ms, high.sequence, false);
    XRangeIsWhere(
      data, key, IdText(low.ms, low.sequence), IdText(high.ms, high.sequence), low, high, FromTo(low, high));
  }

  lemma {:induction false} WhereAll(entries: seq<Entry>, wanted: Bound -> bool)
    requires forall i :: 0 <= i < |entries| ==> wanted(Decode(entries[i].id))
    ensures Where(entries, wanted) == entries
  {
    if entries != [] {
      assert forall i :: 0 <= i < |entries[1..]| ==> entries[1..][i] == entries[i + 1];
      WhereAll(entries[1..], wanted);
    }
  }

  /** XRANGE from `-` to `+` returns the whole stream. */
  lemma XRangeAll(data: Data, key: string)
    requires Ordered(EntriesAt(data, key))
    ensures Ops.XRange(data, key, "-", "+") == Some(EntriesAt(data, key))
  {
    var entries := EntriesAt(data, key);
    var wanted := FromTo(Bound(0, 0), Bound(INT64_MAX, UINT64_MAX));
    XRangeIsWhere(data, key, "-", "+", Bound(0, 0), Bound(INT64_MAX, UINT64_MAX), wanted);
    OrderedIsReadable(entries);
    forall i | 0 <= i < |entries| ensures wanted(Decode(entries[i].id)) {
      assert IsId(entries[i].id);
    }
    WhereAll(entries, wanted);
  }

  function Above(target: Bound): Bound -> bool {
    (b: Bound) => Less(target, b)
  }

  lemma {:induction false} ScanAfterIsWhere(entries: seq<Entry>, target: Bound)
    requires AllReadable(entries)
    ensures ScanAfter(ReadId, entries, target) == Some(Where(entries, Above(target)))
  {
    if entries != [] {
      assert AllReadable(entries[1..]) by {
        assert forall i :: 0 <= i < |entries[1..]| ==> entries[1..][i] == entries[i + 1];
      }
      ScanAfterIsWhere(entries[1..], target);
      assert ReadId(entries[0].id) == Some(Decode(entries[0].id));
      var rest := Where(entries[1..], Above(target));
      assert [] + rest == rest;
    }
  }

  /** The reply for one key: nothing if nothing is newer. */
  function Newer(key: string, entries: seq<Entry>): seq<(string, seq<Entry>)> {
    if entries == [] then [] else [(key, entries)]
  }

  /** The last key of an XREAD adds exactly its entries above the ID given for it, after those of the other keys. */
  lemma XReadLastKey(data: Data, keys: seq<string>, ids: seq<string>, target: Bound)
    requires |keys| == |ids| && keys != [] && Ops.XRead(data, keys[..|keys| - 1], ids[..|keys| - 1]).Some?
    requires Ordered(EntriesAt(data, keys[|keys| - 1])) && ParseBound(ids[|keys| - 1], true) == Some(target)
    ensures
      var n, last := |keys| - 1, keys[|keys| - 1];
      Ops.XRead(data, keys, ids) ==
      Some(Ops.XRead(data, keys[..n], ids[..n]).value + Newer(last, Where(EntriesAt(data, last), Above(target))))
  {
    var n := |keys| - 1;
    OrderedIsReadable(EntriesAt(data, keys[n]));
    ScanAfterIsWhere(EntriesAt(data, keys[n]), target);
    var before := Ops.XRead(data, keys[..n], ids[..n]).value;
    assert before + [] == before;
  }

  lemma XReadOneKey(data: Data, keys: seq<string>, ids: seq<string>, target: Bound)
    requires |keys| == |ids| == 1 && Ordered(EntriesAt(data, keys[0])) && ParseBound(ids[0], true) == Some(target)
    ensures Ops.XRead(data, keys, ids) == Some(Newer(keys[0], Where(EntriesAt(data, keys[0]), Above(target))))
  {
    assert keys[..0] == [] && ids[..0] == [];
    XReadLastKey(data, keys, ids, target);
    var newer := Newer(keys[0], Where(EntriesAt(data, keys[0]), Above(target)));
    assert [] + newer == newer;
  }

  /** XREAD from a bare millisecond returns exactly the entries above its sequence 0. */
  lemma XReadFromMilliseconds(data: Data, key: string, m: nat)
    requires Ordered(EntriesAt(data, key)) && m <= INT64_MAX
    ensures Ops.XRead(data, [key], [IntText(m)]) ==
            Some(Newer(key, Where(EntriesAt(data, key), Above(Bound(m, 0)))))
  {
    BareMilliseconds(m);
    XReadOneKey(data, [key], [IntText(m)], Bound(m, 0));
  }

  /** XREAD from a full ID returns exactly the entries above it. */
  lemma XReadFromId(data: Data, key: string, target: Bound)
    requires Ordered(EntriesAt(data, key)) && 0 <= target.ms <= INT64_MAX && target.sequence <= INT64_MAX
    ensures Ops.XRead(data, [key], [IdText(target.ms, target.sequence)]) ==
            Some(Newer(key, Where(EntriesAt(data, key), Above(target))))
  {
    IdRoundTrip(target.ms, target.sequence, true);
    XReadOneKey(data, [key], [IdText(target.ms, target.sequence)], target);
  }
}
