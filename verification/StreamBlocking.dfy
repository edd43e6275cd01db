/**
 XREAD BLOCK with `$` (src/command/impl/StreamCommands.cpp): the IDs it resolves to, and what the first
 successful XADD on one of its keys wakes it with.
 */
module StreamBlocking {
  import opened Base
  import opened Decimal
  import opened StreamIds
  import opened StoreData
  import opened Streams
  import opened Commands
  import opened Registrations
  import opened Store
  import opened Blocking
  import opened BlockingManager
  import Ops = StoreOps

  // ---------------------------------------------------------------- resolving `$`

  /** `$` stands for the last ID the stream has, or 0-0; other IDs stand for themselves. */
  function Resolved(data: Data, key: string, id: string): Option<string> {
    if id != "$" then Some(id)
    else
      match Ops.XRange(data, key, "-", "+")
      case None => None
      case Some(entries) => Some(if entries == [] then "0-0" else entries[|entries| - 1].id)
  }

  /** Each key with its ID, resolved in turn; `None` is an exception on the way. */
  function CollectAll(
    f: (string, string) -> Option<string>, keys: seq<string>, ids: seq<string>): (r: Option<seq<string>>)
    requires |keys| == |ids|
    ensures r.Some? ==> |r.value| == |keys|
  {
    if keys == [] then Some([])
    else
      var n := |keys| - 1;
      match (CollectAll(f, keys[..n], ids[..n]), f(keys[n], ids[n]))
      case (Some(before), Some(id)) => Some(before + [id])
      case _ => None
  }

  function Resolver(data: Data): (string, string) -> Option<string> {
    (key: string, id: string) => Resolved(data, key, id)
  }

  function ResolvedAll(data: Data, keys: seq<string>, ids: seq<string>): (r: Option<seq<string>>)
    requires |keys| == |ids|
    ensures r.Some? ==> |r.value| == |keys|
  {
    CollectAll(Resolver(data), keys, ids)
  }

  lemma {:induction false} CollectingFails(
    f: (string, string) -> Option<string>, keys: seq<string>, ids: seq<string>, n: nat)
    requires n <= |keys| == |ids| && CollectAll(f, keys[..n], ids[..n]).None?
    ensures CollectAll(f, keys, ids).None?
    decreases |keys|
  {
    if n < |keys| {
      var m := |keys| - 1;
      assert keys[..m][..n] == keys[..n] && ids[..m][..n] == ids[..n];
      CollectingFails(f, keys[..m], ids[..m], n);
    } else {
      assert keys[..n] == keys && ids[..n] == ids;
    }
  }

  lemma {:induction false} CollectingSucceeds(
    f: (string, string) -> Option<string>, keys: seq<string>, ids: seq<string>)
    requires |keys| == |ids| && forall i :: 0 <= i < |keys| ==> f(keys[i], ids[i]).Some?
    ensures CollectAll(f, keys, ids).Some?
    ensures forall i :: 0 <= i < |keys| ==> CollectAll(f, keys, ids).value[i] == f(keys[i], ids[i]).value
    decreases |keys|
  {
    if keys != [] {
      CollectingSucceeds(f, keys[..|keys| - 1], ids[..|keys| - 1]);
    }
  }

  method ResolveStreamIds(store: Store, keys: seq<string>, ids: seq<string>) returns (resolved: Option<seq<string>>)
    requires |keys| == |ids|
    ensures resolved == ResolvedAll(store.data, keys, ids)
  {
    var found: seq<string> := [];
    for i := 0 to |keys|
      invariant CollectAll(Resolver(store.data), keys[..i], ids[..i]) == Some(found)
    {
      CollectStep(Resolver(store.data), keys, ids, i, found);
      var id := ids[i];
      if ids[i] == "$" {
        var entries := store.XRange(keys[i], "-", "+");
        if entries.None? {
          CollectingFails(Resolver(store.data), keys, ids, i + 1);
          return None;
        }
        id := if entries.value == [] then "0-0" else entries.value[|entries.value| - 1].id;
      }
      found := found + [id];
    }
    assert keys[..|keys|] == keys && ids[..|ids|] == ids;
    return Some(found);
  }

  lemma CollectStep(
    f: (string, string) -> Option<string>, keys: seq<string>, ids: seq<string>, i: nat, found: seq<string>)
    requires i < |keys| == |ids| && CollectAll(f, keys[..i], ids[..i]) == Some(found)
    ensures CollectAll(f, keys[..i + 1], ids[..i + 1]) ==
            match f(keys[i], ids[i]) { case None => None case Some(id) => Some(found + [id]) }
  {
    assert keys[..i + 1][..i] == keys[..i] && ids[..i + 1][..i] == ids[..i];
  }

  /** The ID of the newest entry, or 0-0. */
  function Newest(entries: seq<Entry>): string {
    if entries == [] then "0-0" else LastIdOf(entries)
  }

  lemma {:induction false} BetweenAll(read: Reader, entries: seq<Entry>, low: Bound, high: Bound)
    requires forall i :: 0 <= i < |entries| ==>
               && read(entries[i].id).Some? && !Less(read(entries[i].id).value, low)
               && !Less(high, read(entries[i].id).value)
    ensures Between(read, entries, low, high) == entries
  {
    if entries != [] {
      assert forall i :: 0 <= i < |entries[1..]| ==> entries[1..][i] == entries[i + 1];
      BetweenAll(read, entries[1..], low, high);
      assert entries == [entries[0]] + entries[1..];
    }
  }

  /** On a stream in order, `$` resolves to its newest ID. */
  lemma DollarIsNewest(data: Data, key: string)
    requires Ordered(EntriesAt(data, key))
    ensures Resolved(data, key, "$") == Some(Newest(EntriesAt(data, key)))
  {
    var entries := EntriesAt(data, key);
    if key in data && data[key].Stream? {
      var high := Bound(INT64_MAX, UINT64_MAX);
      OrderedIsSorted(entries);
      ScanRangeIsFilter(ReadId, entries, Bound(0, 0), high);
      forall i | 0 <= i < |entries|
        ensures !Less(ReadId(entries[i].id).value, Bound(0, 0)) && !Less(high, ReadId(entries[i].id).value)
      {
        assert IsId(entries[i].id);
      }
      BetweenAll(ReadId, entries, Bound(0, 0), high);
    }
  }

  // ---------------------------------------------------------------- reading after the newest entry

  lemma {:induction false} ScanAfterSkips(read: Reader, before: seq<Entry>, after: seq<Entry>, target: Bound)
    requires forall i :: 0 <= i < |before| ==> read(before[i].id).Some? && !Less(target, read(before[i].id).value)
    requires AllAfter(read, after, target)
    ensures ScanAfter(read, before + after, target) == Some(after)
  {
    if before == [] {
      assert before + after == after;
      ScanAfterAll(read, after, target);
    } else {
      assert forall i :: 0 <= i < |before[1..]| ==> before[1..][i] == before[i + 1];
      assert (before + after)[1..] == before[1..] + after;
      ScanAfterSkips(read, before[1..], after, target);
    }
  }

  lemma ZeroReads()
    ensures ReadId("0-0") == Some(Bound(0, 0))
  {
    IdRoundTrip(0, 0, true);
    assert IdText(0, 0) == "0-0";
  }

  lemma LastIsGreatest(read: Reader, entries: seq<Entry>)
    requires Streams.Sorted(read, entries) && entries != []
    ensures read(LastIdOf(entries)).Some?
    ensures forall i :: 0 <= i < |entries| ==> !Less(read(LastIdOf(entries)).value, read(entries[i].id).value)
  {}

  lemma NewestReads(entries: seq<Entry>)
    requires Ordered(entries)
    ensures Streams.Sorted(ReadId, entries) && ReadId(Newest(entries)).Some?
    ensures forall i :: 0 <= i < |entries| ==> !Less(ReadId(Newest(entries)).value, ReadId(entries[i].id).value)
  {
    OrderedIsSorted(entries);
    if entries == [] {
      ZeroReads();
    } else {
      LastIsGreatest(ReadId, entries);
    }
  }

  /** Reading after the newest entry finds nothing, and after one more XADD exactly the new entry. */
  lemma ReadAfterNewest(entries: seq<Entry>, entry: Entry)
    requires Ordered(entries) && Ordered(entries + [entry])
    ensures ReadId(Newest(entries)).Some?
    ensures ScanAfter(ReadId, entries, ReadId(Newest(entries)).value) == Some([])
    ensures ScanAfter(ReadId, entries + [entry], ReadId(Newest(entries)).value) == Some([entry])
  {
    NewestReads(entries);
    var target, all := ReadId(Newest(entries)).value, entries + [entry];
    ScanAfterSkips(ReadId, entries, [], target);
    assert entries + [] == entries;
    assert IsId(all[|entries|].id);
    if entries == [] {
      ZeroReads();
    } else {
      OrderedIsSorted(all);
      assert all[|entries| - 1] == entries[|entries| - 1] && all[|entries|] == entry;
    }
    ScanAfterSkips(ReadId, entries, [entry], target);
  }

  lemma {:induction false} ScanAfterFails(read: Reader, before: seq<Entry>, entry: Entry, target: Bound)
    requires read(entry.id).None?
    ensures ScanAfter(read, before + [entry], target) == None
  {
    if before != [] {
      assert (before + [entry])[1..] == before[1..] + [entry];
      ScanAfterFails(read, before[1..], entry, target);
    }
  }

  /** An entry that is out of order is not found: it cannot be read, or ranks no higher than the newest before it. */
  lemma ReadMissesOutOfOrder(entries: seq<Entry>, entry: Entry)
    requires Ordered(entries) && !Ordered(entries + [entry])
    requires ReadId(entry.id).Some? ==> FindDash(entry.id).Some?
    ensures ReadId(Newest(entries)).Some?
    ensures ScanAfter(ReadId, entries + [entry], ReadId(Newest(entries)).value) ==
            if ReadId(entry.id).None? then None else Some([])
  {
    NewestReads(entries);
    AppendOrdered(entries, entry);
    var target := ReadId(Newest(entries)).value;
    if ReadId(entry.id).None? {
      ScanAfterFails(ReadId, entries, entry, target);
    } else {
      if entries == [] {
        ZeroReads();
      } else {
        assert IsId(LastIdOf(entries));
      }
      assert entries + [entry] + [] == entries + [entry];
      ScanAfterSkips(ReadId, entries + [entry], [], target);
    }
  }

  /** A written ID that the range reads understand has a dash. */
  lemma WrittenIdHasDash(pattern: string, lastId: string, now: nat)
    requires now <= INT64_MAX && GenerateStreamId(pattern, lastId, now).Ok?
    ensures var id := GenerateStreamId(pattern, lastId, now).value; ReadId(id).Some? ==> FindDash(id).Some?
  {
    PartsFit(pattern, lastId, now);
    var parts, last := ParseStreamId(pattern, now).value, ParseLastId(lastId).value;
    WrittenIdReads(parts.ms, ResolveSequence(parts, last));
  }

  /** That does happen: with 1-9223372036854775808 the newest, 1-5 is accepted and a reader from `$` finds nothing. */
  lemma NewestCanBeMissed(fields: seq<(string, string)>)
    ensures
      var first, second := IdText(1, -INT64_MAX - 1), IdText(1, 5);
      var entries := [Entry(first, fields)];
      && GenerateStreamId(IdText(1, INT64_MAX + 1), "", 0) == Ok(first)
      && GenerateStreamId(second, first, 0) == Ok(second)
      && ReadId(Newest(entries)).Some?
      && ScanAfter(ReadId, entries + [Entry(second, fields)], ReadId(Newest(entries)).value) == Some([])
  {
    OrderCanBeLost();
    WrittenIdReads(1, -INT64_MAX - 1);
    WrittenIdReads(1, 5);
    var first, second := IdText(1, -INT64_MAX - 1), IdText(1, 5);
    var all := [Entry(first, fields), Entry(second, fields)];
    assert [Entry(first, fields)] + [Entry(second, fields)] == all + [];
    ScanAfterSkips(ReadId, all, [], ReadId(first).value);
  }

  // ---------------------------------------------------------------- the wakeup

  /** `now` is `was` with one more entry at `key`, as far as the streams at `keys` go. */
  ghost predicate OneMore(was: Data, now: Data, keys: seq<string>, key: string, entry: Entry) {
    forall k :: k in keys ==>
      && Ordered(EntriesAt(was, k)) && Ordered(EntriesAt(now, k))
      && EntriesAt(now, k) == EntriesAt(was, k) + (if k == key then [entry] else [])
  }

  /** Each ID is the newest of its key's stream. */
  ghost predicate AreNewest(data: Data, keys: seq<string>, ids: seq<string>) {
    |keys| == |ids| && forall i :: 0 <= i < |keys| ==> ids[i] == Newest(EntriesAt(data, keys[i]))
  }

  predicate Distinct(keys: seq<string>) {
    forall i, j :: 0 <= i < j < |keys| ==> keys[i] != keys[j]
  }

  /** What XREAD finds at one key. */
  function ReadKey(data: Data, key: string, id: string): Option<seq<Entry>> {
    match ParseBound(id, true)
    case None => None
    case Some(target) => ScanAfter(ReadId, EntriesAt(data, key), target)
  }

  type KeyReader = (string, string) -> Option<seq<Entry>>

  function ReaderOf(data: Data): KeyReader {
    (key: string, id: string) => ReadKey(data, key, id)
  }

  /** XREAD's outer loop over a way of reading one key. */
  function ReadAll(read: KeyReader, keys: seq<string>, ids: seq<string>): Option<seq<(string, seq<Entry>)>>
    requires |keys| == |ids|
  {
    if keys == [] then Some([])
    else
      var n := |keys| - 1;
      match (ReadAll(read, keys[..n], ids[..n]), read(keys[n], ids[n]))
      case (Some(before), Some(entries)) => Some(if entries == [] then before else before + [(keys[n], entries)])
      case _ => None
  }

  lemma {:induction false} XReadIsReadAll(data: Data, keys: seq<string>, ids: seq<string>)
    requires |keys| == |ids|
    ensures Ops.XRead(data, keys, ids) == ReadAll(ReaderOf(data), keys, ids)
    decreases |keys|
  {
    if keys != [] {
      XReadIsReadAll(data, keys[..|keys| - 1], ids[..|keys| - 1]);
    }
  }

  lemma NotBefore(keys: seq<string>)
    requires Distinct(keys) && keys != []
    ensures keys[|keys| - 1] !in keys[..|keys| - 1] && Distinct(keys[..|keys| - 1])
    ensures forall key :: key in keys <==> key in keys[..|keys| - 1] || key == keys[|keys| - 1]
  {
    assert keys == keys[..|keys| - 1] + [keys[|keys| - 1]];
  }

  lemma {:induction false} ReadAllOneKey(
    read: KeyReader, keys: seq<string>, ids: seq<string>, key: string, entry: Entry)
    requires |keys| == |ids| && Distinct(keys)
    requires forall i :: 0 <= i < |keys| ==> read(keys[i], ids[i]) == Some(if keys[i] == key then [entry] else [])
    ensures ReadAll(read, keys, ids) == Some(if key in keys then [(key, [entry])] else [])
    decreases |keys|
  {
    if keys != [] {
      NotBefore(keys);
      var n := |keys| - 1;
      ReadAllOneKey(read, keys[..n], ids[..n], key, entry);
      assert read(keys[n], ids[n]) == Some(if keys[n] == key then [entry] else []);
      assert [] + [(key, [entry])] == [(key, [entry])];
    }
  }

  lemma {:induction false} ReadAllNothing(read: KeyReader, keys: seq<string>, ids: seq<string>)
    requires |keys| == |ids| && forall i :: 0 <= i < |keys| ==> read(keys[i], ids[i]) == Some([])
    ensures ReadAll(read, keys, ids) == Some([])
    decreases |keys|
  {
    if keys != [] {
      ReadAllNothing(read, keys[..|keys| - 1], ids[..|keys| - 1]);
    }
  }

  lemma {:induction false} ReadAllMisses(read: KeyReader, keys: seq<string>, ids: seq<string>)
    requires |keys| == |ids|
    requires forall i :: 0 <= i < |keys| ==> read(keys[i], ids[i]) == Some([]) || read(keys[i], ids[i]).None?
    ensures ReadAll(read, keys, ids) == Some([]) || ReadAll(read, keys, ids).None?
    decreases |keys|
  {
    if keys != [] {
      ReadAllMisses(read, keys[..|keys| - 1], ids[..|keys| - 1]);
    }
  }

  lemma ReadOne(was: Data, now: Data, key: string, entry: Entry, k: string)
    requires Ordered(EntriesAt(was, k)) && Ordered(EntriesAt(now, k))
    requires EntriesAt(now, k) == EntriesAt(was, k) + (if k == key then [entry] else [])
    ensures ReadKey(now, k, Newest(EntriesAt(was, k))) == Some(if k == key then [entry] else [])
  {
    var entries := EntriesAt(was, k);
    if k == key {
      ReadAfterNewest(entries, entry);
    } else {
      assert entries + [] == entries;
      ReadNothing(was, k);
    }
  }

  /** XREAD from the newest IDs finds exactly the new entry. */
  lemma XReadFindsTheNewEntry(was: Data, now: Data, keys: seq<string>, ids: seq<string>, key: string, entry: Entry)
    requires OneMore(was, now, keys, key, entry) && AreNewest(was, keys, ids) && Distinct(keys)
    ensures Ops.XRead(now, keys, ids) == Some(if key in keys then [(key, [entry])] else [])
  {
    forall i | 0 <= i < |keys| ensures ReadKey(now, keys[i], ids[i]) == Some(if keys[i] == key then [entry] else []) {
      ReadOne(was, now, key, entry, keys[i]);
    }
    XReadIsReadAll(now, keys, ids);
    ReadAllOneKey(ReaderOf(now), keys, ids, key, entry);
  }

  lemma DollarsAreNewest(data: Data, keys: seq<string>, ids: seq<string>)
    requires |ids| == |keys| && forall i :: 0 <= i < |keys| ==> ids[i] == "$" && Ordered(EntriesAt(data, keys[i]))
    ensures ResolvedAll(data, keys, ids).Some? && AreNewest(data, keys, ResolvedAll(data, keys, ids).value)
  {
    forall i | 0 <= i < |keys| ensures Resolver(data)(keys[i], ids[i]) == Some(Newest(EntriesAt(data, keys[i]))) {
      DollarIsNewest(data, keys[i]);
    }
    CollectingSucceeds(Resolver(data), keys, ids);
  }

  lemma ReadNothing(data: Data, key: string)
    requires Ordered(EntriesAt(data, key))
    ensures ReadKey(data, key, Newest(EntriesAt(data, key))) == Some([])
  {
    var entries := EntriesAt(data, key);
    NewestReads(entries);
    assert entries + [] == entries;
    ScanAfterSkips(ReadId, entries, [], ReadId(Newest(entries)).value);
  }

  lemma XReadFindsNothing(data: Data, keys: seq<string>, ids: seq<string>)
    requires AreNewest(data, keys, ids) && forall key :: key in keys ==> Ordered(EntriesAt(data, key))
    ensures Ops.XRead(data, keys, ids) == Some([])
  {
    forall i | 0 <= i < |keys| ensures ReadKey(data, keys[i], ids[i]) == Some([]) {
      ReadNothing(data, keys[i]);
    }
    XReadIsReadAll(data, keys, ids);
    ReadAllNothing(ReaderOf(data), keys, ids);
  }

  lemma AddedEntry(
    data: Data, key: string, pattern: string, fields: seq<(string, string)>, now: nat, id: string, k: string)
    requires Ops.XAdd(data, key, pattern, fields, now).result == Ok(id)
    ensures EntriesAt(Run(data, XAddOp(key, pattern, fields), now).data, k) ==
            EntriesAt(data, k) + (if k == key then [Entry(id, fields)] else [])
    ensures k == key ==> GenerateStreamId(pattern, LastIdOf(EntriesAt(data, k)), now) == Ok(id)
  {}

  /** A read from the newest IDs, after an XADD that put its stream out of order, finds nothing. */
  lemma XReadMissesOutOfOrder(was: Data, after: Data, keys: seq<string>, ids: seq<string>, key: string, entry: Entry)
    requires AreNewest(was, keys, ids) && forall k :: k in keys ==> Ordered(EntriesAt(was, k))
    requires forall k :: k in keys ==> EntriesAt(after, k) == EntriesAt(was, k) + (if k == key then [entry] else [])
    requires !Ordered(EntriesAt(was, key) + [entry]) && (ReadId(entry.id).Some? ==> FindDash(entry.id).Some?)
    ensures Ops.XRead(after, keys, ids) == Some([]) || Ops.XRead(after, keys, ids).None?
  {
    forall i | 0 <= i < |keys|
      ensures ReadKey(after, keys[i], ids[i]) == Some([]) || ReadKey(after, keys[i], ids[i]).None?
    {
      var k := keys[i];
      if k == key {
        ReadMissesOutOfOrder(EntriesAt(was, k), entry);
      } else {
        assert EntriesAt(was, k) + [] == EntriesAt(was, k);
        ReadNothing(was, k);
      }
    }
    XReadIsReadAll(after, keys, ids);
    ReadAllMisses(ReaderOf(after), keys, ids);
  }

  /**
   With the streams at distinct `keys` as they were when the newest IDs were taken, an accepted XADD on one of
   them lets a read from those IDs find exactly that key with exactly the new entry, if and only if it keeps
   the stream in order. Otherwise the read finds nothing, or fails.
   */
  lemma ReadAfterXAdd(
    was: Data, before: Data, keys: seq<string>, ids: seq<string>,
    key: string, pattern: string, fields: seq<(string, string)>, now: nat, id: string)
    requires Distinct(keys) && key in keys && AreNewest(was, keys, ids)
    requires forall k :: k in keys ==> Ordered(EntriesAt(was, k)) && EntriesAt(before, k) == EntriesAt(was, k)
    requires now <= INT64_MAX && Ops.XAdd(before, key, pattern, fields, now).result == Ok(id)
    ensures
      var found := Ops.XRead(Run(before, XAddOp(key, pattern, fields), now).data, keys, ids);
      if KeepsOrder(pattern, LastIdOf(EntriesAt(was, key)), now) then found == Some([(key, [Entry(id, fields)])])
      else found == Some([]) || found.None?
  {
    var after, entry := Run(before, XAddOp(key, pattern, fields), now).data, Entry(id, fields);
    forall k | k in keys
      ensures EntriesAt(after, k) == EntriesAt(was, k) + (if k == key then [entry] else [])
    {
      AddedEntry(before, key, pattern, fields, now, id, k);
    }
    AddedEntry(before, key, pattern, fields, now, id, key);
    XAddKeepsOrderExactly(EntriesAt(was, key), pattern, now, fields);
    if KeepsOrder(pattern, LastIdOf(EntriesAt(was, key)), now) {
      forall k | k in keys && k != key ensures EntriesAt(was, k) + [] == EntriesAt(was, k) {}
      XReadFindsTheNewEntry(was, after, keys, ids, key, entry);
    } else {
      WrittenIdHasDash(pattern, LastIdOf(EntriesAt(was, key)), now);
      XReadMissesOutOfOrder(was, after, keys, ids, key, entry);
    }
  }

  // ---------------------------------------------------------------- who is woken

  lemma PurgeOneMore<T>(w: Index<T>, waiters: seq<Registration<T>>, i: nat)
    requires i < |waiters|
    ensures Purged(Purged(w, Ids(waiters[..i])), {waiters[i].id}) == Purged(w, Ids(waiters[..i + 1]))
  {
    PurgedTwice(w, Ids(waiters[..i]), {waiters[i].id});
    assert waiters[..i + 1] == waiters[..i] + [waiters[i]];
    assert Ids(waiters[..i + 1]) == Ids(waiters[..i]) + {waiters[i].id};
  }

  /** XADD wakes everyone registered at its key, in order, and takes them out of all their queues. */
  method ServeXreadWaiters<T>(registry: BlockingRegistry<T>, key: string) returns (woken: seq<Registration<T>>)
    requires Listed(registry.State()) && NoneEmpty(registry.State())
    modifies registry
    ensures woken == At(old(registry.State()), key)
    ensures registry.State() == Purged(old(registry.State()), Ids(woken))
  {
    ghost var was := registry.State();
    woken := [];
    PurgeNone(was);
    assert Ids<T>([]) == {};
    if key !in registry.callbacks { return; }
    var waiters := registry.callbacks[key];
    for i := 0 to |waiters|
      invariant woken == waiters[..i]
      invariant registry.State() == Purged(was, Ids(waiters[..i]))
      invariant Listed(registry.State()) && NoneEmpty(registry.State())
    {
      PurgedStaysListed(registry.State(), {waiters[i].id});
      PurgeOneMore(was, waiters, i);
      registry.Unregister(waiters[i].id);
      woken := woken + [waiters[i]];
    }
    assert waiters[..|waiters|] == waiters;
  }
}
