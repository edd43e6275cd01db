/** What each store operation does to the data, as functions of the data. */
module StoreOps {
  import opened Base
  import opened Decimal
  import opened StreamIds
  import opened StoreData
  import opened Streams

  datatype Update<+T> = Update(data: Data, result: T)

  datatype Popped = KeyNotFound | WrongType | Popped(items: seq<string>)

  const WRONGTYPE: string := "-WRONGTYPE Operation against a key " + "holding the wrong kind of value"
  const NOT_INTEGER: string := "-ERR value is not an integer " + "or out of range\r\n"

  function Reversed(values: seq<string>): (r: seq<string>)
    ensures |r| == |values|
  {
    if values == [] then [] else Reversed(values[1..]) + [values[0]]
  }

  /** A text INCR accepts: a 64-bit decimal below the maximum, and nothing after it. */
  function CounterValue(text: string): Option<int> {
    match FromChars(text, -INT64_MAX - 1, INT64_MAX)
    case None => None
    case Some(scanned) => if scanned.used == |text| && scanned.value < INT64_MAX then Some(scanned.value) else None
  }

  function Incr(data: Data, key: string): Update<Result<int>> {
    if key !in data then Update(data[key := Text(IntText(1))], Ok(1))
    else if !data[key].Text? || CounterValue(data[key].text).None? then Update(data, Err(NOT_INTEGER))
    else
      var next := CounterValue(data[key].text).value + 1;
      Update(data[key := Text(IntText(next))], Ok(next))
  }

  /** Pushing to a key that holds no list starts a new list, whatever the key held. */
  function RPush(data: Data, key: string, values: seq<string>): Data {
    data[key := List(ItemsAt(data, key) + values)]
  }

  function LPush(data: Data, key: string, values: seq<string>): Data {
    data[key := List(Reversed(values) + ItemsAt(data, key))]
  }

  function Min(a: nat, b: nat): nat {
    if a < b then a else b
  }

  /** Takes up to `count` items from the front; a list that becomes empty goes away with its key. */
  function LPop(data: Data, key: string, count: nat): Update<Popped> {
    if key !in data then Update(data, KeyNotFound)
    else if !data[key].List? then Update(data, WrongType)
    else
      var items := data[key].items;
      var n := Min(count, |items|);
      Update(if n == |items| then data - {key} else data[key := List(items[n..])], Popped(items[..n]))
  }

  /** A rejected XADD leaves the entries alone but still creates the stream of an absent key. */
  function XAdd(
    data: Data, key: string, pattern: string, fields: seq<(string, string)>, now: nat): Update<Result<string>>
  {
    if key in data && !data[key].Stream? then Update(data, Err(WRONGTYPE))
    else
      var entries := EntriesAt(data, key);
      match GenerateStreamId(pattern, LastIdOf(entries), now)
      case Ok(id) => Update(data[key := Stream(entries + [Entry(id, fields)])], Ok(id))
      case Err(e) => Update(data[key := Stream(entries)], Err("-ERR " + e))
  }

  /** XRANGE; `None` is the exception of a bound that cannot be read. */
  function XRange(data: Data, key: string, start: string, end: string): Option<seq<Entry>> {
    if key !in data || !data[key].Stream? then Some([])
    else
      match (ParseBound(start, true), ParseBound(end, false))
      case (Some(low), Some(high)) => ScanRange(ReadId, data[key].entries, low, high)
      case _ => None
  }

  /** XREAD: for each key in turn, its entries after the given ID; keys without any are left out. */
  function XRead(data: Data, keys: seq<string>, ids: seq<string>): Option<seq<(string, seq<Entry>)>>
    requires |keys| == |ids|
  {
    if keys == [] then Some([])
    else
      var n := |keys| - 1;
      match XRead(data, keys[..n], ids[..n])
      case None => None
      case Some(before) =>
        match ParseBound(ids[n], true)
        case None => None
        case Some(target) =>
          match ScanAfter(ReadId, EntriesAt(data, keys[n]), target)
          case None => None
          case Some(entries) => Some(if entries == [] then before else before + [(keys[n], entries)])
  }
}

/** The store the command handlers share (src/store/core/Store.hpp and src/store/impl). */
module Store {
  import opened Base
  import opened Decimal
  import opened StreamIds
  import opened StoreData
  import opened Streams
  import Ops = StoreOps

  class Store {
    var data: Data

    constructor ()
      ensures data == map[]
    {
      data := map[];
    }

    method Set(key: string, value: string)
      modifies this
      ensures data == old(data)[key := Text(value)]
    {
      data := data[key := Text(value)];
    }

    method Incr(key: string) returns (result: Result<int>)
      modifies this
      ensures Ops.Update(data, result) == Ops.Incr(old(data), key)
    {
      if key !in data {
        data := data[key := Text(IntText(1))];
        return Ok(1);
      }
      if !data[key].Text? { return Err(Ops.NOT_INTEGER); }
      var text := data[key].text;
      var scanned := FromChars(text, -INT64_MAX - 1, INT64_MAX);
      if scanned.None? || scanned.value.used != |text| { return Err(Ops.NOT_INTEGER); }
      var value := scanned.value.value;
      if value == INT64_MAX { return Err(Ops.NOT_INTEGER); }
      value := value + 1;
      data := data[key := Text(IntText(value))];
      return Ok(value);
    }

    method RPush(key: string, values: seq<string>) returns (length: nat)
      modifies this
      ensures data == Ops.RPush(old(data), key, values)
      ensures length == |ItemsAt(data, key)|
    {
      var list := if key in data && data[key].List? then data[key].items else [];
      for i := 0 to |values|
        invariant list == ItemsAt(data, key) + values[..i]
      {
        list := list + [values[i]];
      }
      assert values[..|values|] == values;
      data := data[key := List(list)];
      return |list|;
    }

    method LPush(key: string, values: seq<string>) returns (length: nat)
      modifies this
      ensures data == Ops.LPush(old(data), key, values)
      ensures length == |ItemsAt(data, key)|
    {
      var list := Prepended(values, if key in data && data[key].List? then data[key].items else []);
      data := data[key := List(list)];
      return |list|;
    }

    method LPop(key: string, count: nat) returns (result: Ops.Popped)
      modifies this
      ensures Ops.Update(data, result) == Ops.LPop(old(data), key, count)
    {
      if key !in data { return Ops.KeyNotFound; }
      if !data[key].List? { return Ops.WrongType; }
      var items := data[key].items;
      var n := Ops.Min(count, |items|);
      result := Ops.Popped(items[..n]);
      items := items[n..];
      if items == [] {
        data := data - {key};
      } else {
        data := data[key := List(items)];
      }
    }

    method XAdd(key: string, pattern: string, fields: seq<(string, string)>, now: nat) returns (result: Result<string>)
      modifies this
      ensures Ops.Update(data, result) == Ops.XAdd(old(data), key, pattern, fields, now)
    {
      if key in data && !data[key].Stream? { return Err(Ops.WRONGTYPE); }
      var entries := if key in data then data[key].entries else [];
      data := data[key := Stream(entries)];
      var id := GenerateStreamId(pattern, LastIdOf(entries), now);
      if id.Err? { return Err("-ERR " + id.message); }
      data := data[key := Stream(entries + [Entry(id.value, fields)])];
      return id;
    }

    method XRange(key: string, start: string, end: string) returns (result: Option<seq<Entry>>)
      ensures result == Ops.XRange(data, key, start, end)
    {
      if !HoldsStream(key) { return Some([]); }
      var low, high := ParseBound(start, true), ParseBound(end, false);
      if low.None? || high.None? { return None; }
      result := CollectRange(ReadId, data[key].entries, low.value, high.value);
    }

    method XRead(keys: seq<string>, ids: seq<string>) returns (result: Option<seq<(string, seq<Entry>)>>)
      requires |keys| == |ids|
      ensures result == Ops.XRead(data, keys, ids)
    {
      var found: seq<(string, seq<Entry>)> := [];
      for i := 0 to |keys|
        invariant Ops.XRead(data, keys[..i], ids[..i]) == Some(found)
      {
        assert keys[..i + 1][..i] == keys[..i] && ids[..i + 1][..i] == ids[..i];
        var target := ParseBound(ids[i], true);
        if target.None? {
          XReadFails(data, keys, ids, i + 1);
          return None;
        }
        if HoldsStream(keys[i]) {
          var entries := CollectAfter(ReadId, data[keys[i]].entries, target.value);
          if entries.None? {
            XReadFails(data, keys, ids, i + 1);
            return None;
          }
          if entries.value != [] {
            found := found + [(keys[i], entries.value)];
          }
        }
      }
      assert keys[..|keys|] == keys && ids[..|ids|] == ids;
      return Some(found);
    }

    predicate HoldsStream(key: string)
      reads this
    {
      key in data && data[key].Stream?
    }
  }

  /** The loop of LPUSH: each value goes in front of the ones before it. */
  method Prepended(values: seq<string>, before: seq<string>) returns (list: seq<string>)
    ensures list == Ops.Reversed(values) + before
  {
    list := before;
    for i := 0 to |values|
      invariant list == Ops.Reversed(values[..i]) + before
    {
      ReversedSnoc(values[..i], values[i]);
      assert values[..i + 1] == values[..i] + [values[i]];
      assert [values[i]] + (Ops.Reversed(values[..i]) + before) == [values[i]] + Ops.Reversed(values[..i]) + before;
      list := [values[i]] + list;
    }
    assert values[..|values|] == values;
  }

  /** The loop of XRANGE, with its early exit. */
  method CollectRange(read: Reader, entries: seq<Entry>, low: Bound, high: Bound) returns (result: Option<seq<Entry>>)
    ensures result == ScanRange(read, entries, low, high)
  {
    var found: seq<Entry> := [];
    assert entries[0..] == entries;
    ghost var whole := ScanRange(read, entries, low, high);
    CollectedUnits([], whole);
    for i := 0 to |entries|
      invariant whole == Collected(found, ScanRange(read, entries[i..], low, high))
    {
      ScanRangeStep(read, entries, i, low, high);
      CollectedAssoc(found, entries[i], ScanRange(read, entries[i + 1..], low, high));
      var b := read(entries[i].id);
      if b.None? { return None; }
      if Less(high, b.value) {
        CollectedUnits(found, whole);
        return Some(found);
      }
      if !Less(b.value, low) {
        found := found + [entries[i]];
      }
    }
    CollectedUnits(found, whole);
    return Some(found);
  }

  /** The inner loop of XREAD. */
  method CollectAfter(read: Reader, entries: seq<Entry>, target: Bound) returns (result: Option<seq<Entry>>)
    ensures result == ScanAfter(read, entries, target)
  {
    var found: seq<Entry> := [];
    assert entries[0..] == entries;
    ghost var whole := ScanAfter(read, entries, target);
    CollectedUnits([], whole);
    for i := 0 to |entries|
      invariant whole == Collected(found, ScanAfter(read, entries[i..], target))
    {
      ScanAfterStep(read, entries, i, target);
      CollectedAssoc(found, entries[i], ScanAfter(read, entries[i + 1..], target));
      var b := read(entries[i].id);
      if b.None? { return None; }
      if Less(target, b.value) {
        found := found + [entries[i]];
      }
    }
    CollectedUnits(found, whole);
    return Some(found);
  }

  lemma {:induction false} XReadFails(data: Data, keys: seq<string>, ids: seq<string>, n: nat)
    requires n <= |keys| == |ids| && Ops.XRead(data, keys[..n], ids[..n]).None?
    ensures Ops.XRead(data, keys, ids).None?
    decreases |keys|
  {
    if n < |keys| {
      var m := |keys| - 1;
      assert keys[..m][..n] == keys[..n] && ids[..m][..n] == ids[..n];
      XReadFails(data, keys[..m], ids[..m], n);
    } else {
      assert keys[..n] == keys && ids[..n] == ids;
    }
  }

  lemma {:induction false} ReversedSnoc(values: seq<string>, value: string)
    ensures Ops.Reversed(values + [value]) == [value] + Ops.Reversed(values)
  {
    if values == [] {
      assert values + [value] == [value];
      assert [value][1..] == [];
    } else {
      assert (values + [value])[1..] == values[1..] + [value];
      ReversedSnoc(values[1..], value);
    }
  }
}
