/** What a client sees of lists and counters: the order items come out in, and the numbers it is told. */
module ListLaws {
  import opened Base
  import opened Decimal
  import opened StreamIds
  import opened StoreData
  import Ops = StoreOps

  // ---------------------------------------------------------------- lists

  /** A single pop takes the front item, if there is one. */
  lemma PopOne(data: Data, key: string)
    ensures
      var u, items := Ops.LPop(data, key, 1), ItemsAt(data, key);
      if u.result.Popped? && u.result.items != [] then
        items != [] && u.result.items == [items[0]] && ItemsAt(u.data, key) == items[1..]
      else items == []
  {}

  /** Everything single pops take from a key, one after the other, until one finds nothing. */
  function Drained(data: Data, key: string): seq<string>
    decreases |ItemsAt(data, key)|
  {
    var u := Ops.LPop(data, key, 1);
    if !u.result.Popped? || u.result.items == [] then []
    else
      PopOne(data, key);
      u.result.items + Drained(u.data, key)
  }

  /** No key but this one differs. */
  ghost predicate OnlyAt(before: Data, after: Data, key: string) {
    forall k :: k != key ==> (k in after <==> k in before) && (k in after ==> after[k] == before[k])
  }

  lemma {:induction false} DrainedIsItems(data: Data, key: string)
    ensures Drained(data, key) == ItemsAt(data, key)
    decreases |ItemsAt(data, key)|
  {
    PopOne(data, key);
    var u, items := Ops.LPop(data, key, 1), ItemsAt(data, key);
    if u.result.Popped? && u.result.items != [] {
      DrainedIsItems(u.data, key);
      assert [items[0]] + items[1..] == items;
    }
  }

  /** First in, first out: what is pushed at the back comes out after all that was there, in the order given. */
  lemma RPushComesOutLast(data: Data, key: string, values: seq<string>)
    ensures Drained(Ops.RPush(data, key, values), key) == Drained(data, key) + values
    ensures OnlyAt(data, Ops.RPush(data, key, values), key)
  {
    DrainedIsItems(data, key);
    DrainedIsItems(Ops.RPush(data, key, values), key);
  }

  lemma {:induction false} ReversedAt(values: seq<string>, i: nat)
    requires i < |values|
    ensures Ops.Reversed(values)[i] == values[|values| - 1 - i]
  {
    if i < |values| - 1 {
      ReversedAt(values[1..], i);
    }
  }

  /** Last in, first out: the values pushed at the front come out first, the last one given before the others. */
  lemma LPushComesOutFirst(data: Data, key: string, values: seq<string>)
    ensures
      var out, n := Drained(Ops.LPush(data, key, values), key), |values|;
      |out| >= n && out[n..] == Drained(data, key) && forall i :: 0 <= i < n ==> out[i] == values[n - 1 - i]
    ensures OnlyAt(data, Ops.LPush(data, key, values), key)
  {
    DrainedIsItems(data, key);
    DrainedIsItems(Ops.LPush(data, key, values), key);
    forall i | 0 <= i < |values| ensures Ops.Reversed(values)[i] == values[|values| - 1 - i] {
      ReversedAt(values, i);
    }
  }

  lemma PopMany(data: Data, key: string, count: nat)
    requires HasList(data, key)
    ensures
      var u, items, n := Ops.LPop(data, key, count), ItemsAt(data, key), Ops.Min(count, |ItemsAt(data, key)|);
      u.result == Ops.Popped(items[..n]) && ItemsAt(u.data, key) == items[n..] && (key in u.data <==> n < |items|)
  {}

  /**
   A pop with a count takes what that many single pops would, and leaves what they would leave; a list with
   nothing left is gone.
   */
  lemma LPopTakesFromTheFront(data: Data, key: string, count: nat)
    requires HasList(data, key)
    ensures
      var u, before := Ops.LPop(data, key, count), Drained(data, key);
      && u.result.Popped? && u.result.items + Drained(u.data, key) == before
      && |u.result.items| == Ops.Min(count, |before|) && (key in u.data <==> count < |before|)
  {
    var u, items := Ops.LPop(data, key, count), ItemsAt(data, key);
    PopMany(data, key, count);
    assert Drained(data, key) == items by { DrainedIsItems(data, key); }
    assert Drained(u.data, key) == ItemsAt(u.data, key) by { DrainedIsItems(u.data, key); }
    var n := Ops.Min(count, |items|);
    assert items[..n] + items[n..] == items;
  }

  /** A pop changes no other key, and none at all if its key holds no list. */
  lemma LPopLeavesTheRest(data: Data, key: string, count: nat)
    ensures
      var u := Ops.LPop(data, key, count);
      && OnlyAt(data, u.data, key) && (!HasList(data, key) ==> u.data == data)
      && (u.result.Popped? <==> HasList(data, key)) && (u.result.KeyNotFound? <==> key !in data)
  {}

  // ---------------------------------------------------------------- counters

  /** A printed number that is not the greatest can be counted up. */
  lemma CounterOfText(n: int)
    requires -INT64_MAX - 1 <= n < INT64_MAX
    ensures Ops.CounterValue(IntText(n)) == Some(n)
  {
    assert IntText(n) + "" == IntText(n);
    FromCharsOfIntText(n, "", -INT64_MAX - 1, INT64_MAX);
  }

  /** What a key holds that counts `n`. */
  function Counter(n: int): Value {
    Text(IntText(n))
  }

  lemma IncrOne(data: Data, key: string, n: int)
    requires -INT64_MAX - 1 <= n < INT64_MAX && key in data && data[key] == Counter(n)
    ensures Ops.Incr(data, key) == Ops.Update(data[key := Counter(n + 1)], Ok(n + 1))
  {
    CounterOfText(n);
  }

  /** `times` of the steps `next`, one after the other. */
  function Repeated<X>(next: X -> X, x: X, times: nat): X {
    if times == 0 then x else next(Repeated(next, x, times - 1))
  }

  ghost predicate LeadsOn<X>(next: X -> X, told: X -> Result<int>, place: int -> X, m: int) {
    next(place(m)) == place(m + 1) && told(place(m)) == Ok(m + 1)
  }

  /** Steps that lead from each place to the next, and tell its number, lead on from place to place. */
  lemma {:induction false} RepeatedPlaces<X>(
    next: X -> X, told: X -> Result<int>, place: int -> X, n: int, times: nat, end: int)
    requires n + times < end && forall m :: n <= m < end ==> LeadsOn(next, told, place, m)
    ensures Repeated(next, place(n), times) == place(n + times)
    ensures told(Repeated(next, place(n), times)) == Ok(n + times + 1)
    decreases times
  {
    assert LeadsOn(next, told, place, n + times);
    if times > 0 {
      RepeatedPlaces(next, told, place, n, times - 1, end);
      assert LeadsOn(next, told, place, n + times - 1);
    }
  }

  function Incrementing(key: string): Data -> Data {
    (data: Data) => Ops.Incr(data, key).data
  }

  /** The data with the count `n` at a key. */
  function Counting(data: Data, key: string): int -> Data {
    (n: int) => data[key := Counter(n)]
  }

  function Telling(key: string): Data -> Result<int> {
    (data: Data) => Ops.Incr(data, key).result
  }

  lemma IncrNext(data: Data, key: string, n: int)
    requires -INT64_MAX - 1 <= n < INT64_MAX
    ensures LeadsOn(Incrementing(key), Telling(key), Counting(data, key), n)
  {
    IncrOne(data[key := Counter(n)], key, n);
    assert data[key := Counter(n)][key := Counter(n + 1)] == data[key := Counter(n + 1)];
  }

  /** INCR from a stored number on: each one answers with one more than is stored, and that is then stored. */
  lemma IncrCountsUp(data: Data, key: string, n: int, times: nat)
    requires -INT64_MAX - 1 <= n && n + times < INT64_MAX
    ensures
      var counted := Repeated(Incrementing(key), Counting(data, key)(n), times);
      counted == Counting(data, key)(n + times) && Telling(key)(counted) == Ok(n + times + 1)
  {
    forall m | n <= m < INT64_MAX ensures LeadsOn(Incrementing(key), Telling(key), Counting(data, key), m) {
      IncrNext(data, key, m);
    }
    RepeatedPlaces(Incrementing(key), Telling(key), Counting(data, key), n, times, INT64_MAX);
  }

  /** An absent key counts from 0. */
  lemma IncrStartsAtZero(data: Data, key: string, zero: int)
    requires key !in data && zero == 0
    ensures Ops.Incr(data, key) == Ops.Incr(data[key := Counter(zero)], key)
  {
    IncrOne(data[key := Counter(zero)], key, zero);
  }

  /** The greatest number, and anything that is no number, is refused and stays. */
  lemma IncrRefuses(data: Data, key: string, greatest: int)
    requires greatest == INT64_MAX && key in data && (!data[key].Text? || data[key] == Counter(greatest))
    ensures Ops.Incr(data, key) == Ops.Update(data, Err(Ops.NOT_INTEGER))
  {
    assert IntText(greatest) + "" == IntText(greatest);
    FromCharsOfIntText(greatest, "", -INT64_MAX - 1, INT64_MAX);
  }
}
