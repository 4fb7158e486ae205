/**
 * A dispatcher: a non-empty ordered list of backends. Reads, writes,
 * increments and listing go to the first (primary) backend only; `delete`
 * and `clear` go to every backend in order.
 */
module Dispatchers {
  import opened Outcomes
  import opened DictCaches

  /** The sum of a list of counts. */
  function Sum(xs: seq<nat>): nat
  {
    if xs == [] then 0 else Sum(xs[..|xs| - 1]) + xs[|xs| - 1]
  }

  lemma PrefixSnoc<T>(xs: seq<T>, i: nat)
    requires i < |xs|
    ensures xs[..i + 1] == xs[..i] + [xs[i]]
  {
  }

  lemma SumStep(xs: seq<nat>, i: nat)
    requires i < |xs|
    ensures Sum(xs[..i + 1]) == Sum(xs[..i]) + xs[i]
  {
    assert xs[..i + 1][..i] == xs[..i];
  }

  /**
   * What each backend's `clear(pattern)` reports, given the stores before the
   * fan-out: a backend listed a second time finds nothing left to clear.
   */
  function ClearCounts(stores: seq<Store>, members: seq<DictCache>, pattern: string): (r: seq<nat>)
    requires |stores| == |members|
    ensures |r| == |members|
  {
    seq(|members|, i requires 0 <= i < |members| =>
      if members[i] in members[..i] then 0 else ClearSpec(stores[i], pattern).0)
  }

  /**
   * What each backend's `delete(keys)` reports, given the stores before the
   * fan-out: a backend listed a second time finds the keys already gone.
   */
  function DeleteCounts(stores: seq<Store>, members: seq<DictCache>, keys: seq<string>): (r: seq<nat>)
    requires |stores| == |members|
    ensures |r| == |members|
  {
    seq(|members|, i requires 0 <= i < |members| =>
      if members[i] in members[..i] then 0 else DeleteSpec(stores[i], keys).0)
  }

  /** What a backend's `clear` finds and leaves, whether or not an earlier copy of it was cleared already. */
  lemma ClearStep(stores: seq<Store>, members: seq<DictCache>, pattern: string, i: nat, before: Store)
    requires |stores| == |members| && i < |members|
    requires before == if members[i] in members[..i] then ClearSpec(stores[i], pattern).1 else stores[i]
    ensures ClearSpec(before, pattern).0 == ClearCounts(stores, members, pattern)[i]
    ensures ClearSpec(before, pattern).1 == ClearSpec(stores[i], pattern).1
  {
    if members[i] in members[..i] {
      ClearAgain(stores[i], pattern);
    }
  }

  /** What a backend's `delete` finds and leaves, whether or not an earlier copy of it was handled already. */
  lemma DeleteStep(stores: seq<Store>, members: seq<DictCache>, keys: seq<string>, i: nat, before: Store)
    requires |stores| == |members| && i < |members|
    requires before == if members[i] in members[..i] then DeleteSpec(stores[i], keys).1 else stores[i]
    ensures DeleteSpec(before, keys).0 == DeleteCounts(stores, members, keys)[i]
    ensures DeleteSpec(before, keys).1 == DeleteSpec(stores[i], keys).1
  {
    if members[i] in members[..i] {
      DeleteAgain(stores[i], keys);
    }
  }

  /** With no backend listed twice, the fan-out total is the sum of each backend's own count. */
  lemma ClearCountsDistinct(stores: seq<Store>, members: seq<DictCache>, pattern: string)
    requires |stores| == |members|
    requires forall i, j | 0 <= i < j < |members| :: members[i] != members[j]
    ensures Sum(ClearCounts(stores, members, pattern)) ==
            Sum(seq(|stores|, i requires 0 <= i < |stores| => ClearSpec(stores[i], pattern).0))
  {
    var own := seq(|stores|, i requires 0 <= i < |stores| => ClearSpec(stores[i], pattern).0);
    var counts := ClearCounts(stores, members, pattern);
    forall i | 0 <= i < |members|
      ensures counts[i] == own[i]
    {
      assert members[i] !in members[..i];
    }
    assert counts == own;
  }

  class Dispatcher {
    /** The backends in order; the list itself is fixed once built. */
    const members: seq<DictCache>

    ghost predicate Valid()
    {
      |members| >= 1
    }

    /** The backends' stores, in backend order. */
    function Stores(): (r: seq<Store>)
      reads set m | m in members
      ensures |r| == |members|
      ensures forall i | 0 <= i < |members| :: r[i] == members[i].store
    {
      seq(|members|, i reads set m | m in members requires 0 <= i < |members| => members[i].store)
    }

    constructor FromMembers(caches: seq<DictCache>)
      requires |caches| >= 1
      ensures members == caches
      ensures Valid()
    {
      members := caches;
    }

    /** Building a dispatcher over an empty list fails; any other list is kept as given. */
    static method New(caches: seq<DictCache>) returns (r: Result<Dispatcher>)
      ensures r.Failure? <==> caches == []
      ensures r.Failure? ==> r.error == EmptyDispatcher
      ensures r.Success? ==> fresh(r.value) && r.value.members == caches && r.value.Valid()
    {
      if |caches| < 1 {
        return Failure(EmptyDispatcher);
      }
      var d := new Dispatcher.FromMembers(caches);
      return Success(d);
    }

    method Get(key: string, now: int) returns (v: Option<string>)
      requires Valid()
      modifies members[0]
      ensures (v, members[0].store) == GetSpec(old(members[0].store), key, now)
      ensures forall m | m in members && m != members[0] :: m.store == old(m.store)
    {
      v := members[0].Get(key, now);
    }

    method Set(key: string, value: string, ttl: Option<int>, onlyIfNew: bool, onlyIfOld: bool, now: int)
      returns (r: Result<bool>)
      requires Valid()
      modifies members[0]
      ensures (r, members[0].store) == SetSpec(old(members[0].store), key, value, ttl, onlyIfNew, onlyIfOld, now)
      ensures forall m | m in members && m != members[0] :: m.store == old(m.store)
    {
      r := members[0].Set(key, value, ttl, onlyIfNew, onlyIfOld, now);
    }

    /**
     * Sends the same keys to every backend, in order, and returns one count
     * per backend. Every backend ends without the listed keys.
     */
    method Delete(keys: seq<string>) returns (results: seq<nat>)
      modifies set m | m in members
      ensures forall i | 0 <= i < |members| :: members[i].store == DeleteSpec(old(members[i].store), keys).1
      ensures results == DeleteCounts(old(Stores()), members, keys)
    {
      ghost var olds := old(Stores());
      ghost var counts := DeleteCounts(olds, members, keys);
      results := [];
      var i := 0;
      while i < |members|
        invariant 0 <= i <= |members|
        invariant forall j | 0 <= j < |members| ::
          members[j].store == (if members[j] in members[..i] then DeleteSpec(old(members[j].store), keys).1 else old(members[j].store))
        invariant results == counts[..i]
      {
        var m := members[i];
        PrefixSnoc(members, i);
        DeleteStep(olds, members, keys, i, m.store);
        var c := m.Delete(keys);
        PrefixSnoc(counts, i);
        results := results + [c];
        i := i + 1;
      }
      assert counts[..i] == counts;
      assert members[..i] == members;
    }

    method GetKeys(pattern: string) returns (keys: seq<string>)
      requires Valid()
      ensures Enumerates(keys, MatchingKeys(members[0].store, pattern))
    {
      keys := members[0].GetKeys(pattern);
    }

    method Increase(key: string, amount: int, now: int) returns (r: Result<string>)
      requires Valid()
      modifies members[0]
      ensures (r, members[0].store) == IncreaseSpec(old(members[0].store), key, amount, now)
      ensures forall m | m in members && m != members[0] :: m.store == old(m.store)
    {
      r := members[0].Increase(key, amount, now);
    }

    method MultiGet(keys: seq<string>, now: int) returns (values: seq<Option<string>>)
      requires Valid()
      modifies members[0]
      ensures (values, members[0].store) == MultiGetSpec(old(members[0].store), keys, now)
      ensures forall m | m in members && m != members[0] :: m.store == old(m.store)
    {
      values := members[0].MultiGet(keys, now);
    }

    /**
     * Clears every backend with the same pattern, in order, and returns the
     * sum of their counts; every backend ends as its own `clear` leaves it.
     */
    method Clear(pattern: string) returns (count: nat)
      modifies set m | m in members
      ensures forall i | 0 <= i < |members| :: members[i].store == ClearSpec(old(members[i].store), pattern).1
      ensures count == Sum(ClearCounts(old(Stores()), members, pattern))
    {
      ghost var olds := old(Stores());
      ghost var counts := ClearCounts(olds, members, pattern);
      count := 0;
      var i := 0;
      while i < |members|
        invariant 0 <= i <= |members|
        invariant forall j | 0 <= j < |members| ::
          members[j].store == (if members[j] in members[..i] then ClearSpec(old(members[j].store), pattern).1 else old(members[j].store))
        invariant count == Sum(counts[..i])
      {
        var m := members[i];
        PrefixSnoc(members, i);
        ClearStep(olds, members, pattern, i, m.store);
        var c := m.Clear(pattern);
        SumStep(counts, i);
        count := count + c;
        i := i + 1;
      }
      assert counts[..i] == counts;
      assert members[..i] == members;
    }

    /** The default `memory_size`: the dispatcher's own `multi_get`, so the primary backend only. */
    method MemorySize(keys: seq<string>, now: int) returns (size: nat)
      requires Valid()
      modifies members[0]
      ensures (size, members[0].store) == MemorySizeSpec(old(members[0].store), keys, now)
      ensures forall m | m in members && m != members[0] :: m.store == old(m.store)
    {
      var values := [];
      if keys != [] {
        values := MultiGet(keys, now);
      }
      size := CacheDefaults.CalculateSize(CacheDefaults.AsItems(keys)) + CacheDefaults.CalculateSize(values);
    }
  }
}
