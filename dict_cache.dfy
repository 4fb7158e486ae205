/**
 * The in-memory backend: a map from key to (value, stored_at, ttl). Expiry is
 * lazy: an entry is dropped only when a `get` finds it expired.
 */
module DictCaches {
  import opened Outcomes
  import Glob
  import CacheDefaults
  import Decimal

  /** A stored value, the clock reading when it was written and its time to live. */
  datatype Entry = Entry(value: string, storedAt: int, ttl: Option<int>)

  type Store = map<string, Entry>

  /** An entry with a ttl is gone once strictly more than ttl has passed since it was stored. */
  predicate Expired(e: Entry, now: int)
  {
    e.ttl.Some? && now - e.storedAt > e.ttl.value
  }

  /** What `get(key)` returns at time `now`. */
  function Lookup(s: Store, key: string, now: int): Option<string>
  {
    if key in s && !Expired(s[key], now) then Some(s[key].value) else None
  }

  /** The store after `get(key)`: an expired entry for `key` is deleted. */
  function Reap(s: Store, key: string, now: int): Store
  {
    if key in s && Expired(s[key], now) then s - {key} else s
  }

  function GetSpec(s: Store, key: string, now: int): (Option<string>, Store)
  {
    (Lookup(s, key, now), Reap(s, key, now))
  }

  /**
   * `set`: both flags at once is a ParameterError; `only_if_new` skips a live
   * key and `only_if_old` skips an absent or expired one (after the `get`
   * that decided it has reaped the key); otherwise the entry is replaced.
   */
  function SetSpec(s: Store, key: string, value: string, ttl: Option<int>,
                   onlyIfNew: bool, onlyIfOld: bool, now: int): (Result<bool>, Store)
  {
    if onlyIfNew && onlyIfOld then (Failure(ParameterError), s)
    else
      var (current, reaped) := GetSpec(s, key, now);
      if (onlyIfNew && current.Some?) || (onlyIfOld && current.None?) then (Success(false), reaped)
      else (Success(true), reaped[key := Entry(value, now, ttl)])
  }

  /** The distinct keys a list names. */
  function Listed(keys: seq<string>): set<string>
  {
    set k | k in keys
  }

  /** One step of `delete`: a key still stored is removed and counted. */
  function DeleteOne(acc: (nat, Store), key: string): (nat, Store)
  {
    if key in acc.1 then (acc.0 + 1, acc.1 - {key}) else acc
  }

  /** `delete(keys)`, key by key, from the first to the last. */
  function DeleteSpec(s: Store, keys: seq<string>): (nat, Store)
    decreases |keys|
  {
    if keys == [] then (0, s) else DeleteOne(DeleteSpec(s, keys[..|keys| - 1]), keys[|keys| - 1])
  }

  /** The stored keys `pattern` matches, expired ones included. */
  function MatchingKeys(s: Store, pattern: string): set<string>
  {
    set k | k in s && Glob.Match(pattern, k)
  }

  /** `keys` lists every element of `ks` exactly once. */
  predicate Enumerates(keys: seq<string>, ks: set<string>)
  {
    (forall k | k in keys :: k in ks) && (forall k | k in ks :: k in keys) &&
    (forall i, j | 0 <= i < j < |keys| :: keys[i] != keys[j])
  }

  /** `increase`: a `get`, the default decision, and on success a `set` with no ttl. */
  function IncreaseSpec(s: Store, key: string, amount: int, now: int): (Result<string>, Store)
  {
    var (current, reaped) := GetSpec(s, key, now);
    match CacheDefaults.IncreasedValue(current, amount)
    case Failure(e) => (Failure(e), reaped)
    case Success(t) => (Success(t), SetSpec(reaped, key, t, None, false, false, now).1)
  }

  /** `multi_get`: one `get` per key, in order. */
  function MultiGetSpec(s: Store, keys: seq<string>, now: int): (seq<Option<string>>, Store)
    decreases |keys|
  {
    if keys == [] then ([], s)
    else
      var (v, s1) := GetSpec(s, keys[0], now);
      var (vs, s2) := MultiGetSpec(s1, keys[1..], now);
      ([v] + vs, s2)
  }

  /** `clear(pattern)`: `delete(get_keys(pattern))`. */
  function ClearSpec(s: Store, pattern: string): (nat, Store)
  {
    (|MatchingKeys(s, pattern)|, s - MatchingKeys(s, pattern))
  }

  /** `memory_size(keys)`: the size of the keys plus the size of what `multi_get` returns for them. */
  function MemorySizeSpec(s: Store, keys: seq<string>, now: int): (nat, Store)
  {
    if keys == [] then (CacheDefaults.CalculateSize(CacheDefaults.AsItems(keys)), s)
    else
      var (values, s1) := MultiGetSpec(s, keys, now);
      (CacheDefaults.CalculateSize(CacheDefaults.AsItems(keys)) + CacheDefaults.CalculateSize(values), s1)
  }

  /**
   * Lazy expiry cannot be observed: once `get` has dropped an expired entry,
   * every read at that time or later sees what it would have seen anyway.
   */
  lemma ReapUnobservable(s: Store, key: string, now: int, other: string, later: int)
    requires now <= later
    ensures Lookup(Reap(s, key, now), other, later) == Lookup(s, other, later)
  {
  }

  /** `get`, `set` and `increase` of one key leave every other key's reads as they were. */
  lemma ReapElsewhere(s: Store, key: string, now: int, other: string, t: int)
    requires other != key
    ensures Lookup(Reap(s, key, now), other, t) == Lookup(s, other, t)
  {
  }

  lemma SetElsewhere(s: Store, key: string, value: string, ttl: Option<int>,
                     onlyIfNew: bool, onlyIfOld: bool, now: int, other: string, t: int)
    requires other != key
    ensures Lookup(SetSpec(s, key, value, ttl, onlyIfNew, onlyIfOld, now).1, other, t) == Lookup(s, other, t)
  {
  }

  lemma IncreaseElsewhere(s: Store, key: string, amount: int, now: int, other: string, t: int)
    requires other != key
    ensures Lookup(IncreaseSpec(s, key, amount, now).1, other, t) == Lookup(s, other, t)
  {
  }

  /** `get` of an absent key returns None and changes nothing; a live entry is returned unchanged. */
  lemma GetOutcome(s: Store, key: string, now: int)
    ensures key !in s ==> GetSpec(s, key, now) == (None, s)
    ensures key in s && Expired(s[key], now) ==> GetSpec(s, key, now) == (None, s - {key})
    ensures key in s && !Expired(s[key], now) ==> GetSpec(s, key, now) == (Some(s[key].value), s)
  {
  }

  /** Which `set` calls write: both flags fail, and each flag vetoes the write in its own case. */
  lemma SetOutcome(s: Store, key: string, value: string, ttl: Option<int>,
                   onlyIfNew: bool, onlyIfOld: bool, now: int)
    ensures var (r, _) := SetSpec(s, key, value, ttl, onlyIfNew, onlyIfOld, now);
      && (r.Failure? <==> onlyIfNew && onlyIfOld)
      && (r.Failure? ==> r.error == ParameterError)
      && (r == Success(true) <==>
            !(onlyIfNew && onlyIfOld) &&
            !(onlyIfNew && Lookup(s, key, now).Some?) &&
            !(onlyIfOld && Lookup(s, key, now).None?))
    ensures var (r, s') := SetSpec(s, key, value, ttl, onlyIfNew, onlyIfOld, now);
      r != Success(true) ==> forall k, t | now <= t :: Lookup(s', k, t) == Lookup(s, k, t)
  {
    var (r, s') := SetSpec(s, key, value, ttl, onlyIfNew, onlyIfOld, now);
    if r != Success(true) {
      forall k, t | now <= t
        ensures Lookup(s', k, t) == Lookup(s, k, t)
      {
        ReapUnobservable(s, key, now, k, t);
      }
    }
  }

  /**
   * A write that happened is read back by every later `get` until its ttl
   * runs out (a ttl of 0 is still live at the same instant, a negative one
   * never is), and no other key is touched beyond `get`'s reaping of `key`.
   */
  lemma SetThenGet(s: Store, key: string, value: string, ttl: Option<int>,
                   onlyIfNew: bool, onlyIfOld: bool, now: int, later: int)
    requires SetSpec(s, key, value, ttl, onlyIfNew, onlyIfOld, now).0 == Success(true)
    ensures var s' := SetSpec(s, key, value, ttl, onlyIfNew, onlyIfOld, now).1;
      && Lookup(s', key, later) == (if ttl.Some? && later - now > ttl.value then None else Some(value))
      && s'[key] == Entry(value, now, ttl)
      && (forall k | k != key :: (k in s' <==> k in s) && (k in s ==> s'[k] == s[k]))
  {
  }

  /** `only_if_new` on a live key leaves the store exactly as it was. */
  lemma OnlyIfNewKeepsLive(s: Store, key: string, value: string, ttl: Option<int>, now: int)
    requires Lookup(s, key, now).Some?
    ensures SetSpec(s, key, value, ttl, true, false, now) == (Success(false), s)
  {
  }

  /** `only_if_old` on an absent or expired key stores nothing: the key stays absent. */
  lemma OnlyIfOldSkipsAbsent(s: Store, key: string, value: string, ttl: Option<int>, now: int)
    requires Lookup(s, key, now).None?
    ensures SetSpec(s, key, value, ttl, false, true, now) == (Success(false), Reap(s, key, now))
    ensures key !in SetSpec(s, key, value, ttl, false, true, now).1
  {
  }

  lemma {:induction false} ListedSize(keys: seq<string>)
    ensures |Listed(keys)| <= |keys|
    decreases |keys|
  {
    if keys != [] {
      assert Listed(keys) == Listed(keys[1..]) + {keys[0]} by {
        assert keys == [keys[0]] + keys[1..];
      }
      ListedSize(keys[1..]);
    }
  }

  /**
   * `delete(keys)` removes exactly the listed keys and counts the distinct
   * listed keys that were stored (expired ones included): a duplicate is
   * counted once.
   */
  lemma {:induction false} DeleteRemovesListed(s: Store, keys: seq<string>)
    ensures DeleteSpec(s, keys) == (|s.Keys * Listed(keys)|, s - Listed(keys))
    decreases |keys|
  {
    if keys == [] {
      assert Listed(keys) == {};
      assert s.Keys * {} == {};
      assert s - {} == s;
    } else {
      var init := keys[..|keys| - 1];
      var key := keys[|keys| - 1];
      assert keys == init + [key];
      DeleteRemovesListed(s, init);
      DeleteRemovesOneMore(s, init, key);
    }
  }

  lemma DeleteRemovesOneMore(s: Store, init: seq<string>, key: string)
    requires DeleteSpec(s, init) == (|s.Keys * Listed(init)|, s - Listed(init))
    ensures DeleteSpec(s, init + [key]) == (|s.Keys * Listed(init + [key])|, s - Listed(init + [key]))
  {
    DeleteSnoc(s, init, key);
    DeleteOneMore(s, Listed(init), key);
    ListedSnoc(init, key);
  }

  lemma ListedSnoc(init: seq<string>, key: string)
    ensures Listed(init + [key]) == Listed(init) + {key}
  {
    forall k | k in init + [key]
      ensures k in init || k == key
    {
      var j :| 0 <= j < |init + [key]| && (init + [key])[j] == k;
      if j < |init| {
        assert init[j] == k;
      }
    }
  }

  /** One more key of the fold of `DeleteSpec`. */
  lemma DeleteSnoc(s: Store, init: seq<string>, key: string)
    ensures DeleteSpec(s, init + [key]) == DeleteOne(DeleteSpec(s, init), key)
  {
    var keys := init + [key];
    assert keys[..|keys| - 1] == init;
  }

  lemma DeleteOneMore(s: Store, done: set<string>, key: string)
    ensures DeleteOne((|s.Keys * done|, s - done), key) == (|s.Keys * (done + {key})|, s - (done + {key}))
  {
    CountStep(s.Keys, done, key);
    RemoveStep(s, done, key);
  }

  /**
   * `delete` counts each stored key once however often it is listed, so the
   * count is at most the number of keys listed and at most the number stored.
   */
  lemma DeleteCount(s: Store, keys: seq<string>)
    ensures DeleteSpec(s, keys).0 <= |keys|
    ensures DeleteSpec(s, keys).0 <= |s|
    ensures DeleteSpec(s, keys + keys) == DeleteSpec(s, keys)
    ensures forall k | k in keys :: k !in DeleteSpec(s, keys).1
  {
    DeleteRemovesListed(s, keys);
    CountBounds(s.Keys, keys);
    DeleteDoubled(s, keys);
  }

  lemma CountBounds(stored: set<string>, keys: seq<string>)
    ensures |stored * Listed(keys)| <= |keys| && |stored * Listed(keys)| <= |stored|
  {
    ListedSize(keys);
    SubsetSize(stored * Listed(keys), Listed(keys));
    SubsetSize(stored * Listed(keys), stored);
  }

  lemma SubsetSize(a: set<string>, b: set<string>)
    requires a <= b
    ensures |a| <= |b|
  {
    assert b == a + (b - a);
    assert a * (b - a) == {};
  }

  lemma DeleteDoubled(s: Store, keys: seq<string>)
    ensures DeleteSpec(s, keys + keys) == DeleteSpec(s, keys)
  {
    DeleteRemovesListed(s, keys);
    DeleteRemovesListed(s, keys + keys);
    assert Listed(keys + keys) == Listed(keys);
  }

  /** `multi_get` returns one result per key, each what `get` of that key alone would return. */
  lemma {:induction false} MultiGetLookups(s: Store, keys: seq<string>, now: int)
    ensures |MultiGetSpec(s, keys, now).0| == |keys|
    ensures forall i | 0 <= i < |keys| :: MultiGetSpec(s, keys, now).0[i] == Lookup(s, keys[i], now)
    decreases |keys|
  {
    if keys != [] {
      var s1 := Reap(s, keys[0], now);
      MultiGetLookups(s1, keys[1..], now);
      forall i | 1 <= i < |keys|
        ensures Lookup(s1, keys[i], now) == Lookup(s, keys[i], now)
      {
        ReapUnobservable(s, keys[0], now, keys[i], now);
      }
    }
  }

  /** The value `increase` stores for an absent key is `str(amount)`, with no ttl. */
  lemma IncreaseAbsentKey(s: Store, key: string, amount: int, now: int)
    requires Lookup(s, key, now).None?
    ensures var (r, s') := IncreaseSpec(s, key, amount, now);
      && r == Success(Decimal.IntToString(amount))
      && s' == Reap(s, key, now)[key := Entry(Decimal.IntToString(amount), now, None)]
  {
  }

  /**
   * On a stored digit string `v`, `increase` stores and returns
   * `str(int(v) + amount)` with no ttl, whatever ttl the entry had.
   */
  lemma IncreaseDigitValue(s: Store, key: string, amount: int, now: int)
    requires Lookup(s, key, now).Some? && Decimal.IsDigitString(Lookup(s, key, now).value)
    ensures var (r, s') := IncreaseSpec(s, key, amount, now);
      && r == Success(Decimal.IntToString(Decimal.ValueOf(s[key].value) + amount))
      && s' == s[key := Entry(r.value, now, None)]
  {
  }

  /** On any other live value `increase` fails and the store is left as it was. */
  lemma IncreaseNonDigit(s: Store, key: string, amount: int, now: int)
    requires Lookup(s, key, now).Some? && !Decimal.IsDigitString(Lookup(s, key, now).value)
    ensures IncreaseSpec(s, key, amount, now) == (Failure(NotAnInteger), s)
  {
  }

  /** `clear(p)` is `delete(get_keys(p))`, for any order `get_keys` lists the matches in. */
  lemma ClearIsDeleteOfMatches(s: Store, pattern: string, keys: seq<string>)
    requires Enumerates(keys, MatchingKeys(s, pattern))
    ensures ClearSpec(s, pattern) == DeleteSpec(s, keys)
  {
    DeleteRemovesListed(s, keys);
    assert Listed(keys) == MatchingKeys(s, pattern);
    assert s.Keys * Listed(keys) == MatchingKeys(s, pattern);
  }

  /**
   * After `clear(p)` no stored key matches `p`, every key that did not
   * match is still there with its entry, and the count plus the keys left
   * is the number of keys there were.
   */
  lemma ClearRemovesMatches(s: Store, pattern: string)
    ensures forall k | k in ClearSpec(s, pattern).1 :: !Glob.Match(pattern, k)
    ensures forall k | k in s && !Glob.Match(pattern, k) ::
      k in ClearSpec(s, pattern).1 && ClearSpec(s, pattern).1[k] == s[k]
    ensures ClearSpec(s, pattern).0 + |ClearSpec(s, pattern).1| == |s|
  {
    var m := MatchingKeys(s, pattern);
    var rest := s - m;
    assert rest.Keys == s.Keys - m;
    assert s.Keys == rest.Keys + m;
    assert |s.Keys| == |rest.Keys| + |m|;
  }

  /** A second `delete` of the same keys removes nothing. */
  lemma DeleteAgain(s: Store, keys: seq<string>)
    ensures DeleteSpec(DeleteSpec(s, keys).1, keys) == (0, DeleteSpec(s, keys).1)
  {
    DeleteRemovesListed(s, keys);
    DeleteNothingListed(s - Listed(keys), keys);
  }

  lemma DeleteNothingListed(d: Store, keys: seq<string>)
    requires forall k | k in keys :: k !in d
    ensures DeleteSpec(d, keys) == (0, d)
  {
    DeleteRemovesListed(d, keys);
    assert d.Keys * Listed(keys) == {};
    assert d - Listed(keys) == d;
  }

  /** A second `clear` of the same pattern removes nothing. */
  lemma ClearAgain(s: Store, pattern: string)
    ensures ClearSpec(ClearSpec(s, pattern).1, pattern) == (0, ClearSpec(s, pattern).1)
  {
    var c := ClearSpec(s, pattern).1;
    ClearRemovesMatches(s, pattern);
    assert MatchingKeys(c, pattern) == {};
    assert c - {} == c;
  }

  /** What `get` returns for each key of a list. */
  function Lookups(s: Store, keys: seq<string>, now: int): (r: seq<Option<string>>)
    ensures |r| == |keys|
  {
    seq(|keys|, i requires 0 <= i < |keys| => Lookup(s, keys[i], now))
  }

  /**
   * `memory_size(keys)` is the total length of the keys plus the total length
   * of the values they currently hold; an empty key list gives 0.
   */
  lemma MemorySizeIsSum(s: Store, keys: seq<string>, now: int)
    ensures MemorySizeSpec(s, keys, now).0 ==
            CacheDefaults.TotalLength(keys) + CacheDefaults.CalculateSize(Lookups(s, keys, now))
    ensures keys == [] ==> MemorySizeSpec(s, keys, now) == (0, s)
  {
    CacheDefaults.KeysSize(keys);
    if keys != [] {
      MultiGetLookups(s, keys, now);
      assert MultiGetSpec(s, keys, now).0 == Lookups(s, keys, now);
    }
  }

  lemma CountStep(stored: set<string>, done: set<string>, k: string)
    ensures |stored * (done + {k})| == |stored * done| + (if k in stored && k !in done then 1 else 0)
  {
    if k in stored && k !in done {
      assert stored * (done + {k}) == (stored * done) + {k};
    } else {
      assert stored * (done + {k}) == stored * done;
    }
  }

  lemma RemoveStep(s: Store, done: set<string>, k: string)
    ensures (k in s - done) <==> (k in s && k !in done)
    ensures k in s - done ==> (s - done) - {k} == s - (done + {k})
    ensures k !in s - done ==> s - done == s - (done + {k})
  {
  }

  class DictCache {
    var store: Store

    constructor ()
      ensures store == map[]
    {
      store := map[];
    }

    method Get(key: string, now: int) returns (v: Option<string>)
      modifies this
      ensures (v, store) == GetSpec(old(store), key, now)
    {
      if key !in store {
        return None;
      }
      var e := store[key];
      if e.ttl.Some? && now - e.storedAt > e.ttl.value {
        store := store - {key};
        return None;
      }
      return Some(e.value);
    }

    method Set(key: string, value: string, ttl: Option<int>, onlyIfNew: bool, onlyIfOld: bool, now: int)
      returns (r: Result<bool>)
      modifies this
      ensures (r, store) == SetSpec(old(store), key, value, ttl, onlyIfNew, onlyIfOld, now)
    {
      if onlyIfNew && onlyIfOld {
        return Failure(ParameterError);
      }
      var setFlag := true;
      var current := Get(key, now);
      var keyInCache := current.Some?;
      if onlyIfNew && keyInCache {
        setFlag := false;
      }
      if onlyIfOld && !keyInCache {
        setFlag := false;
      }
      if setFlag {
        store := store[key := Entry(value, now, ttl)];
        return Success(true);
      }
      return Success(false);
    }

    method Delete(keys: seq<string>) returns (count: nat)
      modifies this
      ensures (count, store) == DeleteSpec(old(store), keys)
    {
      count := 0;
      var i := 0;
      while i < |keys|
        invariant 0 <= i <= |keys|
        invariant (count, store) == DeleteSpec(old(store), keys[..i])
      {
        var key := keys[i];
        assert keys[..i + 1][..i] == keys[..i];
        if key in store {
          store := store - {key};
          count := count + 1;
        }
        i := i + 1;
      }
      assert keys[..i] == keys;
    }

    method GetKeys(pattern: string) returns (keys: seq<string>)
      ensures Enumerates(keys, MatchingKeys(store, pattern))
    {
      keys := [];
      var rest := store.Keys;
      while rest != {}
        invariant rest <= store.Keys
        invariant forall k :: k in keys <==> k in store && k !in rest && Glob.Match(pattern, k)
        invariant forall i, j | 0 <= i < j < |keys| :: keys[i] != keys[j]
        decreases rest
      {
        var key :| key in rest;
        if Glob.Match(pattern, key) {
          keys := keys + [key];
        }
        rest := rest - {key};
      }
    }

    method Increase(key: string, amount: int, now: int) returns (r: Result<string>)
      modifies this
      ensures (r, store) == IncreaseSpec(old(store), key, amount, now)
    {
      var value := Get(key, now);
      var increased := CacheDefaults.IncreasedValue(value, amount);
      if increased.Failure? {
        return Failure(increased.error);
      }
      var _ := Set(key, increased.value, None, false, false, now);
      return Success(increased.value);
    }

    method MultiGet(keys: seq<string>, now: int) returns (values: seq<Option<string>>)
      modifies this
      ensures (values, store) == MultiGetSpec(old(store), keys, now)
    {
      values := [];
      var i := 0;
      assert keys[0..] == keys;
      while i < |keys|
        invariant 0 <= i <= |keys|
        invariant MultiGetSpec(old(store), keys, now).0 == values + MultiGetSpec(store, keys[i..], now).0
        invariant MultiGetSpec(old(store), keys, now).1 == MultiGetSpec(store, keys[i..], now).1
      {
        ghost var before := store;
        assert keys[i..][0] == keys[i] && keys[i..][1..] == keys[i + 1..];
        var v := Get(keys[i], now);
        assert MultiGetSpec(before, keys[i..], now).0 == [v] + MultiGetSpec(store, keys[i + 1..], now).0;
        values := values + [v];
        i := i + 1;
      }
      assert keys[i..] == [];
      assert values + [] == values;
    }

    method Clear(pattern: string) returns (count: nat)
      modifies this
      ensures (count, store) == ClearSpec(old(store), pattern)
    {
      var keys := GetKeys(pattern);
      ClearIsDeleteOfMatches(store, pattern, keys);
      count := Delete(keys);
    }

    method MemorySize(keys: seq<string>, now: int) returns (size: nat)
      modifies this
      ensures (size, store) == MemorySizeSpec(old(store), keys, now)
    {
      var values := [];
      if keys != [] {
        values := MultiGet(keys, now);
      }
      size := CacheDefaults.CalculateSize(CacheDefaults.AsItems(keys)) + CacheDefaults.CalculateSize(values);
    }
  }
}
