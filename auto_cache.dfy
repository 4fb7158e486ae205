/**
 * The memoization layer. A decorated function's call is looked up under a
 * key built from the function's module, its name and the pickled
 * arguments; a hit returns the unpickled value without calling the
 * function, a miss (or a call with `update_auto_cache` set) calls it and
 * stores the pickled result together with the time the call took.
 */
module AutoCaches {
  import opened Outcomes
  import opened DictCaches
  import Backends
  import opened CacheWrappers
  import opened Pickle
  import Decimal

  /** What identifies a Python function in a key: its module's name and its own name. */
  datatype Func = Func(moduleName: string, name: string)

  /** What the underlying function did when called: returned a value, or raised DoNotCacheException with one. */
  datatype Outcome = Returned(value: Value) | DoNotCache(value: Value)

  /** Keyword arguments in the order the call gave them. */
  type Kwargs = seq<(string, Value)>

  const FlagName: string := "update_auto_cache"

  // ---------------------------------------------------------------------
  // The forcing flag

  /** A Python dict: no name appears twice. */
  predicate IsDict(kw: Kwargs)
  {
    forall i, j | 0 <= i < j < |kw| :: kw[i].0 != kw[j].0
  }

  /**
   * `kwargs.pop('update_auto_cache', False)`: whether the flag was given
   * with a true value, and the keyword arguments without it.
   */
  function PopFlag(kw: Kwargs): (bool, Kwargs)
  {
    if kw == [] then (false, [])
    else
      var (flag, rest) := PopFlag(kw[1..]);
      if kw[0].0 == FlagName then (Truthy(kw[0].1), rest) else (flag, [kw[0]] + rest)
  }

  /** What remains after the pop is every entry not named `update_auto_cache`. */
  lemma {:induction false} PopFlagKeeps(kw: Kwargs)
    ensures forall e :: e in PopFlag(kw).1 <==> e in kw && e.0 != FlagName
  {
    if kw != [] {
      PopFlagKeeps(kw[1..]);
      assert forall e :: e in kw <==> e == kw[0] || e in kw[1..];
    }
  }

  /** For a dict, the flag is set exactly when the flag entry holds a true value. */
  lemma {:induction false} PopFlagFlag(kw: Kwargs)
    requires IsDict(kw)
    ensures PopFlag(kw).0 <==> exists i | 0 <= i < |kw| :: kw[i].0 == FlagName && Truthy(kw[i].1)
  {
    if kw != [] {
      var tail := kw[1..];
      assert IsDict(tail) by {
        forall i, j | 0 <= i < j < |tail| ensures tail[i].0 != tail[j].0 {
          assert tail[i] == kw[i + 1] && tail[j] == kw[j + 1];
        }
      }
      PopFlagFlag(tail);
      if exists i | 0 <= i < |kw| :: kw[i].0 == FlagName && Truthy(kw[i].1) {
        var i :| 0 <= i < |kw| && kw[i].0 == FlagName && Truthy(kw[i].1);
        if i > 0 {
          assert tail[i - 1] == kw[i];
        }
      }
      if exists i | 0 <= i < |tail| :: tail[i].0 == FlagName && Truthy(tail[i].1) {
        var i :| 0 <= i < |tail| && tail[i].0 == FlagName && Truthy(tail[i].1);
        assert kw[i + 1] == tail[i];
      }
    }
  }

  /** Popping twice finds nothing: the flag is gone after the first pop. */
  lemma {:induction false} PopFlagIdempotent(kw: Kwargs)
    ensures PopFlag(PopFlag(kw).1) == (false, PopFlag(kw).1)
  {
    if kw != [] {
      PopFlagIdempotent(kw[1..]);
      var rest := PopFlag(kw[1..]).1;
      if kw[0].0 != FlagName {
        assert ([kw[0]] + rest)[1..] == rest;
      }
    }
  }

  // ---------------------------------------------------------------------
  // Call keys

  /** `kwargs` as the value `pickle.dumps` sees: a sequence of (name, value) pairs. */
  function KwargsValue(kw: Kwargs): (v: Value)
    ensures v.SeqValue? && |v.items| == |kw|
  {
    SeqValue(seq(|kw|, i requires 0 <= i < |kw| => SeqValue([StrValue(kw[i].0), kw[i].1])))
  }

  /** `_get_cache_key`: `<module>:<name>:<pickle.dumps([args, kwargs])>`. */
  function CallKey(f: Func, args: seq<Value>, kw: Kwargs): string
  {
    f.moduleName + Sep + f.name + Sep + Encode(SeqValue([SeqValue(args), KwargsValue(kw)]))
  }

  /** The key a call's time cost is stored under. */
  function CostKey(ns: string, key: string): string
  {
    MonitoringKey(ns, TimeCostSuffix, key)
  }

  /** In `a + ":" + b` with no ':' in `a`, the first ':' is the one after `a`. */
  lemma ColonAfter(a: string, b: string)
    requires ':' !in a
    ensures (a + ":" + b)[|a|] == ':'
    ensures forall i | 0 <= i < |a| :: (a + ":" + b)[i] != ':'
  {
    forall i | 0 <= i < |a| ensures (a + ":" + b)[i] != ':' {
      assert (a + ":" + b)[i] == a[i];
    }
  }

  lemma SplitAtColon(a: string, b: string, c: string, d: string)
    requires ':' !in a && ':' !in c
    requires a + ":" + b == c + ":" + d
    ensures a == c && b == d
  {
    var x := a + ":" + b;
    ColonAfter(a, b);
    ColonAfter(c, d);
    assert |a| == |c|;
    assert a == x[..|a|] && c == (c + ":" + d)[..|c|];
    assert b == x[|a| + 1..] && d == (c + ":" + d)[|c| + 1..];
  }

  /**
   * When module and function names hold no ':', two calls share a key only
   * when they are calls of the same function with the same arguments.
   */
  lemma CallKeyInjective(f: Func, args: seq<Value>, kw: Kwargs, g: Func, args2: seq<Value>, kw2: Kwargs)
    requires ':' !in f.moduleName && ':' !in f.name && ':' !in g.moduleName && ':' !in g.name
    requires CallKey(f, args, kw) == CallKey(g, args2, kw2)
    ensures f == g && args == args2 && kw == kw2
  {
    var e1 := Encode(SeqValue([SeqValue(args), KwargsValue(kw)]));
    var e2 := Encode(SeqValue([SeqValue(args2), KwargsValue(kw2)]));
    assert CallKey(f, args, kw) == f.moduleName + ":" + (f.name + ":" + e1);
    assert CallKey(g, args2, kw2) == g.moduleName + ":" + (g.name + ":" + e2);
    SplitAtColon(f.moduleName, f.name + ":" + e1, g.moduleName, g.name + ":" + e2);
    SplitAtColon(f.name, e1, g.name, e2);
    EncodeInjective(SeqValue([SeqValue(args), KwargsValue(kw)]), SeqValue([SeqValue(args2), KwargsValue(kw2)]));
    var v1 := KwargsValue(kw);
    var v2 := KwargsValue(kw2);
    assert v1 == v2;
    forall i | 0 <= i < |kw| ensures kw[i] == kw2[i] {
      assert v1.items[i] == v2.items[i];
    }
  }

  // ---------------------------------------------------------------------
  // set, read and update as functions of the store

  /**
   * `AutoCache.set`: the time cost goes first, under its monitoring key, with
   * the expiry exactly as given; then the value goes through the wrapper's
   * `set`. A failure of the first write stops the second.
   */
  function AutoSetSpec(ns: string, defaultExpiry: Option<int>, s: Store, key: string, value: string,
                       expire: Option<int>, onlyIfNew: bool, onlyIfOld: bool, cost: int, now: int): (Result<bool>, Store)
  {
    var (c, s1) := SetSpec(s, CostKey(ns, key), Decimal.IntToString(cost), expire, onlyIfNew, onlyIfOld, now);
    if c.Failure? then (Failure(c.error), s1)
    else WrapperSetSpec(ns, defaultExpiry, s1, key, value, expire, onlyIfNew, onlyIfOld, now)
  }

  /**
   * The cost write never decides what `set` reports: with both flags it is
   * a ParameterError and nothing changes, and otherwise the result is what
   * writing the value alone would report. Only the value and cost keys change.
   */
  lemma AutoSetResult(ns: string, defaultExpiry: Option<int>, s: Store, key: string, value: string,
                      expire: Option<int>, onlyIfNew: bool, onlyIfOld: bool, cost: int, now: int)
    ensures var (r, s') := AutoSetSpec(ns, defaultExpiry, s, key, value, expire, onlyIfNew, onlyIfOld, cost, now);
      var ttl := if expire.None? then defaultExpiry else expire;
      && (onlyIfNew && onlyIfOld ==> r == Failure(ParameterError) && s' == s)
      && (!(onlyIfNew && onlyIfOld) ==> r == SetSpec(s, CacheKey(ns, key), value, ttl, onlyIfNew, onlyIfOld, now).0)
      && (forall k, t | k != CacheKey(ns, key) && k != CostKey(ns, key) :: Lookup(s', k, t) == Lookup(s, k, t))
  {
    var ck := CacheKey(ns, key);
    var tk := CostKey(ns, key);
    var ttl := if expire.None? then defaultExpiry else expire;
    var c := Decimal.IntToString(cost);
    var s1 := SetSpec(s, tk, c, expire, onlyIfNew, onlyIfOld, now).1;
    RegionsDisjoint(ns, key, TimeCostSuffix, key);
    SetElsewhere(s, tk, c, expire, onlyIfNew, onlyIfOld, now, ck, now);
    SetOutcome(s, ck, value, ttl, onlyIfNew, onlyIfOld, now);
    SetOutcome(s1, ck, value, ttl, onlyIfNew, onlyIfOld, now);
    forall k, t | k != ck && k != tk
      ensures Lookup(AutoSetSpec(ns, defaultExpiry, s, key, value, expire, onlyIfNew, onlyIfOld, cost, now).1, k, t)
              == Lookup(s, k, t)
    {
      SetElsewhere(s, tk, c, expire, onlyIfNew, onlyIfOld, now, k, t);
      SetElsewhere(s1, ck, value, ttl, onlyIfNew, onlyIfOld, now, k, t);
    }
  }

  /** `_read_cache`: `Success(None)` stands for the CacheMiss it raises. */
  function ReadCacheSpec(ns: string, s: Store, f: Func, args: seq<Value>, kw: Kwargs, now: int)
    : (Result<Option<Value>>, Store)
  {
    var (g, s1) := WrapperGetSpec(ns, s, CallKey(f, args, kw), now);
    if g.Failure? then (Failure(g.error), s1)
    else if g.value.None? then (Success(None), s1)
    else match Decode(g.value.value)
      case None => (Failure(UnpicklingError), s1)
      case Some(v) => (Success(Some(v)), s1)
  }

  /** `_update_cache`: the function's value is stored with the default expiry, unless it declined caching. */
  function UpdateCacheSpec(ns: string, defaultExpiry: Option<int>, s: Store, f: Func, args: seq<Value>, kw: Kwargs,
                           run: Outcome, cost: int, now: int): (Result<Value>, Store)
  {
    match run
    case DoNotCache(v) => (Success(v), s)
    case Returned(v) =>
      var (w, s1) := AutoSetSpec(ns, defaultExpiry, s, CallKey(f, args, kw), Encode(v), defaultExpiry, false, false, cost, now);
      (Propagate(w, v), s1)
  }

  /** A failed write is raised to the caller; otherwise the call returns the function's value. */
  function Propagate(w: Result<bool>, v: Value): Result<Value>
  {
    if w.Failure? then Failure(w.error) else Success(v)
  }

  /** A call of the decorated function: its result, whether the function itself ran, and the new store. */
  function CallSpec(ns: string, defaultExpiry: Option<int>, s: Store, f: Func, args: seq<Value>, kwargs: Kwargs,
                    run: Outcome, cost: int, now: int): (Result<Value>, bool, Store)
  {
    var (force, kw) := PopFlag(kwargs);
    if force then
      var (r, s1) := UpdateCacheSpec(ns, defaultExpiry, s, f, args, kw, run, cost, now);
      (r, true, s1)
    else
      var (h, s1) := ReadCacheSpec(ns, s, f, args, kw, now);
      if h.Failure? then (Failure(h.error), false, s1)
      else if h.value.Some? then (Success(h.value.value), false, s1)
      else
        var (r, s2) := UpdateCacheSpec(ns, defaultExpiry, s1, f, args, kw, run, cost, now);
        (r, true, s2)
  }

  /** Which memo entries a call creates: the cache region on a read or a write, the monitoring region on a write. */
  function Touched(read: bool, written: bool): (set<Option<string>>, set<Option<string>>)
  {
    ((if read || written then {Some(CacheRegion)} else {}) + (if written then {Some(MonitoringRegion)} else {}),
     (if read || written then {None} else {}) + (if written then {Some(TimeCostSuffix)} else {}))
  }

  /** The memo keys `set` adds: the monitoring pieces, then the cache pieces unless both flags are set. */
  lemma GainedBySet(prefixes: set<Option<string>>, suffixes: set<Option<string>>, both: bool)
    ensures both ==> (prefixes + {Some(MonitoringRegion)} ==
      prefixes + ({Some(MonitoringRegion)} + (if both then {} else {Some(CacheRegion)})))
    ensures both ==> (suffixes + {Some(TimeCostSuffix)} ==
      suffixes + ({Some(TimeCostSuffix)} + (if both then {} else {None})))
    ensures !both ==> (prefixes + {Some(MonitoringRegion)} + {Some(CacheRegion)} ==
      prefixes + ({Some(MonitoringRegion)} + (if both then {} else {Some(CacheRegion)})))
    ensures !both ==> (suffixes + {Some(TimeCostSuffix)} + {None} ==
      suffixes + ({Some(TimeCostSuffix)} + (if both then {} else {None})))
  {
  }

  /** A read before a write adds nothing to what the write touches beyond the read's own entries. */
  lemma TouchedByRead(prefixes: set<Option<string>>, suffixes: set<Option<string>>, written: bool)
    ensures (prefixes + {Some(CacheRegion)}) + Touched(false, written).0 == prefixes + Touched(true, written).0
    ensures (suffixes + {None}) + Touched(false, written).1 == suffixes + Touched(true, written).1
    ensures prefixes + {Some(CacheRegion)} == prefixes + Touched(true, false).0
    ensures suffixes + {None} == suffixes + Touched(true, false).1
  {
  }

  /**
   * Storing a call's value writes exactly two entries, the pickled value
   * under the cache key and the cost under the cost key, both with the
   * default expiry; every other key, the counters among them, reads as before.
   */
  lemma UpdateWrites(ns: string, defaultExpiry: Option<int>, s: Store, f: Func, args: seq<Value>, kw: Kwargs,
                     v: Value, cost: int, now: int)
    ensures var (r, s') := UpdateCacheSpec(ns, defaultExpiry, s, f, args, kw, Returned(v), cost, now);
      var key := CallKey(f, args, kw);
      && r == Success(v)
      && s'[CacheKey(ns, key)] == Entry(Encode(v), now, defaultExpiry)
      && s'[CostKey(ns, key)] == Entry(Decimal.IntToString(cost), now, defaultExpiry)
      && (forall k, t | k != CacheKey(ns, key) && k != CostKey(ns, key) :: Lookup(s', k, t) == Lookup(s, k, t))
  {
    var key := CallKey(f, args, kw);
    var ck := CacheKey(ns, key);
    var tk := CostKey(ns, key);
    RegionsDisjoint(ns, key, TimeCostSuffix, key);
    SetOutcome(s, tk, Decimal.IntToString(cost), defaultExpiry, false, false, now);
    SetThenGet(s, tk, Decimal.IntToString(cost), defaultExpiry, false, false, now, now);
    var s1 := SetSpec(s, tk, Decimal.IntToString(cost), defaultExpiry, false, false, now).1;
    SetOutcome(s1, ck, Encode(v), defaultExpiry, false, false, now);
    SetThenGet(s1, ck, Encode(v), defaultExpiry, false, false, now, now);
  }

  /** Storing a value leaves the counters as they were. */
  lemma UpdateKeepsCounters(ns: string, defaultExpiry: Option<int>, s: Store, f: Func, args: seq<Value>, kw: Kwargs,
                            run: Outcome, cost: int, now: int)
    requires CountersSound(ns, s, now)
    ensures var s' := UpdateCacheSpec(ns, defaultExpiry, s, f, args, kw, run, cost, now).1;
      && CountersSound(ns, s', now)
      && Counted(s', HitsKey(ns), now) == Counted(s, HitsKey(ns), now)
      && Counted(s', MissesKey(ns), now) == Counted(s, MissesKey(ns), now)
  {
    if run.Returned? {
      var key := CallKey(f, args, kw);
      UpdateWrites(ns, defaultExpiry, s, f, args, kw, run.value, cost, now);
      RegionsDisjoint(ns, key, HitsSuffix, "*");
      RegionsDisjoint(ns, key, MissesSuffix, "*");
      CountersDistinct(ns, key);
    }
  }

  /**
   * An unforced call whose key is cached does not run the function: it
   * returns the unpickled value (or fails to unpickle) and counts one hit.
   */
  lemma HitReturnsCached(ns: string, defaultExpiry: Option<int>, s: Store, f: Func, args: seq<Value>, kwargs: Kwargs,
                         run: Outcome, cost: int, now: int)
    requires CountersSound(ns, s, now)
    requires !PopFlag(kwargs).0
    requires Lookup(s, CacheKey(ns, CallKey(f, args, PopFlag(kwargs).1)), now).Some?
    ensures var e := Lookup(s, CacheKey(ns, CallKey(f, args, PopFlag(kwargs).1)), now).value;
      var (r, invoked, s') := CallSpec(ns, defaultExpiry, s, f, args, kwargs, run, cost, now);
      && !invoked
      && r == (if Decode(e).Some? then Success(Decode(e).value) else Failure(UnpicklingError))
      && CountersSound(ns, s', now)
      && Counted(s', HitsKey(ns), now) == Counted(s, HitsKey(ns), now) + 1
      && Counted(s', MissesKey(ns), now) == Counted(s, MissesKey(ns), now)
  {
    GetCountsOnce(ns, s, CallKey(f, args, PopFlag(kwargs).1), now);
  }

  /**
   * An unforced call whose key is not cached runs the function, returns
   * what it produced and counts one miss; a returned value is then cached,
   * and a declined one leaves every key but the counters as it was.
   */
  lemma MissInvokes(ns: string, defaultExpiry: Option<int>, s: Store, f: Func, args: seq<Value>, kwargs: Kwargs,
                    run: Outcome, cost: int, now: int)
    requires CountersSound(ns, s, now)
    requires !PopFlag(kwargs).0
    requires Lookup(s, CacheKey(ns, CallKey(f, args, PopFlag(kwargs).1)), now).None?
    ensures var key := CallKey(f, args, PopFlag(kwargs).1);
      var (r, invoked, s') := CallSpec(ns, defaultExpiry, s, f, args, kwargs, run, cost, now);
      && invoked
      && r == Success(run.value)
      && CountersSound(ns, s', now)
      && Counted(s', HitsKey(ns), now) == Counted(s, HitsKey(ns), now)
      && Counted(s', MissesKey(ns), now) == Counted(s, MissesKey(ns), now) + 1
      && (run.Returned? ==> s'[CacheKey(ns, key)] == Entry(Encode(run.value), now, defaultExpiry))
      && (run.DoNotCache? ==> forall k, t | k != HitsKey(ns) && k != MissesKey(ns) && now <= t ::
            Lookup(s', k, t) == Lookup(s, k, t))
  {
    var kw := PopFlag(kwargs).1;
    var key := CallKey(f, args, kw);
    GetCountsOnce(ns, s, key, now);
    var s1 := WrapperGetSpec(ns, s, key, now).1;
    UpdateKeepsCounters(ns, defaultExpiry, s1, f, args, kw, run, cost, now);
    if run.Returned? {
      UpdateWrites(ns, defaultExpiry, s1, f, args, kw, run.value, cost, now);
    }
  }

  /**
   * A call with `update_auto_cache` set always runs the function and does
   * not touch the counters; a returned value is stored under the key of the
   * same call without the flag.
   */
  lemma ForcedInvokes(ns: string, defaultExpiry: Option<int>, s: Store, f: Func, args: seq<Value>, kwargs: Kwargs,
                      run: Outcome, cost: int, now: int)
    requires PopFlag(kwargs).0
    ensures var key := CallKey(f, args, PopFlag(kwargs).1);
      var (r, invoked, s') := CallSpec(ns, defaultExpiry, s, f, args, kwargs, run, cost, now);
      && invoked
      && r == Success(run.value)
      && (forall t :: Lookup(s', HitsKey(ns), t) == Lookup(s, HitsKey(ns), t))
      && (forall t :: Lookup(s', MissesKey(ns), t) == Lookup(s, MissesKey(ns), t))
      && (run.Returned? ==> s'[CacheKey(ns, key)] == Entry(Encode(run.value), now, defaultExpiry))
      && (run.DoNotCache? ==> s' == s)
      && PopFlag(PopFlag(kwargs).1) == (false, PopFlag(kwargs).1)
  {
    var kw := PopFlag(kwargs).1;
    var key := CallKey(f, args, kw);
    PopFlagIdempotent(kwargs);
    if run.Returned? {
      UpdateWrites(ns, defaultExpiry, s, f, args, kw, run.value, cost, now);
      RegionsDisjoint(ns, key, HitsSuffix, "*");
      RegionsDisjoint(ns, key, MissesSuffix, "*");
      CountersDistinct(ns, key);
    }
  }

  /**
   * Memoization: once a call has run the function and it returned `v`, the
   * same call without the flag, made before the default expiry runs out,
   * returns `v` without running the function, whatever it would now do.
   * A returned `None` is cached like any other value.
   */
  lemma MemoizedCallHits(ns: string, defaultExpiry: Option<int>, s: Store, f: Func, args: seq<Value>,
                         kwargs: Kwargs, v: Value, cost: int, now: int,
                         kwargs2: Kwargs, run2: Outcome, cost2: int, later: int)
    requires CountersSound(ns, s, now)
    requires CallSpec(ns, defaultExpiry, s, f, args, kwargs, Returned(v), cost, now).1
    requires !PopFlag(kwargs2).0 && PopFlag(kwargs2).1 == PopFlag(kwargs).1
    requires now <= later && !(defaultExpiry.Some? && later - now > defaultExpiry.value)
    ensures var (r, _, s1) := CallSpec(ns, defaultExpiry, s, f, args, kwargs, Returned(v), cost, now);
      && r == Success(v)
      && CallSpec(ns, defaultExpiry, s1, f, args, kwargs2, run2, cost2, later).0 == Success(v)
      && !CallSpec(ns, defaultExpiry, s1, f, args, kwargs2, run2, cost2, later).1
  {
    var kw := PopFlag(kwargs).1;
    var key := CallKey(f, args, kw);
    var s1 := CallSpec(ns, defaultExpiry, s, f, args, kwargs, Returned(v), cost, now).2;
    if PopFlag(kwargs).0 {
      ForcedInvokes(ns, defaultExpiry, s, f, args, kwargs, Returned(v), cost, now);
      UpdateKeepsCounters(ns, defaultExpiry, s, f, args, kw, Returned(v), cost, now);
    } else {
      if Lookup(s, CacheKey(ns, key), now).Some? {
        HitReturnsCached(ns, defaultExpiry, s, f, args, kwargs, Returned(v), cost, now);
        assert false;
      }
      MissInvokes(ns, defaultExpiry, s, f, args, kwargs, Returned(v), cost, now);
    }
    assert s1[CacheKey(ns, key)] == Entry(Encode(v), now, defaultExpiry);
    assert Lookup(s1, CacheKey(ns, key), later) == Some(Encode(v));
    SoundLater(ns, s1, now, later);
    HitReturnsCached(ns, defaultExpiry, s1, f, args, kwargs2, run2, cost2, later);
    RoundTrip(v);
  }

  /**
   * A call whose function declines caching stores nothing, so the next
   * unforced call runs the function again.
   */
  lemma DeclinedCallRunsAgain(ns: string, defaultExpiry: Option<int>, s: Store, f: Func, args: seq<Value>,
                              kwargs: Kwargs, v: Value, cost: int, now: int,
                              kwargs2: Kwargs, run2: Outcome, cost2: int, later: int)
    requires CountersSound(ns, s, now)
    requires Lookup(s, CacheKey(ns, CallKey(f, args, PopFlag(kwargs).1)), now).None?
    requires !PopFlag(kwargs2).0 && PopFlag(kwargs2).1 == PopFlag(kwargs).1
    requires now <= later
    ensures var (r, invoked, s1) := CallSpec(ns, defaultExpiry, s, f, args, kwargs, DoNotCache(v), cost, now);
      && r == Success(v) && invoked
      && CallSpec(ns, defaultExpiry, s1, f, args, kwargs2, run2, cost2, later).1
      && CallSpec(ns, defaultExpiry, s1, f, args, kwargs2, run2, cost2, later).0 == Success(run2.value)
  {
    var kw := PopFlag(kwargs).1;
    var key := CallKey(f, args, kw);
    var s1 := CallSpec(ns, defaultExpiry, s, f, args, kwargs, DoNotCache(v), cost, now).2;
    if PopFlag(kwargs).0 {
      ForcedInvokes(ns, defaultExpiry, s, f, args, kwargs, DoNotCache(v), cost, now);
    } else {
      MissInvokes(ns, defaultExpiry, s, f, args, kwargs, DoNotCache(v), cost, now);
      RegionsDisjoint(ns, key, HitsSuffix, "*");
      RegionsDisjoint(ns, key, MissesSuffix, "*");
    }
    assert Lookup(s1, CacheKey(ns, key), later) == None by {
      ReapUnobservable(s, CacheKey(ns, key), now, CacheKey(ns, key), later);
      assert Lookup(s, CacheKey(ns, key), later) == None;
    }
    SoundLater(ns, s1, now, later);
    MissInvokes(ns, defaultExpiry, s1, f, args, kwargs2, run2, cost2, later);
  }

  // ---------------------------------------------------------------------
  // Average time cost

  /**
   * `[float(value) for value in raw_values if value is not None]`, with the
   * costs written as integers: `None` when a present value does not parse.
   */
  function Costs(values: seq<Option<string>>): Option<seq<int>>
    decreases |values|
  {
    if values == [] then Some([])
    else match Costs(values[..|values| - 1])
      case None => None
      case Some(xs) =>
        var last := values[|values| - 1];
        if last.None? then Some(xs)
        else match Decimal.ParseInt(last.value)
          case None => None
          case Some(x) => Some(xs + [x])
  }

  function IntSum(xs: seq<int>): int
  {
    if xs == [] then 0 else IntSum(xs[..|xs| - 1]) + xs[|xs| - 1]
  }

  /** `_average`: the mean, and 0 for no samples. */
  function Average(xs: seq<int>): real
  {
    if xs == [] then 0.0 else IntSum(xs) as real / |xs| as real
  }

  function AverageSpec(values: seq<Option<string>>): Result<real>
  {
    match Costs(values)
    case None => Failure(InvalidLiteral)
    case Some(xs) => Success(Average(xs))
  }

  /** The comprehension over the raw values and `_average`: the integer costs read one by one. */
  method AverageCosts(values: seq<Option<string>>) returns (r: Result<real>)
    ensures r == AverageSpec(values)
  {
    var costs: seq<int> := [];
    var i := 0;
    while i < |values|
      invariant 0 <= i <= |values|
      invariant Costs(values[..i]) == Some(costs)
    {
      assert values[..i + 1][..i] == values[..i];
      if values[i].Some? {
        var c := Decimal.ParseInt(values[i].value);
        if c.None? {
          CostsFail(values);
          return Failure(InvalidLiteral);
        }
        costs := costs + [c.value];
      }
      i := i + 1;
    }
    assert values[..i] == values;
    r := Success(Average(costs));
  }

  /** `time_cost_average()` on a store, for the raw cost keys listed. */
  function TimeCostAverageSpec(s: Store, raw: seq<string>, now: int): (Result<real>, Store)
  {
    if raw == [] then (AverageSpec([]), s)
    else
      var (values, s1) := MultiGetSpec(s, raw, now);
      (AverageSpec(values), s1)
  }

  /** The costs fail to read exactly when some present value is not an integer. */
  lemma {:induction false} CostsFail(values: seq<Option<string>>)
    ensures Costs(values).None? <==>
      exists i | 0 <= i < |values| :: values[i].Some? && Decimal.ParseInt(values[i].value).None?
    decreases |values|
  {
    if values != [] {
      var n := |values| - 1;
      var init := values[..n];
      CostsFail(init);
      if exists i | 0 <= i < |init| :: init[i].Some? && Decimal.ParseInt(init[i].value).None? {
        var i :| 0 <= i < |init| && init[i].Some? && Decimal.ParseInt(init[i].value).None?;
        assert values[i] == init[i];
      }
      if exists i | 0 <= i < |values| :: values[i].Some? && Decimal.ParseInt(values[i].value).None? {
        var i :| 0 <= i < |values| && values[i].Some? && Decimal.ParseInt(values[i].value).None?;
        if i < n {
          assert init[i] == values[i];
        }
      }
    }
  }

  /** Costs written by `set` read back as the integers written; absent entries are skipped. */
  lemma {:induction false} CostsOfWritten(costs: seq<int>)
    ensures Costs(seq(|costs|, i requires 0 <= i < |costs| => Some(Decimal.IntToString(costs[i])))) == Some(costs)
    decreases |costs|
  {
    var values := seq(|costs|, i requires 0 <= i < |costs| => Some(Decimal.IntToString(costs[i])));
    if costs != [] {
      var n := |costs| - 1;
      var init := values[..n];
      CostsOfWritten(costs[..n]);
      assert init == seq(n, i requires 0 <= i < n => Some(Decimal.IntToString(costs[..n][i])));
      assert values[n] == Some(Decimal.IntToString(costs[n]));
      Decimal.IntRoundTrip(costs[n]);
      assert Costs(values) == Some(costs[..n] + [costs[n]]);
      assert costs[..n] + [costs[n]] == costs;
    }
  }

  lemma {:induction false} IntSumBounds(xs: seq<int>, lo: int, hi: int)
    requires forall i | 0 <= i < |xs| :: lo <= xs[i] <= hi
    ensures |xs| * lo <= IntSum(xs) <= |xs| * hi
    decreases |xs|
  {
    if xs != [] {
      IntSumBounds(xs[..|xs| - 1], lo, hi);
    }
  }

  /** The average lies between the smallest and largest sample. */
  lemma AverageBounds(xs: seq<int>, lo: int, hi: int)
    requires xs != []
    requires forall i | 0 <= i < |xs| :: lo <= xs[i] <= hi
    ensures lo as real <= Average(xs) <= hi as real
  {
    IntSumBounds(xs, lo, hi);
    var n := |xs| as real;
    var sum := IntSum(xs) as real;
    assert n * lo as real <= sum <= n * hi as real;
    assert sum / n * n == sum;
  }

  /** The cost pattern selects no cached value and no counter. */
  lemma CostPatternSparesOthers(ns: string, key: string)
    ensures !Glob.Match(CostKey(ns, "*"), CacheKey(ns, key))
    ensures !Glob.Match(CostKey(ns, "*"), HitsKey(ns))
    ensures !Glob.Match(CostKey(ns, "*"), MissesKey(ns))
  {
    var lit := ":time_cost";
    var p := FullPrefix(ns, Some(MonitoringRegion)) + "*";
    assert CostKey(ns, "*") == p + lit;
    var c := CacheKey(ns, key);
    var h := HitsKey(ns);
    var m := MissesKey(ns);
    Glob.LiteralSuffix(p, lit, c);
    Glob.LiteralSuffix(p, lit, h);
    Glob.LiteralSuffix(p, lit, m);
    assert c[|c| - 1] == 'e' && h[|h| - 1] == 's' && m[|m| - 1] == 's';
    if |lit| <= |c| { assert c[|c| - |lit|..][|lit| - 1] == c[|c| - 1]; }
    if |lit| <= |h| { assert h[|h| - |lit|..][|lit| - 1] == h[|h| - 1]; }
    if |lit| <= |m| { assert m[|m| - |lit|..][|lit| - 1] == m[|m| - 1]; }
  }

  /** For a glob-free namespace, the cost pattern selects every cost key of that namespace. */
  lemma CostPatternTakesCosts(ns: string, key: string)
    requires Glob.Literal(ns)
    ensures Glob.Match(CostKey(ns, "*"), CostKey(ns, key))
  {
    var p := FullPrefix(ns, Some(MonitoringRegion));
    var lit := ":time_cost";
    MonitoringPrefixLiteral(ns);
    assert CostKey(ns, "*") == p + ("*" + lit);
    assert CostKey(ns, key) == p + (key + lit);
    StarBetween(p, lit, key);
  }

  // ---------------------------------------------------------------------
  // Objects

  /** The function a decorator application returns; it remembers the function it wraps. */
  class Decorated {
    const func: Func

    constructor(f: Func)
      ensures func == f
    {
      func := f;
    }
  }

  class AutoCache {
    const wrapper: CacheWrapper
    /** `_time_cost_keys_pattern`. */
    const timeCostPattern: string
    /** `_wrappers_map`: decorated function to the function it wraps. */
    var wrappersMap: map<Decorated, Func>

    ghost predicate Valid()
      reads this, wrapper
    {
      wrapper.Valid() && timeCostPattern == CostKey(wrapper.namespace, "*")
    }

    constructor Make(w: CacheWrapper, pattern: string)
      requires w.Valid() && pattern == CostKey(w.namespace, "*")
      ensures wrapper == w && timeCostPattern == pattern && wrappersMap == map[]
      ensures Valid()
    {
      wrapper := w;
      timeCostPattern := pattern;
      wrappersMap := map[];
    }

    /**
     * `AutoCache(namespace, default_expiry, wrapped_cache)`: the wrapper's
     * construction, then the cost pattern; the namespace `default` is refused.
     */
    static method New(ns: string, expiry: Option<int>, wrapped: Option<Backends.Backend>) returns (r: Result<AutoCache>)
      requires wrapped.Some? ==> Backends.Valid(wrapped.value)
      ensures r.Failure? <==> ns == "default"
      ensures r.Failure? ==> r.error == DefaultNamespace
      ensures r.Success? ==> fresh(r.value) && fresh(r.value.wrapper) && r.value.Valid() && r.value.wrappersMap == map[]
      ensures r.Success? ==> r.value.wrapper.namespace == ns && r.value.wrapper.defaultExpiry == expiry
      ensures r.Success? && wrapped.Some? ==> r.value.wrapper.backend == wrapped.value
      ensures r.Success? && wrapped.None? ==>
        r.value.wrapper.backend.Local? && fresh(r.value.wrapper.backend.cache) && r.value.wrapper.backend.cache.store == map[]
    {
      var w := CacheWrapper.New(ns, expiry, wrapped);
      if w.Failure? {
        return Failure(w.error);
      }
      var pattern := w.value.AddMonitoringNamespace(TimeCostSuffix, "*");
      var a := new AutoCache.Make(w.value, pattern);
      return Success(a);
    }

    /** `decorator(func)`: a new wrapper function, remembered as wrapping `func`. */
    method Decorate(f: Func) returns (d: Decorated)
      modifies this
      ensures fresh(d) && d.func == f
      ensures wrappersMap == old(wrappersMap)[d := f]
      ensures SourceFunc(d) == Success(f)
    {
      d := new Decorated(f);
      wrappersMap := wrappersMap[d := f];
    }

    /** `_get_source_func`: a wrapper this object did not return is a KeyError. */
    function SourceFunc(d: Decorated): (r: Result<Func>)
      reads this
      ensures r.Failure? <==> d !in wrappersMap
      ensures r.Failure? ==> r.error == UnknownWrapper
      ensures r.Success? ==> r.value == wrappersMap[d]
    {
      if d in wrappersMap then Success(wrappersMap[d]) else Failure(UnknownWrapper)
    }

    method Set(key: string, value: string, expire: Option<int>, onlyIfNew: bool, onlyIfOld: bool, cost: int, now: int)
      returns (r: Result<bool>)
      requires Valid()
      modifies wrapper, wrapper.Primary()
      ensures (r, wrapper.Primary().store) == AutoSetSpec(wrapper.namespace, wrapper.defaultExpiry,
        old(wrapper.Primary().store), key, value, expire, onlyIfNew, onlyIfOld, cost, now)
      ensures var both := onlyIfNew && onlyIfOld;
        wrapper.MemoGained({Some(MonitoringRegion)} + (if both then {} else {Some(CacheRegion)}),
                           {Some(TimeCostSuffix)} + (if both then {} else {None}))
      ensures Valid()
    {
      ghost var pm := wrapper.prefixMemo;
      ghost var sm := wrapper.suffixMemo;
      GainedBySet(pm.Keys, sm.Keys, onlyIfNew && onlyIfOld);
      UpdateKeys(pm, Some(MonitoringRegion), FullPrefix(wrapper.namespace, Some(MonitoringRegion)));
      UpdateKeys(sm, Some(TimeCostSuffix), FullSuffix(Some(TimeCostSuffix)));
      var costKey := wrapper.AddMonitoringNamespace(TimeCostSuffix, key);
      var c := Backends.Set(wrapper.backend, costKey, Decimal.IntToString(cost), expire, onlyIfNew, onlyIfOld, now);
      if c.Failure? {
        return Failure(c.error);
      }
      UpdateKeys(wrapper.prefixMemo, Some(CacheRegion), FullPrefix(wrapper.namespace, Some(CacheRegion)));
      UpdateKeys(wrapper.suffixMemo, None, FullSuffix(None));
      r := wrapper.Set(key, value, expire, onlyIfNew, onlyIfOld, now);
    }

    method ReadCache(f: Func, args: seq<Value>, kw: Kwargs, now: int) returns (r: Result<Option<Value>>)
      requires Valid()
      modifies wrapper, wrapper.Primary()
      ensures (r, wrapper.Primary().store) == ReadCacheSpec(wrapper.namespace, old(wrapper.Primary().store), f, args, kw, now)
      ensures wrapper.MemoGained({Some(CacheRegion)}, {None}) && Valid()
    {
      var got := wrapper.Get(CallKey(f, args, kw), now);
      if got.Failure? {
        return Failure(got.error);
      }
      if got.value.None? {
        return Success(None);
      }
      var v := Decode(got.value.value);
      if v.None? {
        return Failure(UnpicklingError);
      }
      return Success(Some(v.value));
    }

    /** `_update_cache`, with what the call did and how long it took given. */
    method UpdateCache(f: Func, args: seq<Value>, kw: Kwargs, run: Outcome, cost: int, now: int) returns (r: Result<Value>)
      requires Valid()
      modifies wrapper, wrapper.Primary()
      ensures (r, wrapper.Primary().store) ==
        UpdateCacheSpec(wrapper.namespace, wrapper.defaultExpiry, old(wrapper.Primary().store), f, args, kw, run, cost, now)
      ensures wrapper.MemoGained(Touched(false, run.Returned?).0, Touched(false, run.Returned?).1) && Valid()
    {
      match run
      case DoNotCache(v) =>
        return Success(v);
      case Returned(v) =>
        var w := Set(CallKey(f, args, kw), Encode(v), wrapper.defaultExpiry, false, false, cost, now);
        return Propagate(w, v);
    }

    /**
     * A call of the decorated function `d` with `args` and `kwargs`. `run` is
     * what the function does if it is called and `cost` how long that takes;
     * `invoked` says whether it was.
     */
    method Call(d: Decorated, args: seq<Value>, kwargs: Kwargs, run: Outcome, cost: int, now: int)
      returns (r: Result<Value>, invoked: bool)
      requires Valid() && d in wrappersMap
      modifies wrapper, wrapper.Primary()
      ensures (r, invoked, wrapper.Primary().store) ==
        CallSpec(wrapper.namespace, wrapper.defaultExpiry, old(wrapper.Primary().store), d.func, args, kwargs, run, cost, now)
      ensures var t := Touched(!PopFlag(kwargs).0, invoked && run.Returned?);
        wrapper.MemoGained(t.0, t.1)
      ensures Valid()
    {
      ghost var prefixes := wrapper.prefixMemo.Keys;
      ghost var suffixes := wrapper.suffixMemo.Keys;
      TouchedByRead(prefixes, suffixes, run.Returned?);
      var (force, kw) := PopFlag(kwargs);
      if force {
        r := UpdateCache(d.func, args, kw, run, cost, now);
        invoked := true;
        return;
      }
      var cached := ReadCache(d.func, args, kw, now);
      if cached.Failure? {
        return Failure(cached.error), false;
      }
      if cached.value.Some? {
        return Success(cached.value.value), false;
      }
      r := UpdateCache(d.func, args, kw, run, cost, now);
      invoked := true;
    }

    /** `time_cost_average()`: the mean of the cost samples of this namespace. */
    method TimeCostAverage(now: int) returns (r: Result<real>, raw: seq<string>)
      requires Valid()
      modifies wrapper, wrapper.Primary()
      ensures Enumerates(raw, MatchingKeys(old(wrapper.Primary().store), CostKey(wrapper.namespace, "*")))
      ensures (r, wrapper.Primary().store) == TimeCostAverageSpec(old(wrapper.Primary().store), raw, now)
      ensures wrapper.Memoizes(Some(MonitoringRegion), Some(TimeCostSuffix)) && Valid()
    {
      raw := wrapper.MonitoringKeysWithNamespace(TimeCostSuffix, "*");
      var values: seq<Option<string>> := [];
      if raw != [] {
        values := Backends.MultiGet(wrapper.backend, raw, now);
      }
      r := AverageCosts(values);
    }
  }

  /** `get_auto_cache`: one AutoCache per (namespace, default expiry, wrapped cache). */
  class Registry {
    var instances: map<(string, Option<int>, Option<Backends.Backend>), AutoCache>

    /** Every recorded instance is usable and was built from the triple it is recorded under. */
    ghost predicate Valid()
      reads this, instances.Values, set a | a in instances.Values :: a.wrapper
    {
      forall k | k in instances :: BuiltFrom(instances[k], k)
    }

    static ghost predicate BuiltFrom(a: AutoCache, k: (string, Option<int>, Option<Backends.Backend>))
      reads a, a.wrapper
    {
      && a.Valid()
      && a.wrapper.namespace == k.0 && a.wrapper.defaultExpiry == k.1
      && (k.2.Some? ==> a.wrapper.backend == k.2.value)
    }

    constructor()
      ensures instances == map[]
      ensures Valid()
    {
      instances := map[];
    }

    method GetAutoCache(ns: string, expiry: Option<int>, wrapped: Option<Backends.Backend>) returns (r: Result<AutoCache>)
      requires wrapped.Some? ==> Backends.Valid(wrapped.value)
      requires Valid()
      modifies this
      ensures (ns, expiry, wrapped) in old(instances) ==>
        r == Success(old(instances)[(ns, expiry, wrapped)]) && instances == old(instances)
      ensures r.Success? ==>
        && r.value.Valid()
        && r.value.wrapper.namespace == ns && r.value.wrapper.defaultExpiry == expiry
        && (wrapped.Some? ==> r.value.wrapper.backend == wrapped.value)
      ensures Valid()
      ensures (ns, expiry, wrapped) !in old(instances) && ns == "default" ==>
        r == Failure(DefaultNamespace) && instances == old(instances)
      ensures (ns, expiry, wrapped) !in old(instances) && ns != "default" ==>
        && r.Success? && fresh(r.value) && fresh(r.value.wrapper) && r.value.Valid()
        && (wrapped.None? ==>
              r.value.wrapper.backend.Local? && fresh(r.value.wrapper.backend.cache)
              && r.value.wrapper.backend.cache.store == map[])
        && r.value.wrapper.namespace == ns && r.value.wrapper.defaultExpiry == expiry
        && (wrapped.Some? ==> r.value.wrapper.backend == wrapped.value)
        && instances == old(instances)[(ns, expiry, wrapped) := r.value]
    {
      var key := (ns, expiry, wrapped);
      if key !in instances {
        var a := AutoCache.New(ns, expiry, wrapped);
        if a.Failure? {
          return Failure(a.error);
        }
        Record(key, a.value);
      }
      return Success(instances[key]);
    }

    /** Records an instance under the triple it was built from. */
    method Record(k: (string, Option<int>, Option<Backends.Backend>), a: AutoCache)
      requires Valid() && BuiltFrom(a, k)
      modifies this
      ensures instances == old(instances)[k := a]
      ensures Valid()
    {
      ghost var before := instances;
      instances := instances[k := a];
      forall j | j in instances
        ensures BuiltFrom(instances[j], j)
      {
        if j != k {
          assert instances[j] == before[j];
        }
      }
    }
  }
}
