/**
 * The namespacing wrapper. Every key it hands to its backend has the form
 * `py_auto_cache:<namespace>:<region>:<key>:<suffix>`; the region is
 * `cache` for values and `monitoring` for the hit and miss counters (and
 * the cost samples of the memoization layer). A cache-region key has no
 * suffix, and formatting the missing suffix writes the text `None`.
 */
module CacheWrappers {
  import opened Outcomes
  import opened DictCaches
  import Backends
  import Glob
  import Decimal

  const GlobalNs: string := "py_auto_cache"
  const Sep: string := ":"
  const CacheRegion: string := "cache"
  const MonitoringRegion: string := "monitoring"
  const HitsSuffix: string := "hits"
  const MissesSuffix: string := "misses"
  /** The suffix the memoization layer files its cost samples under. */
  const TimeCostSuffix: string := "time_cost"
  const DefaultPort: int := 6379

  // ---------------------------------------------------------------------
  // Key layout

  /** How `str.format` renders an optional piece: a missing one is the text "None". */
  function Show(x: Option<string>): string
  {
    match x
    case None => "None"
    case Some(s) => s
  }

  /** `_get_full_prefix`: `py_auto_cache:<ns>:<prefix>:`. */
  function FullPrefix(ns: string, prefix: Option<string>): string
  {
    GlobalNs + Sep + ns + Sep + Show(prefix) + Sep
  }

  /** `_get_full_suffix`: `:<suffix>`. */
  function FullSuffix(suffix: Option<string>): string
  {
    Sep + Show(suffix)
  }

  /** `_add_namespace_to_key`. */
  function AddNamespace(ns: string, key: string, prefix: Option<string>, suffix: Option<string>): string
  {
    FullPrefix(ns, prefix) + key + FullSuffix(suffix)
  }

  /** `_remove_prefix`: drops `prefix` when `key` starts with it. */
  function RemovePrefix(key: string, prefix: string): string
  {
    if prefix <= key then key[|prefix|..] else key
  }

  predicate EndsWith(key: string, suffix: string)
  {
    |suffix| <= |key| && key[|key| - |suffix|..] == suffix
  }

  /**
   * `_remove_suffix`: `key[:-len(suffix)]` when `key` ends with `suffix`. For
   * an empty suffix that slice is `key[:0]`, so the result is empty; the
   * wrapper never passes an empty suffix.
   */
  function RemoveSuffix(key: string, suffix: string): string
  {
    if !EndsWith(key, suffix) then key
    else if |suffix| == 0 then []
    else key[..|key| - |suffix|]
  }

  /** `_remove_namespace_from_key`. */
  function RemoveNamespace(ns: string, key: string, prefix: Option<string>, suffix: Option<string>): string
  {
    RemoveSuffix(RemovePrefix(key, FullPrefix(ns, prefix)), FullSuffix(suffix))
  }

  /** The physical key of a cached value: `py_auto_cache:<ns>:cache:<key>:None`. */
  function CacheKey(ns: string, key: string): string
  {
    AddNamespace(ns, key, Some(CacheRegion), None)
  }

  /** The physical key of a monitoring entry: `py_auto_cache:<ns>:monitoring:<key>:<suffix>`. */
  function MonitoringKey(ns: string, suffix: string, key: string): string
  {
    AddNamespace(ns, key, Some(MonitoringRegion), Some(suffix))
  }

  /** The counters are stored under a literal `*` key. */
  function HitsKey(ns: string): string { MonitoringKey(ns, HitsSuffix, "*") }

  function MissesKey(ns: string): string { MonitoringKey(ns, MissesSuffix, "*") }

  /** The pattern `clear` hands to the backend. */
  function ClearPattern(ns: string): string { CacheKey(ns, "*") }

  /** What `get_keys` returns for the raw keys the backend listed. */
  function StripCache(ns: string, raw: seq<string>): (keys: seq<string>)
    ensures |keys| == |raw|
  {
    seq(|raw|, i requires 0 <= i < |raw| => RemoveNamespace(ns, raw[i], Some(CacheRegion), None))
  }

  /** The physical keys `delete(*keys)` hands to the backend. */
  function CacheKeys(ns: string, keys: seq<string>): (raw: seq<string>)
    ensures |raw| == |keys|
  {
    seq(|keys|, i requires 0 <= i < |keys| => CacheKey(ns, keys[i]))
  }

  lemma StripSnoc(ns: string, raw: seq<string>, i: nat)
    requires i < |raw|
    ensures StripCache(ns, raw[..i + 1]) == StripCache(ns, raw[..i]) + [RemoveNamespace(ns, raw[i], Some(CacheRegion), None)]
  {
  }

  lemma CacheKeysSnoc(ns: string, keys: seq<string>, i: nat)
    requires i < |keys|
    ensures CacheKeys(ns, keys[..i + 1]) == CacheKeys(ns, keys[..i]) + [CacheKey(ns, keys[i])]
  {
  }

  /** Removing the namespace from a key the wrapper built gives back the key, for every region and suffix. */
  lemma NamespaceRoundTrip(ns: string, key: string, prefix: Option<string>, suffix: Option<string>)
    ensures RemoveNamespace(ns, AddNamespace(ns, key, prefix, suffix), prefix, suffix) == key
  {
    var p := FullPrefix(ns, prefix);
    var t := FullSuffix(suffix);
    var full := p + key + t;
    assert full[..|p|] == p;
    assert full[|p|..] == key + t;
    assert (key + t)[|key + t| - |t|..] == t;
    assert (key + t)[..|key|] == key;
  }

  /** Every physical key starts with `py_auto_cache:<ns>:`, and a cache-region key ends in `:None`. */
  lemma KeysCarryNamespace(ns: string, key: string, prefix: Option<string>, suffix: Option<string>)
    ensures GlobalNs + Sep + ns + Sep <= AddNamespace(ns, key, prefix, suffix)
    ensures EndsWith(CacheKey(ns, key), ":None")
  {
    var k := AddNamespace(ns, key, prefix, suffix);
    assert k == (GlobalNs + Sep + ns + Sep) + (Show(prefix) + Sep + key + FullSuffix(suffix));
    var c := CacheKey(ns, key);
    assert c == (FullPrefix(ns, Some(CacheRegion)) + key) + ":None";
  }

  /** Within one namespace no cache-region key is a monitoring key. */
  lemma RegionsDisjoint(ns: string, key: string, suffix: string, other: string)
    ensures CacheKey(ns, key) != MonitoringKey(ns, suffix, other)
  {
    var head := GlobalNs + Sep + ns + Sep;
    var c := CacheKey(ns, key);
    var m := MonitoringKey(ns, suffix, other);
    assert c == head + ("cache" + Sep + key + ":None");
    assert m == head + ("monitoring" + Sep + other + Sep + suffix);
    assert c[|head|] == 'c';
    assert m[|head|] == 'm';
  }

  /** The two counters and every cost sample live under different keys. */
  lemma CountersDistinct(ns: string, key: string)
    ensures HitsKey(ns) != MissesKey(ns)
    ensures MonitoringKey(ns, TimeCostSuffix, key) != HitsKey(ns)
    ensures MonitoringKey(ns, TimeCostSuffix, key) != MissesKey(ns)
  {
    var h := HitsKey(ns);
    var m := MissesKey(ns);
    var c := MonitoringKey(ns, TimeCostSuffix, key);
    assert |m| == |h| + 2;
    assert h[|h| - 1] == 's' && m[|m| - 1] == 's';
    assert c[|c| - 1] == 't';
  }

  lemma LiteralConcat(a: string, b: string)
    requires Glob.Literal(a) && Glob.Literal(b)
    ensures Glob.Literal(a + b)
  {
    forall i | 0 <= i < |a + b|
      ensures !Glob.IsSpecial((a + b)[i])
    {
      if i >= |a| {
        assert (a + b)[i] == b[i - |a|];
      }
    }
  }

  /** The cache-region prefix is literal text exactly when the namespace is. */
  lemma CachePrefixLiteral(ns: string)
    requires Glob.Literal(ns)
    ensures Glob.Literal(FullPrefix(ns, Some(CacheRegion)))
  {
    assert Glob.Literal(GlobalNs + Sep);
    LiteralConcat(GlobalNs + Sep, ns);
    assert Glob.Literal(Sep + CacheRegion + Sep);
    LiteralConcat(GlobalNs + Sep + ns, Sep + CacheRegion + Sep);
    assert FullPrefix(ns, Some(CacheRegion)) == GlobalNs + Sep + ns + (Sep + CacheRegion + Sep);
  }

  lemma MonitoringPrefixLiteral(ns: string)
    requires Glob.Literal(ns)
    ensures Glob.Literal(FullPrefix(ns, Some(MonitoringRegion)))
  {
    assert Glob.Literal(GlobalNs + Sep);
    LiteralConcat(GlobalNs + Sep, ns);
    assert Glob.Literal(Sep + MonitoringRegion + Sep);
    LiteralConcat(GlobalNs + Sep + ns, Sep + MonitoringRegion + Sep);
    assert FullPrefix(ns, Some(MonitoringRegion)) == GlobalNs + Sep + ns + (Sep + MonitoringRegion + Sep);
  }

  /**
   * `clear` spares the monitoring region: its pattern ends in the literal
   * `:None`, which no counter or cost-sample key ends in, whatever the
   * namespace holds.
   */
  lemma ClearSparesMonitoring(ns: string, suffix: string, key: string)
    requires suffix == HitsSuffix || suffix == MissesSuffix || suffix == TimeCostSuffix
    ensures !Glob.Match(ClearPattern(ns), MonitoringKey(ns, suffix, key))
  {
    var lit := ":None";
    var m := MonitoringKey(ns, suffix, key);
    var tail := Sep + suffix;
    assert ClearPattern(ns) == (FullPrefix(ns, Some(CacheRegion)) + "*") + lit;
    Glob.LiteralSuffix(FullPrefix(ns, Some(CacheRegion)) + "*", lit, m);
    assert m == (FullPrefix(ns, Some(MonitoringRegion)) + key) + tail;
    assert m[|m| - 1] == suffix[|suffix| - 1] != 'e';
    assert m[|m| - 5..][4] == m[|m| - 1];
  }

  /** With a namespace free of glob characters, `clear` takes every cache-region key of that namespace. */
  lemma ClearTakesCacheKeys(ns: string, key: string)
    requires Glob.Literal(ns)
    ensures Glob.Match(ClearPattern(ns), CacheKey(ns, key))
  {
    var p := FullPrefix(ns, Some(CacheRegion));
    var lit := ":None";
    CachePrefixLiteral(ns);
    assert ClearPattern(ns) == p + ("*" + lit);
    assert CacheKey(ns, key) == p + (key + lit);
    StarBetween(p, lit, key);
  }

  /** A `*` between a literal head and a literal tail stands for any text. */
  lemma StarBetween(p: string, lit: string, key: string)
    requires Glob.Literal(p) && Glob.Literal(lit) && Glob.NoClose(lit)
    ensures Glob.Match(p + ("*" + lit), p + (key + lit))
  {
    var c := p + (key + lit);
    Glob.LiteralPrefix(p, "*" + lit, c);
    assert c[..|p|] == p && c[|p|..] == key + lit;
    Glob.LiteralSuffix("*", lit, key + lit);
    assert (key + lit)[..|key|] == key;
    Glob.StarMatchesAll(key);
  }

  /**
   * The namespace is put into the pattern unescaped: `clear` in namespace
   * `a*` also takes the cached values of every namespace that starts with
   * `a`, such as `ab`.
   */
  lemma NamespaceNotEscaped(a: string, b: string, key: string)
    requires Glob.Literal(a)
    ensures Glob.Match(ClearPattern(a + "*"), CacheKey(a + b, key))
  {
    var head := GlobalNs + Sep + a;
    var region := Sep + CacheRegion + Sep;
    var tail := region + ("*" + ":None");
    var keyTail := region + (key + ":None");
    EscapedShapes(a, b, key);
    RegionTailMatches(key);
    Glob.StarAbsorbs(tail, b, keyTail);
    assert Glob.Literal(GlobalNs + Sep);
    LiteralConcat(GlobalNs + Sep, a);
    Glob.LiteralPrefix(head, "*" + tail, CacheKey(a + b, key));
  }

  /** How the `clear` pattern of `a*` and a cache key of `a + b` line up. */
  lemma EscapedShapes(a: string, b: string, key: string)
    ensures var head := GlobalNs + Sep + a;
      var region := Sep + CacheRegion + Sep;
      var c := CacheKey(a + b, key);
      && ClearPattern(a + "*") == head + ("*" + (region + ("*" + ":None")))
      && |head| <= |c| && c[..|head|] == head
      && c[|head|..] == b + (region + (key + ":None"))
  {
    var head := GlobalNs + Sep + a;
    var c := CacheKey(a + b, key);
    assert c == head + (b + (Sep + CacheRegion + Sep + (key + ":None")));
  }

  /** The part of the `clear` pattern after the namespace matches the rest of every cache key. */
  lemma RegionTailMatches(key: string)
    ensures Glob.Match(Sep + CacheRegion + Sep + ("*" + ":None"), Sep + CacheRegion + Sep + (key + ":None"))
  {
    var region := Sep + CacheRegion + Sep;
    assert Glob.Literal(region);
    Glob.StarMatchesAll(key);
    Glob.LiteralSuffix("*", ":None", key + ":None");
    assert (key + ":None")[..|key|] == key;
    Glob.LiteralPrefix(region, "*" + ":None", region + (key + ":None"));
    assert (region + (key + ":None"))[..|region|] == region;
    assert (region + (key + ":None"))[|region|..] == key + ":None";
  }

  /**
   * With a namespace free of glob characters, a raw key matches the
   * namespaced pattern exactly when it is the cache key of a key that
   * matches the pattern itself.
   */
  lemma NamespacedMatch(ns: string, pattern: string, raw: string)
    requires Glob.Literal(ns)
    ensures Glob.Match(CacheKey(ns, pattern), raw) <==>
      raw == CacheKey(ns, RemoveNamespace(ns, raw, Some(CacheRegion), None)) &&
      Glob.Match(pattern, RemoveNamespace(ns, raw, Some(CacheRegion), None))
  {
    var p := FullPrefix(ns, Some(CacheRegion));
    CachePrefixLiteral(ns);
    assert CacheKey(ns, pattern) == p + (pattern + ":None");
    Glob.LiteralPrefix(p, pattern + ":None", raw);
    if |p| <= |raw| && raw[..|p|] == p {
      var r := raw[|p|..];
      assert raw == p + r;
      MatchPrefixedKey(ns, pattern, r);
    } else {
      assert CacheKey(ns, RemoveNamespace(ns, raw, Some(CacheRegion), None))[..|p|] == p;
    }
  }

  /** After the cache-region prefix, the rest of the pattern matches exactly the keys that strip back. */
  lemma MatchPrefixedKey(ns: string, pattern: string, r: string)
    ensures var raw := FullPrefix(ns, Some(CacheRegion)) + r;
      var u := RemoveNamespace(ns, raw, Some(CacheRegion), None);
      Glob.Match(pattern + ":None", r) <==> raw == CacheKey(ns, u) && Glob.Match(pattern, u)
  {
    Glob.LiteralSuffix(pattern, ":None", r);
    if EndsWith(r, ":None") {
      MatchTaggedKey(ns, pattern, r);
    } else {
      MatchUntaggedKey(ns, r);
    }
  }

  /** A raw key `prefix + r` whose `r` ends in `:None` is the cache key of `r` without it. */
  lemma MatchTaggedKey(ns: string, pattern: string, r: string)
    requires EndsWith(r, ":None")
    ensures var p := FullPrefix(ns, Some(CacheRegion));
      var u := r[..|r| - 5];
      && RemoveNamespace(ns, p + r, Some(CacheRegion), None) == u
      && p + r == CacheKey(ns, u)
  {
    var p := FullPrefix(ns, Some(CacheRegion));
    var u := r[..|r| - 5];
    assert (p + r)[..|p|] == p && (p + r)[|p|..] == r;
    assert RemovePrefix(p + r, p) == r;
    assert r == u + ":None";
  }

  /** A raw key `prefix + r` whose `r` does not end in `:None` is no cache key. */
  lemma MatchUntaggedKey(ns: string, r: string)
    requires !EndsWith(r, ":None")
    ensures var p := FullPrefix(ns, Some(CacheRegion));
      p + r != CacheKey(ns, RemoveNamespace(ns, p + r, Some(CacheRegion), None))
  {
    var p := FullPrefix(ns, Some(CacheRegion));
    assert (p + r)[..|p|] == p && (p + r)[|p|..] == r;
    assert RemovePrefix(p + r, p) == r;
    assert RemoveNamespace(ns, p + r, Some(CacheRegion), None) == r;
    assert |CacheKey(ns, r)| == |p + r| + 5;
  }

  /**
   * With a namespace free of glob characters, `get_keys(pattern)` lists
   * exactly the keys `k` matching `pattern` whose cache key is stored.
   */
  lemma GetKeysExact(ns: string, s: Store, pattern: string, raw: seq<string>)
    requires Glob.Literal(ns)
    requires Enumerates(raw, MatchingKeys(s, CacheKey(ns, pattern)))
    ensures forall k :: k in StripCache(ns, raw) <==> CacheKey(ns, k) in s && Glob.Match(pattern, k)
  {
    var keys := StripCache(ns, raw);
    forall k
      ensures k in keys <==> CacheKey(ns, k) in s && Glob.Match(pattern, k)
    {
      if k in keys {
        var i :| 0 <= i < |keys| && keys[i] == k;
        assert raw[i] in MatchingKeys(s, CacheKey(ns, pattern));
        NamespacedMatch(ns, pattern, raw[i]);
      }
      if CacheKey(ns, k) in s && Glob.Match(pattern, k) {
        var c := CacheKey(ns, k);
        NamespaceRoundTrip(ns, k, Some(CacheRegion), None);
        NamespacedMatch(ns, pattern, c);
        assert c in MatchingKeys(s, CacheKey(ns, pattern));
        var i :| 0 <= i < |raw| && raw[i] == c;
        assert keys[i] == k;
      }
    }
  }

  // ---------------------------------------------------------------------
  // Host strings

  /** Index of the first ':' in `s`. */
  function FirstColon(s: string): (r: Option<nat>)
    ensures r.Some? ==> r.value < |s| && s[r.value] == ':' && ':' !in s[..r.value]
    ensures r.None? ==> ':' !in s
  {
    if s == [] then None
    else if s[0] == ':' then Some(0)
    else match FirstColon(s[1..])
      case None => None
      case Some(i) => assert s[..i + 1] == [s[0]] + s[1..][..i]; Some(i + 1)
  }

  /** `s.split(':')`. */
  function Split(s: string): (parts: seq<string>)
    ensures |parts| >= 1
    decreases |s|
  {
    match FirstColon(s)
    case None => [s]
    case Some(i) => [s[..i]] + Split(s[i + 1..])
  }

  /** `split` gives one part more than there are separators. */
  lemma {:induction false} SplitCount(s: string)
    ensures |Split(s)| == multiset(s)[':'] + 1
    decreases |s|
  {
    match FirstColon(s)
    case None =>
    case Some(i) =>
      SplitCount(s[i + 1..]);
      assert s == s[..i] + [':'] + s[i + 1..];
      assert multiset(s) == multiset(s[..i]) + multiset{':'} + multiset(s[i + 1..]);
      assert multiset(s[..i])[':'] == 0;
  }

  /**
   * `_convert_host`: `host` alone means port 6379, `host:port` parses the
   * port with `int`, and a third part is a HostError.
   */
  function ConvertHost(host: string): Result<(string, int)>
  {
    var parts := Split(host);
    if |parts| == 1 then Success((parts[0], DefaultPort))
    else if |parts| == 2 then
      match Decimal.ParseInt(parts[1])
      case None => Failure(InvalidLiteral)
      case Some(port) => Success((parts[0], port))
    else Failure(HostError)
  }

  lemma ConvertHostPlain(host: string)
    requires ':' !in host
    ensures ConvertHost(host) == Success((host, DefaultPort))
  {
  }

  lemma ConvertHostPort(host: string, port: int)
    requires ':' !in host
    ensures ConvertHost(host + ":" + Decimal.IntToString(port)) == Success((host, port))
  {
    var t := Decimal.IntToString(port);
    var s := host + ":" + t;
    assert s[..|host|] == host && s[|host|] == ':';
    assert s[|host| + 1..] == t;
    NoColonInInt(port);
    assert Split(s) == [host, t];
    Decimal.IntRoundTrip(port);
  }

  lemma NoColonInInt(i: int)
    ensures ':' !in Decimal.IntToString(i)
  {
    var t := Decimal.IntToString(i);
    if i < 0 {
      var d := Decimal.NatToString(-i);
      assert t == "-" + d;
      forall k | 0 <= k < |t|
        ensures t[k] != ':'
      {
        if k > 0 {
          assert t[k] == d[k - 1];
        }
      }
    }
  }

  /** A host string with two or more ':' is refused, whatever its parts are. */
  lemma ConvertHostRejects(host: string)
    requires multiset(host)[':'] >= 2
    ensures ConvertHost(host) == Failure(HostError)
  {
    SplitCount(host);
  }

  // ---------------------------------------------------------------------
  // Counters and hit rate

  /** `int(value or 0)`: absent and empty read as 0, anything else must parse. */
  function CounterValue(v: Option<string>): Result<int>
  {
    if v.None? || v.value == "" then Success(0)
    else match Decimal.ParseInt(v.value)
      case None => Failure(InvalidLiteral)
      case Some(n) => Success(n)
  }

  /** `hits()` / `misses()` on a store: the counter read, and the store after that `get`. */
  function ReadCounterSpec(s: Store, counter: string, now: int): (Result<int>, Store)
  {
    (CounterValue(Lookup(s, counter, now)), Reap(s, counter, now))
  }

  /** `hits / (hits + misses)`, and 0 when there were no reads. */
  function Rate(hits: int, misses: int): real
  {
    if hits + misses == 0 then 0.0 else hits as real / (hits + misses) as real
  }

  function HitRateSpec(ns: string, s: Store, now: int): (Result<real>, Store)
  {
    var (h, s1) := ReadCounterSpec(s, HitsKey(ns), now);
    if h.Failure? then (Failure(h.error), s1)
    else
      var (m, s2) := ReadCounterSpec(s1, MissesKey(ns), now);
      if m.Failure? then (Failure(m.error), s2)
      else (Success(Rate(h.value, m.value)), s2)
  }

  lemma RateExample()
    ensures Rate(1, 3) == 0.25
    ensures Rate(0, 0) == 0.0
  {
  }

  /** For counts that are not negative the rate is a fraction, and hit rate plus miss rate is 1. */
  lemma RateBounds(hits: int, misses: int)
    requires 0 <= hits && 0 <= misses
    ensures 0.0 <= Rate(hits, misses) <= 1.0
    ensures hits + misses > 0 ==> Rate(hits, misses) + Rate(misses, hits) == 1.0
  {
    if hits + misses > 0 {
      var t := (hits + misses) as real;
      assert hits as real <= t;
      assert Rate(hits, misses) == hits as real / t;
      assert Rate(misses, hits) == misses as real / t;
      assert hits as real / t + misses as real / t == (hits as real + misses as real) / t;
    }
  }

  /** Both counters hold counts: absent, or a digit string. */
  predicate CountersSound(ns: string, s: Store, now: int)
  {
    && (Lookup(s, HitsKey(ns), now).None? || Decimal.IsDigitString(Lookup(s, HitsKey(ns), now).value))
    && (Lookup(s, MissesKey(ns), now).None? || Decimal.IsDigitString(Lookup(s, MissesKey(ns), now).value))
  }

  /** The count a sound counter holds. */
  function Counted(s: Store, counter: string, now: int): nat
    requires Lookup(s, counter, now).None? || Decimal.IsDigitString(Lookup(s, counter, now).value)
  {
    if Lookup(s, counter, now).None? then 0 else Decimal.ValueOf(Lookup(s, counter, now).value)
  }

  /** `hits()` and `misses()` read a sound counter as the count it holds. */
  lemma ReadSoundCounter(ns: string, s: Store, now: int)
    requires CountersSound(ns, s, now)
    ensures ReadCounterSpec(s, HitsKey(ns), now).0 == Success(Counted(s, HitsKey(ns), now))
    ensures ReadCounterSpec(s, MissesKey(ns), now).0 == Success(Counted(s, MissesKey(ns), now))
  {
    if Lookup(s, HitsKey(ns), now).Some? {
      Decimal.DigitStringParses(Lookup(s, HitsKey(ns), now).value);
    }
    if Lookup(s, MissesKey(ns), now).Some? {
      Decimal.DigitStringParses(Lookup(s, MissesKey(ns), now).value);
    }
  }

  // ---------------------------------------------------------------------
  // get and set through the wrapper

  /**
   * `get(key)`: the backend's value for the cache key, after which the misses
   * counter (value absent) or the hits counter (value present) is increased.
   */
  function WrapperGetSpec(ns: string, s: Store, key: string, now: int): (Result<Option<string>>, Store)
  {
    var (v, s1) := GetSpec(s, CacheKey(ns, key), now);
    var (c, s2) := IncreaseSpec(s1, if v.None? then MissesKey(ns) else HitsKey(ns), 1, now);
    if c.Failure? then (Failure(c.error), s2) else (Success(v), s2)
  }

  /** `set(...)`: the default expiry is used only when no expiry is given; the flags pass unchanged. */
  function WrapperSetSpec(ns: string, defaultExpiry: Option<int>, s: Store, key: string, value: string,
                          expire: Option<int>, onlyIfNew: bool, onlyIfOld: bool, now: int): (Result<bool>, Store)
  {
    SetSpec(s, CacheKey(ns, key), value, if expire.None? then defaultExpiry else expire, onlyIfNew, onlyIfOld, now)
  }

  /** Memoizing a piece adds its key to the memo's key set. */
  lemma UpdateKeys<K, V>(m: map<K, V>, k: K, v: V)
    ensures m[k := v].Keys == m.Keys + {k}
  {
  }

  /** One step of a sound counter: reading it back gives one more, and it stays a digit string. */
  lemma CountStepUp(s: Store, counter: string, now: int)
    requires Lookup(s, counter, now).None? || Decimal.IsDigitString(Lookup(s, counter, now).value)
    ensures var (c, s') := IncreaseSpec(s, counter, 1, now);
      && c.Success?
      && Lookup(s', counter, now) == Some(c.value)
      && Decimal.IsDigitString(c.value)
      && Decimal.ValueOf(c.value) == Counted(s, counter, now) + 1
  {
    var n := Counted(s, counter, now);
    if Lookup(s, counter, now).None? {
      IncreaseAbsentKey(s, counter, 1, now);
    } else {
      IncreaseDigitValue(s, counter, 1, now);
    }
    Decimal.ValueOfNatToString(n + 1);
  }

  /**
   * Each `get` returns the backend's value unchanged and increases exactly
   * one counter by one: misses when the value is absent, hits otherwise.
   * Nothing else changes but the reaping of the cache key.
   */
  lemma GetCountsOnce(ns: string, s: Store, key: string, now: int)
    requires CountersSound(ns, s, now)
    ensures var (r, s') := WrapperGetSpec(ns, s, key, now);
      && r == Success(Lookup(s, CacheKey(ns, key), now))
      && CountersSound(ns, s', now)
      && Counted(s', HitsKey(ns), now) == Counted(s, HitsKey(ns), now) + (if r.value.Some? then 1 else 0)
      && Counted(s', MissesKey(ns), now) == Counted(s, MissesKey(ns), now) + (if r.value.None? then 1 else 0)
      && (forall k, t | k != HitsKey(ns) && k != MissesKey(ns) && now <= t :: Lookup(s', k, t) == Lookup(s, k, t))
  {
    var ck := CacheKey(ns, key);
    var v := Lookup(s, ck, now);
    var s1 := Reap(s, ck, now);
    var counter := if v.None? then MissesKey(ns) else HitsKey(ns);
    var other := if v.None? then HitsKey(ns) else MissesKey(ns);
    RegionsDisjoint(ns, key, HitsSuffix, "*");
    RegionsDisjoint(ns, key, MissesSuffix, "*");
    CountersDistinct(ns, "");
    ReapElsewhere(s, ck, now, counter, now);
    ReapElsewhere(s, ck, now, other, now);
    CountStepUp(s1, counter, now);
    IncreaseElsewhere(s1, counter, 1, now, other, now);
    var s2 := IncreaseSpec(s1, counter, 1, now).1;
    forall k, t | k != HitsKey(ns) && k != MissesKey(ns) && now <= t
      ensures Lookup(s2, k, t) == Lookup(s, k, t)
    {
      IncreaseElsewhere(s1, counter, 1, now, k, t);
      ReapUnobservable(s, ck, now, k, t);
    }
  }

  /** Soundness of the counters does not depend on how late they are read. */
  lemma SoundLater(ns: string, s: Store, now: int, later: int)
    requires now <= later && CountersSound(ns, s, now)
    ensures CountersSound(ns, s, later)
  {
  }

  /** A write through the wrapper that happened is what the next `get` returns until its ttl runs out. */
  lemma WrapperSetThenGet(ns: string, defaultExpiry: Option<int>, s: Store, key: string, value: string,
                          expire: Option<int>, onlyIfNew: bool, onlyIfOld: bool, now: int, later: int)
    requires WrapperSetSpec(ns, defaultExpiry, s, key, value, expire, onlyIfNew, onlyIfOld, now).0 == Success(true)
    requires now <= later
    requires CountersSound(ns, s, now)
    ensures var s' := WrapperSetSpec(ns, defaultExpiry, s, key, value, expire, onlyIfNew, onlyIfOld, now).1;
      var ttl := if expire.None? then defaultExpiry else expire;
      && s'[CacheKey(ns, key)] == Entry(value, now, ttl)
      && CountersSound(ns, s', later)
      && WrapperGetSpec(ns, s', key, later).0 == Success(if ttl.Some? && later - now > ttl.value then None else Some(value))
  {
    var ttl := if expire.None? then defaultExpiry else expire;
    var ck := CacheKey(ns, key);
    var s' := WrapperSetSpec(ns, defaultExpiry, s, key, value, expire, onlyIfNew, onlyIfOld, now).1;
    SetThenGet(s, ck, value, ttl, onlyIfNew, onlyIfOld, now, later);
    RegionsDisjoint(ns, key, HitsSuffix, "*");
    RegionsDisjoint(ns, key, MissesSuffix, "*");
    SetElsewhere(s, ck, value, ttl, onlyIfNew, onlyIfOld, now, HitsKey(ns), later);
    SetElsewhere(s, ck, value, ttl, onlyIfNew, onlyIfOld, now, MissesKey(ns), later);
    SoundLater(ns, s, now, later);
    GetCountsOnce(ns, s', key, later);
  }

  // ---------------------------------------------------------------------
  // The wrapper object

  class CacheWrapper {
    const namespace: string
    const defaultExpiry: Option<int>
    const backend: Backends.Backend
    const missesKey: string
    const hitsKey: string
    /** `_namespace_prefix` and `_namespace_suffix`, filled on first use. */
    var prefixMemo: map<Option<string>, string>
    var suffixMemo: map<Option<string>, string>

    ghost predicate Valid()
      reads this
    {
      && namespace != "default"
      && Backends.Valid(backend)
      && missesKey == MissesKey(namespace)
      && hitsKey == HitsKey(namespace)
      && (forall p | p in prefixMemo :: prefixMemo[p] == FullPrefix(namespace, p))
      && (forall x | x in suffixMemo :: suffixMemo[x] == FullSuffix(x))
    }

    /** The cache reads and writes go to. */
    function Primary(): DictCache
      requires Backends.Valid(backend)
    {
      Backends.Primary(backend)
    }

    /** The memos have gained (at most) the given prefix and suffix, each with its formatted text. */
    twostate predicate Memoizes(prefix: Option<string>, suffix: Option<string>)
      reads this
    {
      && prefixMemo == old(prefixMemo)[prefix := FullPrefix(namespace, prefix)]
      && suffixMemo == old(suffixMemo)[suffix := FullSuffix(suffix)]
    }

    /** Both pieces are memoized already, so formatting them again changes nothing. */
    predicate HasMemo(prefix: Option<string>, suffix: Option<string>)
      reads this
    {
      prefix in prefixMemo && suffix in suffixMemo
    }

    /** The memos hold exactly what they held before plus the given prefixes and suffixes. */
    twostate predicate MemoGained(prefixes: set<Option<string>>, suffixes: set<Option<string>>)
      reads this
    {
      && prefixMemo.Keys == old(prefixMemo.Keys) + prefixes
      && suffixMemo.Keys == old(suffixMemo.Keys) + suffixes
    }

    constructor Make(ns: string, expiry: Option<int>, b: Backends.Backend)
      requires ns != "default" && Backends.Valid(b)
      ensures namespace == ns && defaultExpiry == expiry && backend == b
      ensures prefixMemo == map[Some(MonitoringRegion) := FullPrefix(ns, Some(MonitoringRegion))]
      ensures suffixMemo == map[Some(MissesSuffix) := FullSuffix(Some(MissesSuffix)),
                                Some(HitsSuffix) := FullSuffix(Some(HitsSuffix))]
      ensures Valid()
    {
      namespace := ns;
      defaultExpiry := expiry;
      backend := b;
      missesKey := MissesKey(ns);
      hitsKey := HitsKey(ns);
      prefixMemo := map[];
      suffixMemo := map[];
      new;
      var _ := AddMonitoringNamespace(MissesSuffix, "*");
      var _ := AddMonitoringNamespace(HitsSuffix, "*");
    }

    /**
     * `CacheWrapper(namespace, default_expiry, wrapped_cache)`: the namespace
     * `default` is refused, and with no cache given a new in-memory one is used.
     */
    static method New(ns: string, expiry: Option<int>, wrapped: Option<Backends.Backend>)
      returns (r: Result<CacheWrapper>)
      requires wrapped.Some? ==> Backends.Valid(wrapped.value)
      ensures r.Failure? <==> ns == "default"
      ensures r.Failure? ==> r.error == DefaultNamespace
      ensures r.Success? ==> fresh(r.value) && r.value.Valid()
      ensures r.Success? ==> r.value.namespace == ns && r.value.defaultExpiry == expiry
      ensures r.Success? && wrapped.Some? ==> r.value.backend == wrapped.value
      ensures r.Success? && wrapped.None? ==>
        r.value.backend.Local? && fresh(r.value.backend.cache) && r.value.backend.cache.store == map[]
    {
      if ns == "default" {
        return Failure(DefaultNamespace);
      }
      var b: Backends.Backend;
      if wrapped.None? {
        var c := new DictCache();
        b := Backends.Local(c);
      } else {
        b := wrapped.value;
      }
      var w := new CacheWrapper.Make(ns, expiry, b);
      return Success(w);
    }

    method GetFullPrefix(prefix: Option<string>) returns (r: string)
      requires Valid()
      modifies this
      ensures r == FullPrefix(namespace, prefix)
      ensures prefixMemo == old(prefixMemo)[prefix := r] && suffixMemo == old(suffixMemo)
      ensures old(prefix in prefixMemo) ==> prefixMemo == old(prefixMemo)
      ensures Valid()
    {
      if prefix !in prefixMemo {
        prefixMemo := prefixMemo[prefix := GlobalNs + Sep + namespace + Sep + Show(prefix) + Sep];
      }
      r := prefixMemo[prefix];
    }

    method GetFullSuffix(suffix: Option<string>) returns (r: string)
      requires Valid()
      modifies this
      ensures r == FullSuffix(suffix)
      ensures suffixMemo == old(suffixMemo)[suffix := r] && prefixMemo == old(prefixMemo)
      ensures old(suffix in suffixMemo) ==> suffixMemo == old(suffixMemo)
      ensures Valid()
    {
      if suffix !in suffixMemo {
        suffixMemo := suffixMemo[suffix := Sep + Show(suffix)];
      }
      r := suffixMemo[suffix];
    }

    method AddNamespaceToKey(key: string, prefix: Option<string>, suffix: Option<string>) returns (r: string)
      requires Valid()
      modifies this
      ensures r == AddNamespace(namespace, key, prefix, suffix)
      ensures Memoizes(prefix, suffix) && Valid()
      ensures old(HasMemo(prefix, suffix)) ==> prefixMemo == old(prefixMemo) && suffixMemo == old(suffixMemo)
    {
      var p := GetFullPrefix(prefix);
      var s := GetFullSuffix(suffix);
      r := p + key + s;
    }

    method RemoveNamespaceFromKey(key: string, prefix: Option<string>, suffix: Option<string>) returns (r: string)
      requires Valid()
      modifies this
      ensures r == RemoveNamespace(namespace, key, prefix, suffix)
      ensures Memoizes(prefix, suffix) && Valid()
      ensures old(HasMemo(prefix, suffix)) ==> prefixMemo == old(prefixMemo) && suffixMemo == old(suffixMemo)
    {
      var p := GetFullPrefix(prefix);
      var s := GetFullSuffix(suffix);
      r := RemoveSuffix(RemovePrefix(key, p), s);
    }

    method AddCacheNamespace(key: string) returns (r: string)
      requires Valid()
      modifies this
      ensures r == CacheKey(namespace, key)
      ensures Memoizes(Some(CacheRegion), None) && Valid()
      ensures old(HasMemo(Some(CacheRegion), None)) ==> prefixMemo == old(prefixMemo) && suffixMemo == old(suffixMemo)
    {
      r := AddNamespaceToKey(key, Some(CacheRegion), None);
    }

    method RemoveCacheNamespace(key: string) returns (r: string)
      requires Valid()
      modifies this
      ensures r == RemoveNamespace(namespace, key, Some(CacheRegion), None)
      ensures Memoizes(Some(CacheRegion), None) && Valid()
      ensures old(HasMemo(Some(CacheRegion), None)) ==> prefixMemo == old(prefixMemo) && suffixMemo == old(suffixMemo)
    {
      r := RemoveNamespaceFromKey(key, Some(CacheRegion), None);
    }

    method AddMonitoringNamespace(suffix: string, key: string) returns (r: string)
      requires Valid()
      modifies this
      ensures r == MonitoringKey(namespace, suffix, key)
      ensures Memoizes(Some(MonitoringRegion), Some(suffix)) && Valid()
    {
      r := AddNamespaceToKey(key, Some(MonitoringRegion), Some(suffix));
    }

    method RemoveMonitoringNamespace(suffix: string, key: string) returns (r: string)
      requires Valid()
      modifies this
      ensures r == RemoveNamespace(namespace, key, Some(MonitoringRegion), Some(suffix))
      ensures Memoizes(Some(MonitoringRegion), Some(suffix)) && Valid()
    {
      r := RemoveNamespaceFromKey(key, Some(MonitoringRegion), Some(suffix));
    }

    /** `_keys_with_namespace`: the backend's listing for the namespaced pattern. */
    method KeysWithNamespace(pattern: string, prefix: Option<string>, suffix: Option<string>)
      returns (raw: seq<string>)
      requires Valid()
      modifies this
      ensures Enumerates(raw, MatchingKeys(Primary().store, AddNamespace(namespace, pattern, prefix, suffix)))
      ensures Memoizes(prefix, suffix) && Valid()
    {
      var p := AddNamespaceToKey(pattern, prefix, suffix);
      raw := Backends.GetKeys(backend, p);
    }

    /** `_monitoring_keys_with_namespace`: the backend's listing for a monitoring-region pattern. */
    method MonitoringKeysWithNamespace(suffix: string, pattern: string) returns (raw: seq<string>)
      requires Valid()
      modifies this
      ensures Enumerates(raw, MatchingKeys(Primary().store, MonitoringKey(namespace, suffix, pattern)))
      ensures Memoizes(Some(MonitoringRegion), Some(suffix)) && Valid()
    {
      raw := KeysWithNamespace(pattern, Some(MonitoringRegion), Some(suffix));
    }

    method Get(key: string, now: int) returns (r: Result<Option<string>>)
      requires Valid()
      modifies this, Primary()
      ensures (r, Primary().store) == WrapperGetSpec(namespace, old(Primary().store), key, now)
      ensures Memoizes(Some(CacheRegion), None) && Valid()
    {
      var k := AddCacheNamespace(key);
      var value := Backends.Get(backend, k, now);
      var counted: Result<string>;
      if value.None? {
        counted := Backends.Increase(backend, missesKey, 1, now);
      } else {
        counted := Backends.Increase(backend, hitsKey, 1, now);
      }
      if counted.Failure? {
        return Failure(counted.error);
      }
      return Success(value);
    }

    method Set(key: string, value: string, expire: Option<int>, onlyIfNew: bool, onlyIfOld: bool, now: int)
      returns (r: Result<bool>)
      requires Valid()
      modifies this, Primary()
      ensures (r, Primary().store) ==
        WrapperSetSpec(namespace, defaultExpiry, old(Primary().store), key, value, expire, onlyIfNew, onlyIfOld, now)
      ensures Memoizes(Some(CacheRegion), None) && Valid()
    {
      var k := AddCacheNamespace(key);
      r := Backends.Set(backend, k, value, if expire.None? then defaultExpiry else expire, onlyIfNew, onlyIfOld, now);
    }

    method Hits(now: int) returns (r: Result<int>)
      requires Valid()
      modifies Primary()
      ensures (r, Primary().store) == ReadCounterSpec(old(Primary().store), HitsKey(namespace), now)
    {
      var v := Backends.Get(backend, hitsKey, now);
      r := CounterValue(v);
    }

    method Misses(now: int) returns (r: Result<int>)
      requires Valid()
      modifies Primary()
      ensures (r, Primary().store) == ReadCounterSpec(old(Primary().store), MissesKey(namespace), now)
    {
      var v := Backends.Get(backend, missesKey, now);
      r := CounterValue(v);
    }

    method HitRate(now: int) returns (r: Result<real>)
      requires Valid()
      modifies Primary()
      ensures (r, Primary().store) == HitRateSpec(namespace, old(Primary().store), now)
    {
      var hits := Hits(now);
      if hits.Failure? {
        return Failure(hits.error);
      }
      var misses := Misses(now);
      if misses.Failure? {
        return Failure(misses.error);
      }
      var count := hits.value + misses.value;
      if count == 0 {
        return Success(0.0);
      }
      return Success(hits.value as real / (hits.value + misses.value) as real);
    }

    /** `memory_size()`: the backend's size of the raw keys `get_keys` would list for `*`. */
    method MemorySize(now: int) returns (size: nat, raw: seq<string>)
      requires Valid()
      modifies this, Primary()
      ensures Enumerates(raw, MatchingKeys(old(Primary().store), CacheKey(namespace, "*")))
      ensures (size, Primary().store) == MemorySizeSpec(old(Primary().store), raw, now)
      ensures Memoizes(Some(CacheRegion), None) && Valid()
    {
      raw := KeysWithNamespace("*", Some(CacheRegion), None);
      size := Backends.MemorySize(backend, raw, now);
    }

    /** `get_keys(pattern)`: the raw matches of the namespaced pattern, namespace stripped. */
    method GetKeys(pattern: string) returns (keys: seq<string>, raw: seq<string>)
      requires Valid()
      modifies this
      ensures Enumerates(raw, MatchingKeys(Primary().store, CacheKey(namespace, pattern)))
      ensures keys == StripCache(namespace, raw)
      ensures Memoizes(Some(CacheRegion), None) && Valid()
    {
      raw := KeysWithNamespace(pattern, Some(CacheRegion), None);
      ghost var store := Primary().store;
      keys := [];
      var i := 0;
      while i < |raw|
        invariant 0 <= i <= |raw|
        invariant keys == StripCache(namespace, raw[..i])
        invariant Memoizes(Some(CacheRegion), None) && HasMemo(Some(CacheRegion), None) && Valid()
        invariant Primary().store == store
      {
        var k := RemoveCacheNamespace(raw[i]);
        StripSnoc(namespace, raw, i);
        keys := keys + [k];
        i := i + 1;
      }
      assert raw[..i] == raw;
    }

    /** The list comprehension of `delete`: the cache key of each key, in order. */
    method AddCacheNamespaces(keys: seq<string>) returns (raw: seq<string>)
      requires Valid()
      modifies this
      ensures raw == CacheKeys(namespace, keys)
      ensures if keys == [] then prefixMemo == old(prefixMemo) && suffixMemo == old(suffixMemo)
              else Memoizes(Some(CacheRegion), None)
      ensures Valid()
    {
      if keys == [] {
        return [];
      }
      var first := AddCacheNamespace(keys[0]);
      raw := [first];
      var i := 1;
      while i < |keys|
        invariant 1 <= i <= |keys|
        invariant raw == CacheKeys(namespace, keys[..i])
        invariant Memoizes(Some(CacheRegion), None) && HasMemo(Some(CacheRegion), None) && Valid()
      {
        var k := AddCacheNamespace(keys[i]);
        CacheKeysSnoc(namespace, keys, i);
        raw := raw + [k];
        i := i + 1;
      }
      assert keys[..i] == keys;
    }

    /** `delete(*keys)`: the cache keys of `keys` are deleted from every member of the backend. */
    method Delete(keys: seq<string>)
      requires Valid()
      modifies this, Backends.Footprint(backend)
      ensures forall m | m in Backends.Members(backend) :: m.store == DeleteSpec(old(m.store), CacheKeys(namespace, keys)).1
      ensures if keys == [] then prefixMemo == old(prefixMemo) && suffixMemo == old(suffixMemo)
              else Memoizes(Some(CacheRegion), None)
      ensures Valid()
    {
      var raw := AddCacheNamespaces(keys);
      assert forall m | m in Backends.Members(backend) :: m.store == old(m.store);
      Backends.Delete(backend, raw);
    }

    /** `clear()`: every member of the backend is cleared of the cache-region pattern. */
    method Clear()
      requires Valid()
      modifies this, Backends.Footprint(backend)
      ensures forall m | m in Backends.Members(backend) :: m.store == ClearSpec(old(m.store), ClearPattern(namespace)).1
      ensures Memoizes(Some(CacheRegion), None) && Valid()
    {
      var p := AddCacheNamespace("*");
      Backends.Clear(backend, p);
    }
  }
}
