# py_auto_cache, modelled in Dafny

py_auto_cache memoizes Python function calls in a key-value cache. It has five layers, and this project models each one:

- **Storage contract** (`cache.py`). The abstract `Cache` gives default bodies for `increase`, `multi_get`, `clear` and `memory_size`, built on `get`, `set`, `delete` and `get_keys`.
- **In-memory backend** (`caches/dict_cache.py`). A dict from key to `(value, stored_at, ttl)`. Expiry is lazy: `get` drops an expired entry when it finds one.
- **Dispatcher** (`caches/dispatcher.py`). A non-empty list of backends.
  - Reads, writes, increments and listing go to the first backend.
  - `delete` and `clear` go to every backend.
- **Namespacing wrapper** (`cache_wrapper.py`).
  - It builds physical keys `py_auto_cache:<namespace>:<region>:<key>:<suffix>` and memoizes their prefix and suffix strings.
  - It counts hits and misses on every `get`, and reports a hit rate.
  - It also parses `host[:port]` strings.
- **Memoization layer** (`auto_cache.py`).
  - A call of a decorated function is looked up under a key made of the module name, the function name and the pickled arguments.
  - A miss, or a call with `update_auto_cache=True`, runs the function. It stores the pickled result and a cost sample under that key.
  - A function that raises `DoNotCacheException` returns its payload and nothing is stored.
  - A registry hands out one instance per (namespace, expiry, wrapped cache).

Modules, in dependency order:

- `Outcomes`: `Option`, `Result`, and the errors that the Python code raises.
- `Decimal`: `str(int)` and integer parsing.
- `Glob`: `fnmatch`.
- `Pickle`: a stand-in for `pickle`, proved to round-trip.
- `CacheDefaults`: the pure parts of `cache.py`.
- `DictCaches`: the in-memory backend.
- `Dispatchers`: the dispatcher.
- `Backends`: "any cache the wrapper can hold".
- `CacheWrappers`: the namespacing wrapper.
- `AutoCaches`: the memoization layer.

Each state-changing operation has two parts:

- a method on a class whose fields are the state the Python object mutates:
  - `DictCache.store`;
  - the wrapper's two memo maps;
  - the decorator map of `AutoCache`;
  - the registry's instance map;
- a function of the old state giving the result and the new state, such as `SetSpec` or `CallSpec`.

The method's `ensures` ties it to that function. The lemmas state what the function means.

The clock is an explicit `now` argument, and `time.time()` is not modelled. A memoized function is given as what it does when called:

- `Returned(v)`: it returned `v`;
- `DoNotCache(v)`: it raised `DoNotCacheException(v)`.

`Call` also reports whether the function ran.

The model follows the code where the code and its doc comments differ:

- **Cache-region keys end in `:None`.** `'{suffix}'.format(suffix=None)` writes the text `None`, so a key with no suffix still gets one.
- **Globbing is Python 2's `fnmatch`.**
  - It supports `*`, `?` and bracket classes with `!`, ranges and a leading `]`.
  - An unclosed `[` is a literal.
  - There is no backslash escape, although the `get_keys` doc comment mentions one.
- **`_remove_suffix` with an empty suffix returns `key[:-0]`, the empty string.** The wrapper never passes an empty suffix.
- **The namespace is not escaped inside a glob pattern.** This holds for every listing through `_keys_with_namespace`, not only for `clear`. For any glob-free namespace `a`, in namespace `a*`:
  - `clear` also clears the cache keys of every namespace that starts with `a`, such as `ab` (`NamespaceNotEscaped`);
  - `time_cost_average` also averages the cost samples of `ab`;
  - `memory_size` also counts the cache keys of `ab`;
  - `get_keys` also returns the keys of `ab`, with only the `:None` suffix removed, because the `a*` prefix does not match them.

## Model

| member | source | states |
|---|---|---|
| CacheDefaults.IncreaseAbsent | lib/py_auto_cache/cache.py:123-125 | `increase` of an absent key yields `str(amount)`, which parses back to `amount` |
| CacheDefaults.IncreaseDigits | lib/py_auto_cache/cache.py:126-127 | on a digit string `v` the new value parses to `int(v) + amount` |
| CacheDefaults.IncreaseFailsExactly | lib/py_auto_cache/cache.py:126-129 | the increase fails exactly when a value is present and is not a digit string; `""` and `"-3"` fail with NotAnInteger |
| CacheDefaults.IncreaseKeepsCounting | lib/py_auto_cache/cache.py:123-127 | increasing an absent counter or a digit string by a non-negative amount succeeds and gives a digit string again |
| CacheDefaults.CalculateSizeAppend | lib/py_auto_cache/cache.py:174-175 | `_calculate_size` of a concatenation is the sum of the sizes |
| CacheDefaults.KeysSize | lib/py_auto_cache/cache.py:171-175 | the size of a key list is the total length of its keys |
| CacheDefaults.CalculateSizeSkipsAbsent | lib/py_auto_cache/cache.py:174-175 | a `None` item adds nothing to the size |
| Decimal.IntRoundTrip | lib/py_auto_cache/cache.py:125-127 | parsing `str(i)` gives back `i`, for every integer |
| Decimal.ValueOfNatToString | lib/py_auto_cache/cache.py:127 | the digits `str(n)` writes denote `n` |
| Decimal.DigitStringParses | lib/py_auto_cache/cache.py:126-127 | `int(v)` of a digit string is the number its digits denote |
| Glob.LiteralMatch | lib/py_auto_cache/caches/dict_cache.py:92 | a pattern without `*`, `?`, `[` matches exactly itself |
| Glob.LiteralPrefix | lib/py_auto_cache/caches/dict_cache.py:92 | a literal head of a pattern must be the head of the key, and the rest of the pattern matches the rest of the key (both directions) |
| Glob.LiteralSuffix | lib/py_auto_cache/caches/dict_cache.py:92 | a literal tail of a pattern without `]` must be the tail of the key, and the rest matches the rest (both directions) |
| Glob.StarAbsorbs | lib/py_auto_cache/caches/dict_cache.py:92 | a leading `*` lets any text come before a match |
| Glob.StarMatchesAll | lib/py_auto_cache/caches/dict_cache.py:92 | `*` matches every key |
| Pickle.RoundTrip | lib/py_auto_cache/auto_cache.py:183-204 | `loads(dumps(v)) == v` for every modelled value |
| Pickle.EncodeInjective | lib/py_auto_cache/auto_cache.py:165 | different values pickle to different strings |
| DictCaches.DictCache.constructor | lib/py_auto_cache/caches/dict_cache.py:45-47 | a new cache is empty |
| DictCaches.DictCache.Get | lib/py_auto_cache/caches/dict_cache.py:50-58 | result and new store are those of `GetSpec` |
| DictCaches.DictCache.Set | lib/py_auto_cache/caches/dict_cache.py:61-77 | result and new store are those of `SetSpec` |
| DictCaches.DictCache.Delete | lib/py_auto_cache/caches/dict_cache.py:80-87 | the count loop computes `DeleteSpec` key by key |
| DictCaches.DictCache.GetKeys | lib/py_auto_cache/caches/dict_cache.py:90-92 | lists each stored key that matches the pattern exactly once, expired ones included, and changes nothing |
| DictCaches.DictCache.Increase | lib/py_auto_cache/caches/dict_cache.py:95-97 | result and new store are those of `IncreaseSpec`, which is `get`, the default decision and a `set` with no ttl |
| DictCaches.DictCache.MultiGet | lib/py_auto_cache/caches/dict_cache.py:100-102 | one `get` per key in order (`MultiGetSpec`) |
| DictCaches.DictCache.Clear | lib/py_auto_cache/caches/dict_cache.py:105-107 | `delete(get_keys(pattern))` gives `ClearSpec` |
| DictCaches.DictCache.MemorySize | lib/py_auto_cache/cache.py:157-171 | result and new store are those of `MemorySizeSpec` |
| DictCaches.GetOutcome | lib/py_auto_cache/caches/dict_cache.py:52-58 | an absent key gives None and no change; an expired entry is deleted and gives None; a live one is returned with no change |
| DictCaches.ReapUnobservable | lib/py_auto_cache/caches/dict_cache.py:55-57 | deleting an expired entry changes no read at that time or later |
| DictCaches.ReapElsewhere | lib/py_auto_cache/caches/dict_cache.py:55-57 | a `get` of one key leaves the reads of every other key unchanged |
| DictCaches.SetElsewhere | lib/py_auto_cache/caches/dict_cache.py:61-77 | a `set` of one key leaves the reads of every other key unchanged |
| DictCaches.IncreaseElsewhere | lib/py_auto_cache/cache.py:123-132 | an `increase` of one key leaves the reads of every other key unchanged |
| DictCaches.SetOutcome | lib/py_auto_cache/caches/dict_cache.py:64-77 | both flags are a ParameterError; the write happens exactly when neither flag vetoes it; a call that does not write changes no read from then on |
| DictCaches.SetThenGet | lib/py_auto_cache/caches/dict_cache.py:74-76 | after a write, `(value, now, ttl)` is stored; later reads give the value until strictly more than ttl has passed; other entries are untouched |
| DictCaches.OnlyIfNewKeepsLive | lib/py_auto_cache/caches/dict_cache.py:69-70 | `only_if_new` on a live key returns False and the store is unchanged |
| DictCaches.OnlyIfOldSkipsAbsent | lib/py_auto_cache/caches/dict_cache.py:71-72 | `only_if_old` on an absent or expired key returns False and the key stays absent |
| DictCaches.ListedSize | lib/py_auto_cache/caches/dict_cache.py:82 | a key list names at most as many distinct keys as it is long |
| DictCaches.DeleteRemovesListed | lib/py_auto_cache/caches/dict_cache.py:80-87 | `delete` removes exactly the listed keys and counts the distinct listed keys that were stored |
| DictCaches.DeleteCount | lib/py_auto_cache/caches/dict_cache.py:80-87 | the count is at most the number of keys given and the number stored; listing every key twice changes nothing; no listed key is left |
| DictCaches.DeleteAgain | lib/py_auto_cache/caches/dict_cache.py:80-87 | a second `delete` of the same keys removes nothing and counts 0 |
| DictCaches.MultiGetLookups | lib/py_auto_cache/cache.py:143 | `multi_get` is as long as its keys, and element i is what `get(keys[i])` reads |
| DictCaches.IncreaseAbsentKey | lib/py_auto_cache/cache.py:123-125 | on an absent key, `str(amount)` is stored with no ttl and returned |
| DictCaches.IncreaseDigitValue | lib/py_auto_cache/cache.py:126-132 | on a digit string, the increased value is stored with no ttl, so an earlier ttl is dropped |
| DictCaches.IncreaseNonDigit | lib/py_auto_cache/cache.py:128-129 | on a non-digit value it fails and the store is unchanged |
| DictCaches.ClearIsDeleteOfMatches | lib/py_auto_cache/cache.py:155 | `clear(p)` equals `delete` of any listing of the matching keys |
| DictCaches.ClearRemovesMatches | lib/py_auto_cache/cache.py:155 | after `clear` no matching key is left; non-matching ones are kept; count plus what is left is the old size |
| DictCaches.ClearAgain | lib/py_auto_cache/cache.py:155 | a second `clear` removes nothing |
| DictCaches.MemorySizeIsSum | lib/py_auto_cache/cache.py:166-175 | the size is the total key length plus the total length of the present values; an empty list gives 0 and no change |
| Dispatchers.Dispatcher.FromMembers | lib/py_auto_cache/caches/dispatcher.py:46 | the member list is kept as given |
| Dispatchers.Dispatcher.New | lib/py_auto_cache/caches/dispatcher.py:35-36 | construction fails exactly on an empty list |
| Dispatchers.Dispatcher.Get | lib/py_auto_cache/caches/dispatcher.py:48-49 | acts on the first member only; the others are unchanged |
| Dispatchers.Dispatcher.Set | lib/py_auto_cache/caches/dispatcher.py:51-52 | acts on the first member only; the others are unchanged |
| Dispatchers.Dispatcher.GetKeys | lib/py_auto_cache/caches/dispatcher.py:57-58 | lists the first member's matching keys |
| Dispatchers.Dispatcher.Increase | lib/py_auto_cache/caches/dispatcher.py:60-61 | acts on the first member only; the others are unchanged |
| Dispatchers.Dispatcher.MultiGet | lib/py_auto_cache/caches/dispatcher.py:63-64 | acts on the first member only; the others are unchanged |
| Dispatchers.Dispatcher.MemorySize | lib/py_auto_cache/cache.py:166-171 | the default body, through the dispatcher's `multi_get`, so on the first member only |
| Dispatchers.Dispatcher.Delete | lib/py_auto_cache/caches/dispatcher.py:54-55 | every member ends as its own `delete` leaves it; one count per member, in order; a member listed twice reports 0 the second time |
| Dispatchers.Dispatcher.Clear | lib/py_auto_cache/caches/dispatcher.py:66-70 | every member is cleared; the result is the sum of the members' counts |
| Dispatchers.ClearCountsDistinct | lib/py_auto_cache/caches/dispatcher.py:66-70 | with no member listed twice, the total is the sum of each member's own `clear` count |
| Backends.Get | lib/py_auto_cache/cache_wrapper.py:70 | the wrapped cache's `get` on its primary store |
| Backends.Set | lib/py_auto_cache/cache_wrapper.py:93-95 | the wrapped cache's `set` on its primary store |
| Backends.GetKeys | lib/py_auto_cache/cache_wrapper.py:247 | the wrapped cache's listing of its primary store |
| Backends.Increase | lib/py_auto_cache/cache_wrapper.py:72-74 | the wrapped cache's `increase` on its primary store |
| Backends.MultiGet | lib/py_auto_cache/auto_cache.py:127 | the wrapped cache's `multi_get` on its primary store |
| Backends.MemorySize | lib/py_auto_cache/cache_wrapper.py:140 | the wrapped cache's `memory_size` on its primary store |
| Backends.Delete | lib/py_auto_cache/cache_wrapper.py:172 | every member store ends as its own `delete` leaves it |
| Backends.Clear | lib/py_auto_cache/cache_wrapper.py:180 | every member store ends as its own `clear` leaves it |
| CacheWrappers.NamespaceRoundTrip | lib/py_auto_cache/cache_wrapper.py:207-229 | removing the namespace from a key the wrapper built gives back the key, for every key, region and suffix |
| CacheWrappers.KeysCarryNamespace | lib/py_auto_cache/cache_wrapper.py:182-217 | every physical key starts with `py_auto_cache:<ns>:`, and a cache key ends in `:None` |
| CacheWrappers.RegionsDisjoint | lib/py_auto_cache/cache_wrapper.py:249-290 | no cache-region key equals a monitoring-region key |
| CacheWrappers.CountersDistinct | lib/py_auto_cache/cache_wrapper.py:57-58 | the hits key, the misses key and every cost key are different |
| CacheWrappers.ClearSparesMonitoring | lib/py_auto_cache/cache_wrapper.py:180 | the `clear` pattern matches no counter and no cost key, whatever the namespace |
| CacheWrappers.ClearTakesCacheKeys | lib/py_auto_cache/cache_wrapper.py:180 | with a namespace free of glob characters, the `clear` pattern matches every cache key of the namespace |
| CacheWrappers.NamespaceNotEscaped | lib/py_auto_cache/cache_wrapper.py:180 | for any glob-free `a`, any `b` and any key, the `clear` pattern of namespace `a*` matches the cache key of that key in namespace `a` + `b` |
| CacheWrappers.NamespacedMatch | lib/py_auto_cache/cache_wrapper.py:267-280 | with a namespace free of glob characters, a raw key matches the namespaced pattern exactly when it is a cache key whose stripped key matches the pattern |
| CacheWrappers.GetKeysExact | lib/py_auto_cache/cache_wrapper.py:142-160 | `get_keys(p)` lists exactly the keys `k` matching `p` whose cache key is stored |
| CacheWrappers.SplitCount | lib/py_auto_cache/cache_wrapper.py:332 | `split(':')` gives one part more than there are colons |
| CacheWrappers.ConvertHostPlain | lib/py_auto_cache/cache_wrapper.py:333-334 | a host with no colon gets port 6379 |
| CacheWrappers.ConvertHostPort | lib/py_auto_cache/cache_wrapper.py:335-336 | `host:str(p)` gives `(host, p)` |
| CacheWrappers.ConvertHostRejects | lib/py_auto_cache/cache_wrapper.py:337-338 | two or more colons are a HostError |
| CacheWrappers.RateExample | lib/py_auto_cache/cache_wrapper.py:124-129 | 1 hit and 3 misses give 0.25; no reads give 0 |
| CacheWrappers.RateBounds | lib/py_auto_cache/cache_wrapper.py:124-129 | for non-negative counts the rate lies in [0, 1], and the hit rate plus the miss rate is 1 |
| CacheWrappers.ReadSoundCounter | lib/py_auto_cache/cache_wrapper.py:104-113 | `hits()`/`misses()` read an absent counter as 0 and a digit string as its count |
| CacheWrappers.GetCountsOnce | lib/py_auto_cache/cache_wrapper.py:69-75 | `get` returns the backend's value; exactly one counter goes up by 1 (misses on None, hits otherwise); no other key changes |
| CacheWrappers.SoundLater | lib/py_auto_cache/cache.py:130 | counters are written with no ttl, so their soundness does not depend on the time they are read |
| CacheWrappers.WrapperSetThenGet | lib/py_auto_cache/cache_wrapper.py:93-95 | the default expiry applies only when none is given; the next `get` returns the value until that ttl runs out |
| CacheWrappers.CacheWrapper.Make | lib/py_auto_cache/cache_wrapper.py:50-58 | the fields are set, and the counter keys are memoized through the monitoring helper |
| CacheWrappers.CacheWrapper.New | lib/py_auto_cache/cache_wrapper.py:45-48 | namespace `default` is refused; with no cache given, a fresh empty in-memory cache is used |
| CacheWrappers.CacheWrapper.GetFullPrefix | lib/py_auto_cache/cache_wrapper.py:182-194 | returns `py_auto_cache:<ns>:<prefix>:` and memoizes it |
| CacheWrappers.CacheWrapper.GetFullSuffix | lib/py_auto_cache/cache_wrapper.py:196-205 | returns `:<suffix>` and memoizes it |
| CacheWrappers.CacheWrapper.AddNamespaceToKey | lib/py_auto_cache/cache_wrapper.py:207-217 | returns `AddNamespace`; the memos gain that prefix and suffix |
| CacheWrappers.CacheWrapper.RemoveNamespaceFromKey | lib/py_auto_cache/cache_wrapper.py:219-229 | returns `RemoveNamespace`; the memos gain that prefix and suffix |
| CacheWrappers.CacheWrapper.AddCacheNamespace | lib/py_auto_cache/cache_wrapper.py:249-256 | returns the cache key |
| CacheWrappers.CacheWrapper.RemoveCacheNamespace | lib/py_auto_cache/cache_wrapper.py:258-265 | strips the cache-region namespace |
| CacheWrappers.CacheWrapper.AddMonitoringNamespace | lib/py_auto_cache/cache_wrapper.py:282-290 | returns the monitoring key |
| CacheWrappers.CacheWrapper.RemoveMonitoringNamespace | lib/py_auto_cache/cache_wrapper.py:292-300 | strips the monitoring-region namespace |
| CacheWrappers.CacheWrapper.KeysWithNamespace | lib/py_auto_cache/cache_wrapper.py:231-247 | lists the stored keys that match the namespaced pattern |
| CacheWrappers.CacheWrapper.MonitoringKeysWithNamespace | lib/py_auto_cache/cache_wrapper.py:302-316 | lists the stored keys that match the monitoring-region pattern |
| CacheWrappers.CacheWrapper.Get | lib/py_auto_cache/cache_wrapper.py:60-75 | result and new store are those of `WrapperGetSpec` |
| CacheWrappers.CacheWrapper.Set | lib/py_auto_cache/cache_wrapper.py:77-95 | result and new store are those of `WrapperSetSpec` |
| CacheWrappers.CacheWrapper.Hits | lib/py_auto_cache/cache_wrapper.py:97-104 | reads the hits counter (`ReadCounterSpec`) |
| CacheWrappers.CacheWrapper.Misses | lib/py_auto_cache/cache_wrapper.py:106-113 | reads the misses counter (`ReadCounterSpec`) |
| CacheWrappers.CacheWrapper.HitRate | lib/py_auto_cache/cache_wrapper.py:115-129 | hits, then misses, then their rate (`HitRateSpec`) |
| CacheWrappers.CacheWrapper.MemorySize | lib/py_auto_cache/cache_wrapper.py:131-140 | the backend's size of the raw cache keys that match `*` |
| CacheWrappers.CacheWrapper.GetKeys | lib/py_auto_cache/cache_wrapper.py:142-160 | the raw matches, each stripped of its namespace, in order |
| CacheWrappers.CacheWrapper.AddCacheNamespaces | lib/py_auto_cache/cache_wrapper.py:171 | the cache key of each key, in order |
| CacheWrappers.CacheWrapper.Delete | lib/py_auto_cache/cache_wrapper.py:162-172 | the cache keys of the given keys are deleted from every member of the backend |
| CacheWrappers.CacheWrapper.Clear | lib/py_auto_cache/cache_wrapper.py:174-180 | every member of the backend is cleared with the cache-region pattern |
| AutoCaches.PopFlagKeeps | lib/py_auto_cache/auto_cache.py:84 | after the pop, exactly the entries not named `update_auto_cache` remain |
| AutoCaches.PopFlagFlag | lib/py_auto_cache/auto_cache.py:84 | for a dict, the flag is set exactly when the flag entry holds a true value |
| AutoCaches.PopFlagIdempotent | lib/py_auto_cache/auto_cache.py:84-85 | popping again finds no flag and removes nothing |
| AutoCaches.CallKeyInjective | lib/py_auto_cache/auto_cache.py:161-166 | when names hold no `:`, equal keys mean the same function and the same arguments |
| AutoCaches.AutoSetResult | lib/py_auto_cache/auto_cache.py:113-116 | with both flags, a ParameterError and no change; otherwise the result is that of writing the value alone; only the value and cost keys change |
| AutoCaches.UpdateWrites | lib/py_auto_cache/auto_cache.py:178-192 | a returned value is stored pickled under the cache key with the default expiry, and its cost under the cost key; every other key reads as before |
| AutoCaches.UpdateKeepsCounters | lib/py_auto_cache/auto_cache.py:178-192 | running and storing a call leaves both counters as they were |
| AutoCaches.HitReturnsCached | lib/py_auto_cache/auto_cache.py:194-204 | an unforced call with a cached key does not run the function: it returns the unpickled value (or an UnpicklingError) and counts a hit |
| AutoCaches.MissInvokes | lib/py_auto_cache/auto_cache.py:79-88 | an unforced call on a miss runs the function, returns its value and counts a miss; a returned value is then cached, and a declined one leaves every non-counter key as it was |
| AutoCaches.ForcedInvokes | lib/py_auto_cache/auto_cache.py:84-88 | with the flag set the function always runs and the counters are untouched; the value lands under the key of the call without the flag; a declined value changes nothing |
| AutoCaches.MemoizedCallHits | lib/py_auto_cache/auto_cache.py:79-88 | after a call that ran the function and got `v`, the same call without the flag, made before the default expiry runs out, returns `v` without running it; `None` results included |
| AutoCaches.DeclinedCallRunsAgain | lib/py_auto_cache/auto_cache.py:188-191 | after `DoNotCacheException(v)` the call returns `v`, and the next plain call runs the function again |
| AutoCaches.CostsFail | lib/py_auto_cache/auto_cache.py:130 | reading the costs fails exactly when some present value does not parse |
| AutoCaches.CostsOfWritten | lib/py_auto_cache/auto_cache.py:113-114 | costs stored with `str` read back as the integers stored |
| AutoCaches.AverageBounds | lib/py_auto_cache/auto_cache.py:251-252 | the average lies between the smallest and the largest sample |
| AutoCaches.CostPatternSparesOthers | lib/py_auto_cache/auto_cache.py:53 | the cost pattern matches no cache key and no counter |
| AutoCaches.CostPatternTakesCosts | lib/py_auto_cache/auto_cache.py:53 | with a namespace free of glob characters, the cost pattern matches every cost key of the namespace |
| AutoCaches.AutoCache.Make | lib/py_auto_cache/auto_cache.py:53-57 | keeps the wrapper and the cost pattern; the decorator map starts empty |
| AutoCaches.AutoCache.New | lib/py_auto_cache/auto_cache.py:34-57 | namespace `default` is refused; otherwise a valid instance over the given (or a fresh) cache |
| AutoCaches.AutoCache.Decorate | lib/py_auto_cache/auto_cache.py:59-93 | a fresh wrapper, recorded as wrapping `f`, so `SourceFunc` of it is `f` |
| AutoCaches.AutoCache.SourceFunc | lib/py_auto_cache/auto_cache.py:132-140 | the recorded function; a wrapper this instance did not return is a KeyError |
| AutoCaches.AutoCache.Set | lib/py_auto_cache/auto_cache.py:95-116 | result and new store are those of `AutoSetSpec`: the cost first, with the expiry as given, then the wrapper's `set` |
| AutoCaches.AutoCache.ReadCache | lib/py_auto_cache/auto_cache.py:194-204 | result and new store are those of `ReadCacheSpec` |
| AutoCaches.AutoCache.UpdateCache | lib/py_auto_cache/auto_cache.py:168-192 | result and new store are those of `UpdateCacheSpec` |
| AutoCaches.AutoCache.Call | lib/py_auto_cache/auto_cache.py:79-88 | for a wrapper this instance returned, the result, whether the function ran, and the new store are those of `CallSpec` |
| AutoCaches.AutoCache.TimeCostAverage | lib/py_auto_cache/auto_cache.py:118-130 | the average of the present cost samples of the namespace (`TimeCostAverageSpec`); a sample that does not parse is an error |
| AutoCaches.AverageCosts | lib/py_auto_cache/auto_cache.py:130 | reading the present values as integers one by one and averaging them gives `AverageSpec`: an error exactly when some present value is not an integer |
| AutoCaches.Registry.GetAutoCache | lib/py_auto_cache/auto_cache.py:207-220 | the same instance for a known triple; otherwise a fresh one with a fresh wrapper (over a fresh empty in-memory cache when none is given), recorded under the triple; namespace `default` is refused and nothing is recorded; the instance returned is valid and built from the triple, and every recorded instance stays so (`Registry.Valid`) |

## Left out

- Nested dispatchers: dispatcher members are in-memory caches. A dispatcher of dispatchers, and file or Redis backends, are not modelled. `redis_cache.py` wraps a foreign client, and `file_cache.py` is filesystem plumbing with the same per-key semantics.
- A dispatcher's member list is fixed once built. The Python list could be changed after construction.
- `Backends.Delete` and `Backends.Clear` drop the counts, because the wrapper discards them too (lib/py_auto_cache/cache_wrapper.py:172,180).
- `transcode`, `isinstance` checks and the `TypeError` for non-`Cache` members: keys and values are strings, and a length counts characters, not bytes. In matching too, `?` and a bracket class match one character, where Python 2 matches one byte of the UTF-8 `str`.
- `fnmatch`'s `os.path.normcase` is taken as the identity, as on POSIX. On Windows it lowercases both sides and turns `/` into `\`.
- `wrap_client_exception` and the exception classes it creates at run time: errors are the values of `Outcomes.Error`.
- `CacheWrapper.HitRate`/`Rate`: the rate is exact real division, not a float. `hit_rate` returns `float(hits) / (hits + misses)`, so one hit and two misses give exactly 1/3 in the model and the nearest IEEE double in Python. With no reads the model gives 0, where Python returns the integer `0`.
- `DictCache`/`Expired`: the clock, the stored time and the ttl are whole numbers. `time.time()` and `expire_seconds` are floats in Python, so an expiry of half a second cannot be expressed.
- Each operation reads the clock once, as `now`. The Python code calls `time.time()` separately in `get` and in `set`.
- Time costs are whole numbers, written with `str` and read back with integer syntax.
  - `float(value)` syntax is not modelled: decimals, exponents, `inf`, surrounding whitespace.
  - The float division of `_average` is modelled as exact `real` division.
- `int()` in `hits`, `misses`, `_convert_host` and the cost parser accepts an optional sign and ASCII digits only. Surrounding whitespace and underscores are not modelled.
- `CacheDefaults.IncreasedValue`/`Decimal.IsDigitString`: `increase` tests `value.isdigit()` and then calls `int(value)`. In the model both accept ASCII digits only. A unicode value of non-ASCII decimal digits, such as `u'\u0663'`, is incremented by Python 2 but is `NotAnInteger` in the model.
- `AutoCaches.UpdateCacheSpec`/`MemoizedCallHits`: the memoized function is taken not to change its arguments, since values are immutable in the model. Python builds the write key from the argument objects after the call. So a function that changes a list or dict argument stores its result under a different key from the one the read missed, and is run again on every plain call.
- `pickle` is a concrete prefix-free codec over `None`, booleans, integers, strings and sequences.
  - Tuples, lists and dicts are all sequences.
  - Keyword arguments are pickled in the order given. Python's dict order is not modelled.
  - `pickle.loads` on a corrupt string is `UnpicklingError`.
  - Other errors in the memoized function, and in argument values that cannot be pickled, are not modelled.
- `inspect.getmodule(func).__name__` is the `moduleName` field of `Func`.
- A reversed bracket range such as `[z-a]` is a regular-expression error in Python. In the model it matches nothing.
- `auto_cache_decorator` is `get_auto_cache(...).decorator` and adds nothing beyond `Registry.GetAutoCache` and `AutoCache.Decorate`.
- The default namespace `py_auto_cache` of `get_auto_cache` is not modelled. Callers always pass a namespace.
- The logger setup and concurrency: the code takes no locks and promises nothing under concurrent use.
