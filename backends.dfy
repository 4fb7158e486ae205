/**
 * Any cache a wrapper can hold: an in-memory cache, or a dispatcher over
 * in-memory caches. Each operation goes to the concrete class, so a caller
 * sees one contract for both.
 */
module Backends {
  import opened Outcomes
  import opened DictCaches
  import opened Dispatchers

  datatype Backend = Local(cache: DictCache) | Fanout(dispatcher: Dispatcher)

  ghost predicate Valid(b: Backend)
  {
    b.Fanout? ==> b.dispatcher.Valid()
  }

  /** The in-memory caches behind a backend, in order. */
  function Members(b: Backend): seq<DictCache>
  {
    match b
    case Local(c) => [c]
    case Fanout(d) => d.members
  }

  /** The cache that reads, writes, increments and listing go to. */
  function Primary(b: Backend): (p: DictCache)
    requires Valid(b)
    ensures p in Members(b)
  {
    Members(b)[0]
  }

  function Footprint(b: Backend): set<DictCache>
  {
    set m | m in Members(b)
  }

  method Get(b: Backend, key: string, now: int) returns (v: Option<string>)
    requires Valid(b)
    modifies Primary(b)
    ensures (v, Primary(b).store) == GetSpec(old(Primary(b).store), key, now)
  {
    match b
    case Local(c) => v := c.Get(key, now);
    case Fanout(d) => v := d.Get(key, now);
  }

  method Set(b: Backend, key: string, value: string, ttl: Option<int>, onlyIfNew: bool, onlyIfOld: bool, now: int)
    returns (r: Result<bool>)
    requires Valid(b)
    modifies Primary(b)
    ensures (r, Primary(b).store) == SetSpec(old(Primary(b).store), key, value, ttl, onlyIfNew, onlyIfOld, now)
  {
    match b
    case Local(c) => r := c.Set(key, value, ttl, onlyIfNew, onlyIfOld, now);
    case Fanout(d) => r := d.Set(key, value, ttl, onlyIfNew, onlyIfOld, now);
  }

  method GetKeys(b: Backend, pattern: string) returns (keys: seq<string>)
    requires Valid(b)
    ensures Enumerates(keys, MatchingKeys(Primary(b).store, pattern))
  {
    match b
    case Local(c) => keys := c.GetKeys(pattern);
    case Fanout(d) => keys := d.GetKeys(pattern);
  }

  method Increase(b: Backend, key: string, amount: int, now: int) returns (r: Result<string>)
    requires Valid(b)
    modifies Primary(b)
    ensures (r, Primary(b).store) == IncreaseSpec(old(Primary(b).store), key, amount, now)
  {
    match b
    case Local(c) => r := c.Increase(key, amount, now);
    case Fanout(d) => r := d.Increase(key, amount, now);
  }

  method MultiGet(b: Backend, keys: seq<string>, now: int) returns (values: seq<Option<string>>)
    requires Valid(b)
    modifies Primary(b)
    ensures (values, Primary(b).store) == MultiGetSpec(old(Primary(b).store), keys, now)
  {
    match b
    case Local(c) => values := c.MultiGet(keys, now);
    case Fanout(d) => values := d.MultiGet(keys, now);
  }

  method MemorySize(b: Backend, keys: seq<string>, now: int) returns (size: nat)
    requires Valid(b)
    modifies Primary(b)
    ensures (size, Primary(b).store) == MemorySizeSpec(old(Primary(b).store), keys, now)
  {
    match b
    case Local(c) => size := c.MemorySize(keys, now);
    case Fanout(d) => size := d.MemorySize(keys, now);
  }

  /** Deletes the keys from every member; the count (or list of counts) is not passed on. */
  method Delete(b: Backend, keys: seq<string>)
    modifies Footprint(b)
    ensures forall m | m in Members(b) :: m.store == DeleteSpec(old(m.store), keys).1
  {
    match b
    case Local(c) => var _ := c.Delete(keys);
    case Fanout(d) => var _ := d.Delete(keys);
  }

  /** Clears the pattern from every member; the count is not passed on. */
  method Clear(b: Backend, pattern: string)
    modifies Footprint(b)
    ensures forall m | m in Members(b) :: m.store == ClearSpec(old(m.store), pattern).1
  {
    match b
    case Local(c) => var _ := c.Clear(pattern);
    case Fanout(d) => var _ := d.Clear(pattern);
  }
}
