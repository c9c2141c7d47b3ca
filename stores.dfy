/** The `Backend` interface (pkg/backends/backend.go:13-38) as the cache façade
    sees it. The façade never looks inside a backend, so a backend here is a
    value: the byte strings it holds with the TTL each was written with, the
    statistics record it reports, and the set of operations that currently fail
    (a Redis or Memcached server that is down, a closed client). An operation in
    `failing` returns `BackendFailure` and changes nothing. The others behave
    as the in-memory store does when no entry expires and nothing is evicted,
    with one difference: there is no clock, so `TTL` reports the ttl the key
    was last written with (0 for none), not the time left or -1. */
module Stores {
  import opened Wrappers
  import opened Text
  import Backends
  import Memory

  /** The operations of the `Backend` interface. */
  datatype Op =
    | GetOp | SetOp | DeleteOp | ExistsOp
    | GetMultiOp | SetMultiOp | DeleteMultiOp
    | IncrementOp | ExpireOp | TtlOp
    | ClearOp | StatsOp | HealthOp | CloseOp

  /** A stored value and the TTL it was last given. */
  datatype Entry = Entry(data: Bytes, ttl: int)

  datatype Store = Store(entries: map<string, Entry>, failing: set<Op>, stats: Backends.Stats)

  /** A freshly created, working backend. */
  const EmptyStore := Store(map[], {}, Backends.ZeroStats)

  function Get(s: Store, key: string): (r: Result<Bytes>)
    ensures r.Ok? <==> GetOp !in s.failing && key in s.entries
    ensures r.Ok? ==> r.value == s.entries[key].data
    ensures GetOp in s.failing ==> r == Err(BackendFailure)
  {
    if GetOp in s.failing then Err(BackendFailure)
    else if key !in s.entries then Err(KeyNotFound)
    else Ok(s.entries[key].data)
  }

  function Set(s: Store, key: string, data: Bytes, ttl: int): (r: (Outcome, Store))
    ensures r.0 == Pass <==> SetOp !in s.failing
    ensures r.0 == Pass ==> r.1 == s.(entries := s.entries[key := Entry(data, ttl)])
    ensures r.0 != Pass ==> r == (Fail(BackendFailure), s)
  {
    if SetOp in s.failing then (Fail(BackendFailure), s)
    else (Pass, s.(entries := s.entries[key := Entry(data, ttl)]))
  }

  /** Deleting an absent key succeeds, as it does in every backend. */
  function Delete(s: Store, key: string): (r: (Outcome, Store))
    ensures r.0 == Pass <==> DeleteOp !in s.failing
    ensures r.0 == Pass ==> r.1 == s.(entries := s.entries - {key})
    ensures r.0 != Pass ==> r == (Fail(BackendFailure), s)
  {
    if DeleteOp in s.failing then (Fail(BackendFailure), s)
    else (Pass, s.(entries := s.entries - {key}))
  }

  function Exists(s: Store, key: string): (r: Result<bool>)
    ensures r.Ok? <==> ExistsOp !in s.failing
    ensures r.Ok? ==> (r.value <==> key in s.entries)
  {
    if ExistsOp in s.failing then Err(BackendFailure) else Ok(key in s.entries)
  }

  /** The present keys among `keys`, with their values. */
  function GetMulti(s: Store, keys: seq<string>): (r: Result<map<string, Bytes>>)
    ensures r.Ok? <==> GetMultiOp !in s.failing
    ensures r.Ok? ==> forall k :: k in r.value <==> k in keys && k in s.entries
    ensures r.Ok? ==> forall k :: k in r.value ==> r.value[k] == s.entries[k].data
  {
    if GetMultiOp in s.failing then Err(BackendFailure)
    else Ok(map k | k in keys && k in s.entries :: s.entries[k].data)
  }

  function SetMulti(s: Store, items: map<string, Bytes>, ttl: int): (r: (Outcome, Store))
    ensures r.0 == Pass <==> SetMultiOp !in s.failing
    ensures r.0 == Pass ==> forall k :: k in r.1.entries <==> k in s.entries || k in items
    ensures r.0 == Pass ==> forall k :: k in items ==> r.1.entries[k] == Entry(items[k], ttl)
    ensures r.0 == Pass ==> forall k :: k in s.entries && k !in items ==> r.1.entries[k] == s.entries[k]
    ensures r.0 != Pass ==> r == (Fail(BackendFailure), s)
    ensures r.1.failing == s.failing
  {
    if SetMultiOp in s.failing then (Fail(BackendFailure), s)
    else
      var entries := map k | k in s.entries.Keys + items.Keys ::
        if k in items then Entry(items[k], ttl) else s.entries[k];
      (Pass, s.(entries := entries))
  }

  function DeleteMulti(s: Store, keys: seq<string>): (r: (Outcome, Store))
    ensures r.0 == Pass <==> DeleteMultiOp !in s.failing
    ensures r.0 == Pass ==> forall k :: k in r.1.entries <==> k in s.entries && k !in keys
    ensures r.0 == Pass ==> forall k :: k in r.1.entries ==> r.1.entries[k] == s.entries[k]
    ensures r.0 != Pass ==> r == (Fail(BackendFailure), s)
    ensures r.1.failing == s.failing && r.1.stats == s.stats
  {
    if DeleteMultiOp in s.failing then (Fail(BackendFailure), s)
    else (Pass, s.(entries := map k | k in s.entries && k !in keys :: s.entries[k]))
  }

  /** An absent key counts from 0; a stored value must read as a 64-bit integer. */
  function Increment(s: Store, key: string, delta: int): (r: (Result<int>, Store))
    ensures IncrementOp in s.failing ==> r == (Err(BackendFailure), s)
    ensures r.0.Ok? ==> key in r.1.entries && r.1.entries[key].data == DecimalBytes(r.0.value) && IsInt64(r.0.value)
    ensures forall k :: k != key ==> (k in r.1.entries <==> k in s.entries)
    ensures forall k :: k != key && k in s.entries ==> r.1.entries[k] == s.entries[k]
  {
    if IncrementOp in s.failing then (Err(BackendFailure), s)
    else
      var current := if key in s.entries then Memory.ParseJsonInt64(s.entries[key].data) else Some(0);
      if current.None? then (Err(NotANumber), s)
      else
        var sum := Wrap64(current.value + delta);
        var ttl := if key in s.entries then s.entries[key].ttl else 0;
        (Ok(sum), s.(entries := s.entries[key := Entry(DecimalBytes(sum), ttl)]))
  }

  function Decrement(s: Store, key: string, delta: int): (r: (Result<int>, Store))
    ensures r == Increment(s, key, Wrap64(-delta))
  {
    Increment(s, key, Wrap64(-delta))
  }

  function Expire(s: Store, key: string, ttl: int): (r: (Outcome, Store))
    ensures r.0 == Pass <==> ExpireOp !in s.failing && key in s.entries
    ensures r.0 == Pass ==> r.1 == s.(entries := s.entries[key := s.entries[key].(ttl := ttl)])
    ensures r.0 != Pass ==> r.1 == s
  {
    if ExpireOp in s.failing then (Fail(BackendFailure), s)
    else if key !in s.entries then (Fail(KeyNotFound), s)
    else (Pass, s.(entries := s.entries[key := s.entries[key].(ttl := ttl)]))
  }

  function TTL(s: Store, key: string): (r: Result<int>)
    ensures r.Ok? <==> TtlOp !in s.failing && key in s.entries
    ensures r.Ok? ==> r.value == s.entries[key].ttl
  {
    if TtlOp in s.failing then Err(BackendFailure)
    else if key !in s.entries then Err(KeyNotFound)
    else Ok(s.entries[key].ttl)
  }

  function Clear(s: Store): (r: (Outcome, Store))
    ensures r.0 == Pass <==> ClearOp !in s.failing
    ensures r.0 == Pass ==> r.1 == s.(entries := map[])
    ensures r.0 != Pass ==> r.1 == s
  {
    if ClearOp in s.failing then (Fail(BackendFailure), s) else (Pass, s.(entries := map[]))
  }

  function Stats(s: Store): (r: Result<Backends.Stats>)
    ensures r.Ok? <==> StatsOp !in s.failing
    ensures r.Ok? ==> r.value == s.stats
  {
    if StatsOp in s.failing then Err(BackendFailure) else Ok(s.stats)
  }

  function Health(s: Store): (r: Outcome)
    ensures r == Pass <==> HealthOp !in s.failing
  {
    if HealthOp in s.failing then Fail(BackendFailure) else Pass
  }

  function Close(s: Store): (r: Outcome)
    ensures r == Pass <==> CloseOp !in s.failing
  {
    if CloseOp in s.failing then Fail(BackendFailure) else Pass
  }

  /** The three outcomes of a working `Increment`: an absent key starts from 0
      and gets no ttl; a value that is not a 64-bit JSON integer fails with
      NotANumber and changes nothing; a stored number advances by `delta`,
      wrapped, and keeps its ttl. */
  lemma IncrementCases(s: Store, key: string, delta: int)
    requires IncrementOp !in s.failing
    ensures key !in s.entries ==>
              && Increment(s, key, delta).0 == Ok(Wrap64(delta))
              && key in Increment(s, key, delta).1.entries && Increment(s, key, delta).1.entries[key].ttl == 0
    ensures key in s.entries && Memory.ParseJsonInt64(s.entries[key].data).None? ==>
              Increment(s, key, delta) == (Err(NotANumber), s)
    ensures key in s.entries && Memory.ParseJsonInt64(s.entries[key].data).Some? ==>
              && Increment(s, key, delta).0 == Ok(Wrap64(Memory.ParseJsonInt64(s.entries[key].data).value + delta))
              && key in Increment(s, key, delta).1.entries
              && Increment(s, key, delta).1.entries[key].ttl == s.entries[key].ttl
  {
  }

  /** A stored number `a` increments to `a + delta`, wrapped to 64 bits. */
  lemma IncrementStoredNumber(s: Store, key: string, delta: int, a: int)
    requires IncrementOp !in s.failing && key in s.entries && Memory.ParseJsonInt64(s.entries[key].data) == Some(a)
    ensures Increment(s, key, delta).0 == Ok(Wrap64(a + delta))
  {
    var data := s.entries[key].data;
    assert Memory.ParseJsonInt64(data) == Some(a);
  }

  /** A successful increment is the starting point of the next one. */
  lemma IncrementAccumulates(s: Store, key: string, d1: int, d2: int)
    requires IncrementOp !in s.failing && Increment(s, key, d1).0.Ok?
    ensures Increment(Increment(s, key, d1).1, key, d2).0 == Ok(Wrap64(Increment(s, key, d1).0.value + d2))
  {
    var (r1, s1) := Increment(s, key, d1);
    assert s1.failing == s.failing;
    Memory.DecimalBytesRoundTrip(r1.value);
    IncrementStoredNumber(s1, key, d2, r1.value);
  }

  /** What a successful `Set` wrote, `Get` reads back. */
  lemma SetThenGet(s: Store, key: string, data: Bytes, ttl: int)
    requires SetOp !in s.failing && GetOp !in s.failing
    ensures Get(Set(s, key, data, ttl).1, key) == Ok(data)
  {
  }

  /** After a batch delete, a key exists exactly when it existed before and
      was not among the deleted keys. */
  lemma DeleteMultiThenExists(s: Store, keys: seq<string>, key: string)
    requires DeleteMultiOp !in s.failing && ExistsOp !in s.failing
    ensures Exists(DeleteMulti(s, keys).1, key) == Ok(key in s.entries && key !in keys)
  {
  }
}
