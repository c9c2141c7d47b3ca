/** The two façade scenarios of cache_test.go, replayed on the model: a
    memory-backed client with the JSON serializer and no compression. */
module Scenarios {
  import opened Wrappers
  import opened Backends
  import Config
  import Sharding
  import Stores
  import Memory
  import Text
  import opened Client
  import opened Cache

  /** `Config{Backend: "memory", Serializer: "json"}`. */
  const MemoryJson := Config.ConfigValue(
    "memory", false, "", "json", false, false, NoMemory,
    Config.RedisConfig([], 0, 0, 0, 0), Config.MemcachedConfig([], 0, 0), Config.GrpcConfig(0, []),
    Config.TierConfig("", 0, NoMemory), Config.TierConfig("", 0, NoMemory), Config.ShardingConfig("", 0, 0))

  /** `New(Config{Backend: "memory", Serializer: "json"})` succeeds with one
      empty, working in-memory backend and the JSON codec without compression. */
  method NewMemoryJson(crc: Sharding.Hash) returns (c: CacheClient)
    ensures Valid(c) && !c.hierarchical && !c.distributed
    ensures c.backend == Some(Stores.EmptyStore) && c.codec == Codec(JsonSerializer, None)
  {
    Config.SerializerRule(MemoryJson);
    assert Config.Accepted(MemoryJson);
    var made := New(MemoryJson, crc);
    c := made.value;
  }

  /** The batch write of TestMemoryBackendMultiOperations: a new client
      stores the three items in its one working backend. */
  method MultiWrite(crc: Sharding.Hash, items: map<string, Value>) returns (c: CacheClient, c1: CacheClient)
    ensures Valid(c) && !c.hierarchical && !c.distributed
    ensures c.backend == Some(Stores.EmptyStore) && c.codec == Codec(JsonSerializer, None)
    ensures c1 == SetMultiSingle(c, items, Config.Minute).1
    ensures Valid(c1) && !c1.hierarchical && !c1.distributed && c1.backend.Some?
    ensures c1.backend.value.failing == {} && c1.backend.value.entries.Keys == items.Keys
  {
    c := NewMemoryJson(crc);
    var o;
    ghost var order;
    o, c1, order := SetMulti(c, items, Config.Minute);
    assert c1.backend.value.entries.Keys == items.Keys by {
      assert Encoded(c.codec, items).Keys == items.Keys;
    }
  }

  /** The first half of TestMemoryBackendMultiOperations: three items written
      in one batch, then a batch read of those three and one absent key finds
      exactly the three, and the backend still holds them. */
  method MultiWriteRead(crc: Sharding.Hash, v1: Value, v2: Value, v3: Value)
    returns (found: map<string, Value>, c2: CacheClient)
    ensures found == map["key1" := v1, "key2" := v2, "key3" := v3]
    ensures Valid(c2) && !c2.hierarchical && !c2.distributed && c2.backend.Some?
    ensures c2.backend.value.failing == {} && c2.backend.value.entries.Keys == {"key1", "key2", "key3"}
  {
    var items := map["key1" := v1, "key2" := v2, "key3" := v3];
    var c, c1 := MultiWrite(crc, items);
    var keys := ["key1", "key2", "key3", "nonexistent"];
    SetMultiThenGetMulti(c, items, Config.Minute, keys);
    var got;
    got, c2 := GetMulti(c1, keys);
    found := got.value;
    assert forall k :: k in found <==> k in items;
  }

  /** TestMemoryBackendMultiOperations: three items written in one batch, a
      batch read of those three and one absent key finds exactly the three,
      and after a batch delete of two of them only the third exists. The
      values are left open; the test's are a string, a number and an object. */
  method MultiOperations(crc: Sharding.Hash, v1: Value, v2: Value, v3: Value)
    returns (found: map<string, Value>, exists1: Result<bool>, exists2: Result<bool>, exists3: Result<bool>)
    ensures found == map["key1" := v1, "key2" := v2, "key3" := v3]
    ensures exists1 == Ok(false) && exists2 == Ok(false) && exists3 == Ok(true)
  {
    var c2;
    found, c2 := MultiWriteRead(crc, v1, v2, v3);
    var deleted, c3 := DeleteMulti(c2, ["key1", "key2"]);
    var b2 := c2.backend.value;
    assert c3.backend == Some(Stores.DeleteMulti(b2, ["key1", "key2"]).1);
    Stores.DeleteMultiThenExists(b2, ["key1", "key2"], "key1");
    Stores.DeleteMultiThenExists(b2, ["key1", "key2"], "key2");
    Stores.DeleteMultiThenExists(b2, ["key1", "key2"], "key3");
    exists1 := Exists(c3, "key1");
    exists2 := Exists(c3, "key2");
    exists3 := Exists(c3, "key3");
  }

  /** TestMemoryBackendAtomicOperations: increments by 5 and 3 give 5 and 8, a
      decrement by 2 gives 6, `SetNX` on the counter is refused and on a new
      key accepted. */
  method AtomicOperations(crc: Sharding.Hash)
    returns (first: Result<int>, second: Result<int>, third: Result<int>, taken: Result<bool>, added: Result<bool>)
    ensures first == Ok(5) && second == Ok(8) && third == Ok(6)
    ensures taken == Ok(false) && added == Ok(true)
  {
    var c := NewMemoryJson(crc);
    var c1, c2, c3;
    first, c1 := Increment(c, "counter", 5).0, Increment(c, "counter", 5).1;
    IncrementAccumulates(c, "counter", 5, 3);
    second, c2 := Increment(c1, "counter", 3).0, Increment(c1, "counter", 3).1;
    IncrementAccumulates(c1, "counter", 3, Text.Wrap64(-2));
    third, c3 := Decrement(c2, "counter", 2).0, Decrement(c2, "counter", 2).1;
    taken := SetNX(c3, "counter", Value([100]), Config.Minute).0;
    added := SetNX(c3, "new_key", Value([1]), Config.Minute).0;
  }
}
