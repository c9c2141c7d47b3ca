# gocachex core, modelled in Dafny

gocachex is a Go key-value cache library. One `CacheClient` value fronts a
storage backend: an in-process memory store, Redis or Memcached. It runs in
one of three modes:

- **single**: one backend;
- **hierarchical**: an L1 tier in front of an L2 tier, with read-through promotion into L1;
- **distributed**: keys are spread over several shards by a CRC-32 hash.

Values pass through a serializer (json, gob, msgpack) and an optional
compressor (gzip, lz4, snappy) on their way in and out. A configuration
record is validated and filled with defaults before a client is built.

The model covers:

- **`Config`** (`config.dfy`): the configuration record as a value, plus a
  `Config` class whose `Validate` rewrites the record in place. It models
  validation, defaults and the error rules. `Config.Validated` is the
  specification function of validation.
- **`Backends`** (`backends.dfy`): the backend, serializer and compressor
  factories, `ShouldCompress`, and the statistics record. The codecs are
  stand-ins: a format tag byte for each serializer and a gzip-magic prefix for
  each compressor. The stand-ins are proved mutually inverse, and each
  rejects the other's output.
- **`Memory`** (`memory.dfy`): the in-memory backend as a class with
  mutable fields. It models:
  - item map, byte total and hit/miss/set/delete/eviction counters;
  - expiry on read and in the cleanup pass;
  - LRU, LFU and random eviction;
  - `maxKeys`/`maxSize` limits;
  - `Increment` on JSON-encoded 64-bit integers, with wrap-around;
  - `parseSize`/`parseInt`.
- **`Stores`** (`stores.dfy`): the `Backend` interface as the façade sees it.
  It is a value holding the stored bytes with their TTLs and statistics,
  plus a set of operations that currently fail (a server that is down).
  Tiers and shards are built from it.
- **`Sharding`** (`sharding.dfy`): the consistent-hash, modulo-hash and range
  sharders as classes. The consistent-hash ring's sorted key array is
  maintained in place. The module also has `ShardKey`,
  `GenerateShardKey` and `ExtractOriginalKey`.
- **`Client`** (`client.dfy`): the single, hierarchical and distributed read,
  write, delete, exists and statistics paths of `cache_helpers.go`.
- **`Cache`** (`cache.dfy`): the façade of `cache.go`. It covers `New` and the
  per-key operations. The batch operations (`GetMulti`, `SetMulti`,
  `DeleteMulti`) are loops proved against recursive specification functions.
  It also covers `Clear`, `Stats`, `Health` and `Close`.
- **`RedisInfo`** (`redis_info.dfy`): the INFO-reply parsing helpers of the
  Redis backend (`splitLines`, `splitString`, `findChar`, `parseRedisInfo`,
  `parseKeyCount`).
- **`Scenarios`** (`scenarios.dfy`): two façade-level usage scenarios of
  `cache_test.go`, proved outright.
- **Shared modules**: `Wrappers` (Option, Result, the error kinds) and
  `Text` (decimal rendering, Go's 64-bit wrap-around `Wrap64`, the source's
  split loop, `strings.Split` and `strings.Join` on characters).

Time is an explicit `now` parameter, in nanoseconds, as Go's `time.Duration`
counts. The CRC-32 and MD5 hashes are function-valued parameters.

## Model

| member | source | states |
|---|---|---|
| Config.Contains | pkg/config/config.go:459-466 | the loop answers true exactly when the item is in the list |
| Config.Config.constructor | pkg/config/config.go:13-59 | a configuration object holds exactly the record it is built from |
| Config.Config.ValidateRedisConfig | pkg/config/config.go:321-341 | only the Redis record changes: zero addresses, pool size and timeouts get their defaults (localhost:6379, 10, 5 s, 3 s, 3 s) |
| Config.Config.ValidateMemcachedConfig | pkg/config/config.go:343-357 | only the Memcached record changes: empty servers, timeout and idle connections get localhost:11211, 100 ms and 2 |
| Config.Config.ValidateMemoryConfig | pkg/config/config.go:359-377 | only the memory record changes (100MB, lru, 10 min defaults); it fails with an eviction_policy error exactly when the policy is not lru, lfu or random |
| Config.Config.ValidateCommon | pkg/config/config.go:258-300 | the backend, serializer, compression, hierarchical and distributed checks in source order, with their defaults, as `CommonChecks` |
| Config.Config.Validate | pkg/config/config.go:258-319 | the in-place rewrite and the verdict are exactly `Validated` of the old record |
| Config.RejectsUnknownBackend | pkg/config/config.go:260-263 | a backend outside memory/redis/memcached is rejected before anything is rewritten |
| Config.SerializerRule | pkg/config/config.go:265-272 | an empty serializer becomes json; an unknown one is rejected with the record untouched; an accepted record names a known serializer |
| Config.CompressionRule | pkg/config/config.go:274-283 | with compression on, an accepted record names gzip, lz4 or snappy, and an empty algorithm becomes gzip; with it off the algorithm is untouched |
| Config.ModeRules | pkg/config/config.go:285-300 | an accepted hierarchical record names both tier backends; an accepted distributed one has peers, and port 0 becomes 50051 |
| Config.MemoryRule | pkg/config/config.go:359-377 | an accepted memory record has a known eviction policy and the documented defaults; an unknown non-empty policy is rejected |
| Config.CommonChecksIdempotent | pkg/config/config.go:258-300 | the common checks accept their own output unchanged |
| Config.CommonChecksIgnoreBackendRecords | pkg/config/config.go:258-300 | the common checks do not look at the Redis, Memcached or memory records |
| Config.BackendChecksIdempotent | pkg/config/config.go:302-316 | the backend-specific defaults are a fixed point |
| Config.ValidatedKeepsModes | pkg/config/config.go:258-319 | validation never changes the mode flags, the tier records or the sharding record |
| Config.ValidateIdempotent | pkg/config/config.go:258-319 | validating an accepted, validated record accepts it again and changes nothing |
| Config.ParseInt | pkg/config/config.go:491-501 | an all-digit string gives the value the `result*10 + digit` loop reaches in a 64-bit `int`, wrapping at every step (`Accumulated`), and that is its decimal value whenever the value fits in 64 bits; any other character gives 0 |
| Config.AccumulatedExact | pkg/config/config.go:491-501 | while the decimal value of the digits fits in 64 bits nothing wraps, and the loop's value is exactly the decimal value |
| Config.DecimalStringRoundTrip | pkg/config/config.go:491-501 | parsing a rendered natural number gives the number back, and the wrapping 64-bit loop gives it back for every number up to 2^63 - 1 |
| Backends.NewBackend | pkg/backends/backend.go:67-78 | memory, redis and memcached are accepted and any other name is an unsupported-backend error |
| Backends.NewSerializer | pkg/backends/backend.go:81-92 | exactly json, gob and msgpack are accepted, and the serializer built carries that name |
| Backends.NewCompressor | pkg/backends/backend.go:95-106 | exactly gzip, lz4 and snappy are accepted, and the compressor built carries that name |
| Backends.ValidatedConfigBuilds | pkg/backends/backend.go:67-106 | every factory succeeds on the names of a validated record |
| Backends.ShouldCompress | pkg/backends/compressor.go:114-138 | data below the minimum size and data starting with gzip, zip, PNG or JPEG magic is not compressed; data of at most 10 bytes that meets the minimum is |
| Backends.ShouldCompressOtherwise | pkg/backends/compressor.go:114-138 | data long enough and without a known magic prefix is compressed |
| Backends.Serialize | pkg/backends/serializer.go:13-21 | deserializing with the same serializer gives the value back |
| Backends.Deserialize | pkg/backends/serializer.go:18-21 | only data in the serializer's format is accepted, and accepted data is exactly the format tag followed by the value it yields |
| Backends.Compress | pkg/backends/compressor.go:13-39 | decompressing the output gives the input back |
| Backends.Decompress | pkg/backends/compressor.go:30-39 | only data carrying the gzip header decompresses |
| Backends.CompressData | pkg/backends/compressor.go:98-103 | no compressor leaves data untouched; otherwise `DecompressData` undoes it |
| Backends.DecompressData | pkg/backends/compressor.go:106-111 | no compressor leaves data untouched |
| Backends.CompressedIsNotSerialized | pkg/backends/compressor.go:13-39 | compressed bytes are never accepted by a deserializer |
| Backends.SerializedIsNotCompressed | pkg/backends/serializer.go:13-21 | serialized bytes are never accepted by a decompressor |
| Text.Wrap64 | pkg/backends/memory.go:224-225 | the result is a 64-bit integer and equals the input when that already is one |
| Memory.ParseJsonInt64 | pkg/backends/memory.go:217-221 | any number parsed is a 64-bit integer |
| Memory.DecimalBytesRoundTrip | pkg/backends/memory.go:217-226 | a stored counter value parses back to the same number |
| Memory.ParseLeadingInt | pkg/backends/memory.go:435-445 | scanning stops at the first non-digit; the result is the leading digits' value as the int64 loop accumulates it, wrapping at every step, and exactly their decimal value when that fits in 64 bits |
| Memory.ParseSize | pkg/backends/memory.go:414-433 | "" is 0; KB, MB and GB suffixes multiply the leading number by 1024 once, twice or three times, each product wrapping to 64 bits, so the result is the leading number times 1024, 1048576 or 1073741824 whenever that fits; anything else is its leading number; the result is always a 64-bit integer |
| Memory.DefaultMaxSize | pkg/backends/memory.go:42-62 | the default size "100MB" is 104857600 bytes |
| Memory.RemainingAfterSet | pkg/backends/memory.go:94-99 | right after a set, TTL reports the given ttl, else the default ttl, else -1 |
| Memory.TotalSizeRemove | pkg/backends/memory.go:134-145 | removing an item lowers the byte total by its size |
| Memory.TotalSizeUpdate | pkg/backends/memory.go:93-131 | replacing an item changes the byte total by the size difference |
| Memory.MemoryBackend.constructor | pkg/backends/memory.go:42-62 | an empty store, zero counters, the parsed size limit and the start time |
| Memory.MemoryBackend.Remove | pkg/backends/memory.go:134-145 | the key leaves the map and its bytes leave the total; counters are unchanged |
| Memory.MemoryBackend.EvictLRU | pkg/backends/memory.go:364-381 | at most one entry goes, and it has the least recent access time; "" is the scan's not-found marker |
| Memory.MemoryBackend.EvictLFU | pkg/backends/memory.go:384-401 | at most one entry goes, and it has the least access count |
| Memory.MemoryBackend.EvictRandom | pkg/backends/memory.go:404-411 | exactly one entry goes when the store is non-empty |
| Memory.MemoryBackend.EvictItems | pkg/backends/memory.go:350-361 | at most one entry goes, and it is the policy's choice (`PolicyVictim`): least access count under lfu, least access time under lru and unknown policies (when no key is ""), any entry under random; random evicts exactly when the store is non-empty, and every policy evicts from a non-empty store without a "" key |
| Memory.MemoryBackend.SizeStep | pkg/backends/memory.go:110-113 | the byte check removes nothing unless the new total exceeds a positive limit, and then the policy's choice (`SizeCheck`); evictions grows by the number removed |
| Memory.MemoryBackend.CountStep | pkg/backends/memory.go:115-118 | the key check removes nothing below a positive key limit; at the limit it removes a least recently used entry, never the "" marker, whatever the policy, and counts it |
| Memory.MemoryBackend.MakeRoom | pkg/backends/memory.go:110-119 | the store loses exactly the two checks' victims and evictions grows by the number of keys that went; the byte check's victim is the policy's choice and only when over the limit; the key check's victim is a least recently used entry among the rest, taken whenever the rest fill the limit (`CountCheck`); the key count ends below the limit; nothing goes when there is room |
| Memory.MemoryBackend.Set | pkg/backends/memory.go:93-131 | the new map is the old one minus the two checks' victims (as in `MakeRoom`, with the byte check against the old total plus the new value's length), with the key holding the new item and its computed expiry; evictions grows by the number of victims; sets is incremented; the key limit holds; with room, nothing is evicted |
| Memory.MemoryBackend.Get | pkg/backends/memory.go:65-90 | absent: key not found and a miss; expired: removed, key expired and a miss; otherwise the value, a hit, and a new access time and count (`GetEffect`); it succeeds exactly when the key is present and unexpired |
| Memory.MemoryBackend.Exists | pkg/backends/memory.go:148-166 | true exactly for a present, unexpired key; an expired key is removed |
| Memory.MemoryBackend.Delete | pkg/backends/memory.go:134-145 | always succeeds; the key is gone, and deletes and the byte total move only when it was there |
| Memory.MemoryBackend.GetMulti | pkg/backends/memory.go:169-179 | the result holds exactly the requested, present, unexpired keys with their values; the new map is `AfterGets`: listed expired keys are gone, each live listed key was accessed at `now` once per listing, the rest are untouched; hits grows by the number of positions whose key was live (`LiveCount`) and misses by the others; sets, deletes, evictions, the byte counter and the cleanup flag are unchanged |
| Memory.LiveCount | pkg/backends/memory.go:169-179 | at most one hit per listed position, and a hit for every position exactly when every listed key is present and unexpired |
| Memory.AfterGetsStep | pkg/backends/memory.go:65-90 | one more `Get` takes the closed form of the map after a run of Gets one key further, and it hits exactly when the key was live in the original map, so a hit keeps its key live and a miss never revives one |
| Memory.MemoryBackend.SetMulti | pkg/backends/memory.go:182-189 | one set per item; counters other than sets and evictions are unchanged |
| Memory.MemoryBackend.DeleteMulti | pkg/backends/memory.go:192-199 | the listed keys are gone, the rest kept with their items, and deletes counts what was removed; hits, misses, sets, evictions and the cleanup flag are unchanged |
| Memory.MemoryBackend.Increment | pkg/backends/memory.go:202-230 | an absent key starts at delta without expiry; a non-number fails untouched; a number becomes the 64-bit wrapped sum, which is what is stored |
| Memory.MemoryBackend.Decrement | pkg/backends/memory.go:233-235 | an increment by the wrapped negation of delta |
| Memory.MemoryBackend.Expire | pkg/backends/memory.go:238-254 | an absent key fails; otherwise the expiry becomes now + ttl, or none for ttl <= 0 |
| Memory.MemoryBackend.TTL | pkg/backends/memory.go:257-276 | key not found; -1 without expiry; else the remaining time, floored at 0 |
| Memory.MemoryBackend.Clear | pkg/backends/memory.go:279-287 | the map and byte total are emptied; the counters are kept |
| Memory.MemoryBackend.Stats | pkg/backends/memory.go:290-306 | the counters, key count, byte total (which equals the items' total size) and uptime in whole seconds |
| Memory.MemoryBackend.Health | pkg/backends/memory.go:309-312 | always healthy |
| Memory.MemoryBackend.Close | pkg/backends/memory.go:315-318 | the cleanup loop is stopped and the data is kept |
| Memory.MemoryBackend.CleanupExpired | pkg/backends/memory.go:336-347 | the map keeps exactly the unexpired entries |
| Memory.CounterScenario | cache_test.go:127-139 | increments by 5 and 3 and a decrement by 2 on a fresh key give 5, 8 and 6 |
| Memory.TtlScenario | cache_test.go:50-75 | a 100 ms value reads back at once and reads as expired 200 ms later |
| Memory.StatsScenario | cache_test.go:151-176 | two sets, a hit, a miss and a delete give counters 1, 1, 2, 1 and one key |
| Memory.StatsPrepare | cache_test.go:151-176 | after the test's two writes the store holds key1 and key2, sets is 2 and the other counters 0 |
| Memory.LruPrepare | pkg/backends/memory.go:364-381 | with room for two keys, after writing a and b and reading a, the store holds a and b and a was used more recently |
| Memory.LruPicksOlder | pkg/backends/memory.go:364-381 | from a store of a and b where a was used more recently, the key-limit eviction removes b |
| Memory.LruScenario | pkg/backends/memory.go:364-381 | with room for two keys, writing a and b, reading a, then writing c evicts b, the least recently used |
| Stores.Get | pkg/backends/backend.go:13-38 | the stored bytes of a present key; a failing backend gives a backend error |
| Stores.Set | pkg/backends/backend.go:13-38 | a working backend stores the bytes and TTL; a failing one changes nothing |
| Stores.Delete | pkg/backends/backend.go:13-38 | the key is removed, absent or not |
| Stores.Exists | pkg/backends/backend.go:13-38 | true exactly for a stored key |
| Stores.GetMulti | pkg/backends/backend.go:13-38 | exactly the requested stored keys, with their bytes |
| Stores.SetMulti | pkg/backends/backend.go:13-38 | every item is stored with the TTL and other entries are kept |
| Stores.DeleteMulti | pkg/backends/backend.go:13-38 | exactly the listed keys are removed and every surviving entry keeps its bytes and TTL; a failing batch delete changes nothing |
| Stores.Increment | pkg/backends/backend.go:13-38 | a successful result is a 64-bit integer stored under the key; other keys are unchanged |
| Stores.Decrement | pkg/backends/backend.go:13-38 | an increment by the wrapped negation |
| Stores.Expire | pkg/backends/backend.go:13-38 | the TTL of a present key is replaced; an absent key fails |
| Stores.TTL | pkg/backends/backend.go:13-38 | the TTL a present key was last written with (0 for none); KeyNotFound for an absent key |
| Stores.Clear | pkg/backends/backend.go:13-38 | a working backend is emptied |
| Stores.Stats | pkg/backends/backend.go:41-51 | the backend's statistics record |
| Stores.Health | pkg/backends/backend.go:13-38 | healthy exactly when health checks do not fail |
| Stores.Close | pkg/backends/backend.go:13-38 | closes exactly when closing does not fail |
| Stores.IncrementCases | pkg/backends/memory.go:202-230 | an absent key yields `delta` wrapped to 64 bits and is stored without TTL; a value that is not a 64-bit integer fails with NotANumber and leaves the store as it was; a stored number a yields the wrapped a + delta and keeps its TTL |
| Stores.IncrementStoredNumber | pkg/backends/memory.go:202-230 | a stored number a becomes the wrapped a + delta |
| Stores.IncrementAccumulates | pkg/backends/memory.go:202-230 | a second increment starts from the first one's result |
| Stores.SetThenGet | pkg/backends/memory.go:65-131 | what a set stored, a get returns |
| Stores.DeleteMultiThenExists | pkg/backends/memory.go:148-199 | after a batch delete a key exists exactly when it existed and was not listed |
| Sharding.Insert | pkg/sharding/sharding.go:54-57 | inserting into a sorted array keeps it sorted and adds exactly one element |
| Sharding.SortKeys | pkg/sharding/sharding.go:54-57 | the keys come out sorted and a permutation of the input |
| Sharding.SortedUnique | pkg/sharding/sharding.go:54-57 | two sorted arrays with the same elements are equal |
| Sharding.Positions | pkg/sharding/sharding.go:47-52 | replica i of a shard sits at the hash of "shard-<index>-<i>" |
| Sharding.StripSubset | pkg/sharding/sharding.go:63-94 | the ring-removal loop only drops positions |
| Sharding.StripSorted | pkg/sharding/sharding.go:63-94 | the ring-removal loop keeps the key array sorted |
| Sharding.StripRing | pkg/sharding/sharding.go:63-94 | exactly the listed positions owned by the removed shard leave the ring |
| Sharding.StripCount | pkg/sharding/sharding.go:63-94 | a position of the removed shard is dropped from the key array and every other position keeps its multiplicity |
| Sharding.StripAll | pkg/sharding/sharding.go:63-94 | removing shard 0 from a ring that holds only shard 0 empties the key array |
| Sharding.AddThenRemove | pkg/sharding/sharding.go:43-94 | adding a shard with fresh positions and removing it again restores the key array and the ring |
| Sharding.FirstAtLeastSplits | pkg/sharding/sharding.go:97-120 | the search index separates keys below the hash from the first key at or above it |
| Sharding.Search | pkg/sharding/sharding.go:134-137 | the binary search finds the first key at or above the hash |
| Sharding.AddPositions | pkg/sharding/sharding.go:47-52 | the loop appends the shard's replica positions and assigns them to the shard |
| Sharding.AddToRing | pkg/sharding/sharding.go:43-60 | the key array stays sorted, gains exactly the new positions, and every ring entry names a shard |
| Sharding.StripLoop | pkg/sharding/sharding.go:68-77 | the deletion loop computes `Strip` |
| Sharding.RenumberLoop | pkg/sharding/sharding.go:79-88 | ring values above the removed index move down by one |
| Sharding.ConsistentHashSharder.constructor | pkg/sharding/sharding.go:33-40 | an empty ring with the given replica count and hash |
| Sharding.ConsistentHashSharder.AddShard | pkg/sharding/sharding.go:43-60 | the backend is appended and its positions are added to the sorted ring |
| Sharding.ConsistentHashSharder.RemoveShard | pkg/sharding/sharding.go:63-94 | an out-of-range index fails untouched; otherwise the shard, its positions and its ring entries go, and higher indexes shift down |
| Sharding.ConsistentHashSharder.GetShardIndex | pkg/sharding/sharding.go:123-145 | -1 without shards, 0 with one, otherwise the owner of the first position at or after the key's hash, wrapping around |
| Sharding.ConsistentHashSharder.GetShard | pkg/sharding/sharding.go:97-120 | none without shards, otherwise the backend at the owning index |
| Sharding.ConsistentHashSharder.GetShardCount | pkg/sharding/sharding.go:153-155 | the number of shards |
| Sharding.AddThenRemoveRestores | pkg/sharding/sharding.go:43-94 | adding then removing the last shard through the class restores its state |
| Sharding.HashSharder.constructor | pkg/sharding/sharding.go:168-172 | no shards and the given hash |
| Sharding.HashSharder.AddShard | pkg/sharding/sharding.go:175-178 | the backend is appended |
| Sharding.HashSharder.RemoveShard | pkg/sharding/sharding.go:181-188 | an out-of-range index fails untouched; otherwise exactly that shard goes |
| Sharding.HashSharder.GetShard | pkg/sharding/sharding.go:191-199 | no backend exactly when there are no shards, otherwise the shard at the hash modulo the shard count |
| Sharding.HashSharder.GetShardIndex | pkg/sharding/sharding.go:202-209 | -1 without shards, otherwise the hash modulo the shard count |
| Sharding.FirstRange | pkg/sharding/sharding.go:285-290 | the first range whose boundary byte is at least the key's first byte |
| Sharding.RangeSharder.constructor | pkg/sharding/sharding.go:234-239 | no shards and no ranges |
| Sharding.RangeSharder.AddShard | pkg/sharding/sharding.go:242-247 | the backend is appended with boundary letter 'a' + count - 1 |
| Sharding.RangeSharder.RemoveShard | pkg/sharding/sharding.go:250-258 | an out-of-range index fails untouched; otherwise that shard and its boundary go |
| Sharding.RangeSharder.GetShard | pkg/sharding/sharding.go:261-272 | no backend exactly when there are no shards; otherwise the first shard for "", else the shard of the first range at or above the key's first byte, else the last shard |
| Sharding.RangeSharder.GetShardIndex | pkg/sharding/sharding.go:275-294 | -1 without shards, 0 for "", else the first range whose boundary is at or above the first byte, else the last shard |
| Sharding.LetterRoutes | pkg/sharding/sharding.go:275-294 | with n letter ranges, a key starting with the i-th letter goes to shard i |
| Sharding.NewSharder | pkg/sharding/sharding.go:307-322 | "hash" and "range" choose their sharders; anything else is consistent hashing, with 100 replicas unless a positive count is given |
| Sharding.GenerateShardKey | pkg/sharding/sharding.go:335-337 | the key starts with "shard:", then the decimal index, which holds no ':', then ':' and the original key at the end |
| Sharding.ShardKey | pkg/sharding/sharding.go:325-332 | 0 without shards, otherwise an index in range |
| Sharding.ExtractOriginalKey | pkg/sharding/sharding.go:340-369 | the segments after the second ':' of a "shard:" key, or the input unchanged |
| Sharding.ExtractDropsTrailingColon | pkg/sharding/sharding.go:340-369 | as written, the generated key of "a:" extracts to "a": the loop keeps no empty last segment |
| Sharding.ExtractIntendedGenerated | pkg/sharding/sharding.go:335-369 | splitting on every ':' and keeping empty segments, extraction inverts `GenerateShardKey` for every key, "" and keys ending in ':' included |
| Sharding.ExtractGenerated | pkg/sharding/sharding.go:335-369 | extracting from a generated shard key gives back the original key when it does not end in ':' |
| Sharding.ExtractOther | pkg/sharding/sharding.go:340-369 | a string not in the shard-key form comes back unchanged |
| Text.SplitJoin | pkg/sharding/sharding.go:342-365 | joining the split of a string not ending in the delimiter gives the string back |
| Client.Encode | cache_helpers.go:108-125 | decoding what was encoded gives the value back |
| Client.Decode | cache_helpers.go:90-103 | a failed decompression or deserialization is a codec failure; a success means the bytes decompress to the value's serialization |
| Client.DecodeOnlyEncodings | cache_helpers.go:90-125 | whatever decodes is the encoding of the value it decodes to, so decoding accepts nothing but encodings |
| Client.GetSingle | cache_helpers.go:83-105 | the backend's failure or key-not-found passes through; a stored entry is decoded, and a success is the value whose encoding is stored |
| Client.SetSingle | cache_helpers.go:108-125 | succeeds exactly when the backend's set works, and then the key holds the encoded value with the ttl; a failure changes nothing |
| Client.DeleteSingle | cache_helpers.go:127-130 | succeeds exactly when the backend's delete works, and then the key is gone; a failure changes nothing |
| Client.SingleRoundTrip | cache_helpers.go:83-125 | after a successful single set, a single get decodes the same value |
| Client.SingleMissing | cache_helpers.go:83-105 | an absent key reads as key not found |
| Client.GetHierarchical | cache_helpers.go:133-159 | an L1 hit is returned untouched; else L2 is asked and its error returned, or its value returned after writing it to L1 with the L1 TTL (5 min when 0); L2 never changes |
| Client.L1HitIgnoresL2 | cache_helpers.go:133-145 | on an L1 hit the L2 contents do not matter |
| Client.PromotionTTL | cache_helpers.go:148-151 | a promoted value never gets TTL 0: the configured L1 TTL when it is set, otherwise five minutes |
| Client.PromotionFillsL1 | cache_helpers.go:146-158 | a value read from L2 is then found in L1 with the promotion TTL |
| Client.SetHierarchical | cache_helpers.go:162-173 | L1 is written first and a failure there stops; otherwise L2 is written and its outcome returned |
| Client.SetThenGetHierarchical | cache_helpers.go:133-173 | after a hierarchical set, a hierarchical get returns the value from L1 |
| Client.DeleteHierarchical | cache_helpers.go:176-187 | both tiers are tried, and the delete fails only when both fail |
| Client.DeleteThenGetHierarchical | cache_helpers.go:133-187 | after a delete that works on both tiers, the key is not found |
| Client.DeleteKeepsL2Copy | cache_helpers.go:176-187 | when only L2's delete fails the delete still reports success, and the next get brings the old L2 value back |
| Client.ExistsHierarchical | cache_helpers.go:190-198 | true when either tier has the key; otherwise L2's answer or error |
| Client.GetShard | cache_helpers.go:276-288 | none without shards, shard 0 with one, else the CRC-32 shard index |
| Client.GetDistributed | cache_helpers.go:201-228 | no shards is a no-shard error |
| Client.SetDistributed | cache_helpers.go:231-253 | no shards is a no-shard error; only the key's shard changes |
| Client.DeleteDistributed | cache_helpers.go:256-263 | no shards is a no-shard error; only the key's shard changes |
| Client.ExistsDistributed | cache_helpers.go:266-273 | NoShardAvailable without shards; otherwise true exactly when the key's shard works and holds the key, false exactly when it works and does not, and a failing shard's error passes through |
| Client.DistributedRoundTrip | cache_helpers.go:201-253 | a distributed set then get returns the value |
| Client.DistributedWritesAreIsolated | cache_helpers.go:201-253 | a write does not change what a key on another shard reads |
| Client.InitShards | cache_helpers.go:54-75 | the configured number of empty shards, 3 when not positive |
| Client.Max | cache_helpers.go:341-346 | the larger of the two |
| Client.StatsHierarchical | cache_helpers.go:291-313 | fails if either tier fails; otherwise the counts are summed and the uptime is the larger |
| Client.StatsDistributed | cache_helpers.go:316-338 | the loop computes `SumStats`: failing shards are skipped |
| Client.SumStatsMeaning | cache_helpers.go:316-338 | the hits are those of the working shards, and the uptime is the largest working shard's uptime (0 if none) |
| Client.HierarchicalIsDistributedOfTwo | cache_helpers.go:291-338 | combining two tiers is the shard sum of those two stores |
| Cache.Get | cache.go:173-190 | a hierarchical, distributed or single read, chosen by mode; the client keeps its shape |
| Cache.Set | cache.go:193-210 | a hierarchical, distributed or single write, chosen by mode |
| Cache.Delete | cache.go:213-230 | a hierarchical, distributed or single delete, chosen by mode |
| Cache.Exists | cache.go:233-250 | a hierarchical, distributed or single presence check, chosen by mode |
| Cache.SetThenGet | cache.go:173-210 | in every mode, with working backends, a set is read back by get |
| Cache.SetLeavesOtherKeys | cache.go:173-210 | a set does not change what another key reads |
| Cache.GetIsStable | cache.go:173-190 | a read, including its L1 promotion, does not change what any key reads |
| Cache.DeleteThenGet | cache.go:173-230 | in every mode, with working backends, a deleted key is not found |
| Cache.DeleteLeavesOtherKeys | cache.go:173-230 | a delete does not change what another key reads |
| Cache.Increment | cache.go:338-356 | L2 in hierarchical mode, the key's shard in distributed mode, or the single backend does the increment; nothing else changes |
| Cache.Decrement | cache.go:359-377 | an increment by the wrapped negation |
| Cache.IncrementRoutes | cache.go:338-356 | an increment is exactly the backend increment of the store the key routes to, and the next increment is routed to the store it updated |
| Cache.IncrementAccumulates | cache.go:338-356 | in every mode, a second increment starts from the first one's result |
| Cache.SetNX | cache.go:380-397 | an existing key gives false untouched; an absent key is set, and true is returned exactly when the set succeeds; existence errors pass through |
| Cache.SetNXAfterSet | cache.go:380-397 | after a set, set-if-absent gives false and changes nothing |
| Cache.GetSet | cache.go:400-415 | the old value, or none, is returned and the new value is written without TTL; a failed write is an error |
| Cache.GetSetSwaps | cache.go:400-415 | after set v, get-set w returns v and leaves w readable |
| Cache.Expire | cache.go:418-429 | unsupported in hierarchical and distributed mode; otherwise the backend's expire |
| Cache.TTL | cache.go:432-443 | unsupported exactly in hierarchical and distributed mode; otherwise the backend's TTL |
| Cache.GetEachIsFound | cache.go:258-268 | reading keys one by one yields exactly the keys that read successfully, with their values, and later reads are unchanged |
| Cache.DecodeAll | cache.go:277-284 | the loop keeps exactly the entries that decode, with their decoded values |
| Cache.GetMulti | cache.go:253-287 | hierarchical and distributed mode read key by key; single mode is the backend's batch read decoded by the corrected path, decompressing before deserializing (see Findings) |
| Cache.GetMultiAsWrittenDropsCompressed | cache.go:272-286 | as written, with compression on, a key that get reads is missing from the batch read |
| Cache.GetMultiSingleFindsSet | cache.go:253-287 | with decompression, a batch read finds what a set wrote |
| Cache.SetEachWritesAll | cache.go:295-303 | writing items one by one with working backends succeeds and makes each readable |
| Cache.EncodeAll | cache.go:306-313 | the loop encodes every item |
| Cache.SetMulti | cache.go:290-315 | hierarchical and distributed mode write item by item and stop at the first failure; single mode encodes all by the corrected path, serializing then compressing (see Findings), and batch-writes |
| Cache.SetMultiAsWrittenUnreadable | cache.go:306-314 | as written, with compression on, a value stored by the batch write fails to decode on get |
| Cache.SetMultiSingleReadsBack | cache.go:290-315 | for any codec, compression included, every item of the corrected batch write reads back through get |
| Cache.SetMultiThenGetMulti | cache.go:253-315 | on an empty backend, a batch read after a batch write returns exactly the written items among the requested keys |
| Cache.AsWrittenAgreesWithoutCompression | cache.go:272-314 | without a compressor the as-written and the corrected batch operations agree |
| Cache.DeleteEachRemovesAll | cache.go:323-331 | deleting keys one by one with working backends removes them all |
| Cache.DeleteMulti | cache.go:318-335 | hierarchical and distributed mode delete key by key, stopping at the first failure; single mode is the backend's batch delete |
| Cache.FirstFailing | cache.go:459-467 | the index of the first shard whose operation fails, or the count |
| Cache.ClearShards | cache.go:459-467 | shards are cleared in order up to the first failure, which is reported |
| Cache.Clear | cache.go:446-471 | succeeds exactly when every managed backend clears, and then all of them are empty; a failing L1 leaves the client unchanged, L2 untouched included; a working L1 is emptied whatever L2 does; shards are emptied up to the first failing one and the rest are untouched; a distributed client's main backend is untouched |
| Cache.EmptyMisses | cache.go:173-190 | a cleared client finds no key |
| Cache.HealthShards | cache.go:521-529 | passes exactly when no shard fails its health check, and otherwise reports the first failure |
| Cache.Health | cache.go:508-533 | healthy exactly when every managed backend is |
| Cache.Stats | cache.go:474-505 | tier statistics combined, the shard sum, or the backend's, by mode |
| Cache.FailCountZero | cache.go:536-577 | no failures counted exactly when no shard fails |
| Cache.Close | cache.go:536-577 | every backend is closed; success exactly when none fails, else an error carrying the failure count |
| Cache.CloseSucceedsWhenAllClose | cache.go:536-577 | the failure count is zero exactly when every backend closes |
| Cache.TierConfigValidates | cache_helpers.go:21-51 | a tier's derived configuration keeps the outer serializer and gets gzip when compression is on |
| Cache.BuildCodec | cache.go:131-145 | the codec carries the configured serializer, and a compressor of the configured algorithm exactly when compression is on |
| Cache.NewHierarchical | cache_helpers.go:21-51 | succeeds exactly when both tier configurations validate; the tiers are empty, keep the outer serializer, use gzip when compressing, and L1 keeps the configured TTL |
| Cache.New | cache.go:107-170 | a rejected configuration gives its validation error; otherwise a client in the configured mode with empty stores, the configured codec, 3 shards by default, and tiers that share the serializer and use gzip when compressing |
| RedisInfo.LinesArePieces | pkg/backends/redis.go:268-288 | the lines are non-empty, hold no line break, and concatenate to the input without its breaks |
| RedisInfo.SplitLines | pkg/backends/redis.go:268-288 | the loop computes `Lines` |
| RedisInfo.SplitString | pkg/backends/redis.go:290-308 | the loop computes `Split`, empty segments included |
| RedisInfo.SplitHasNoDelimiter | pkg/backends/redis.go:290-308 | no segment contains the delimiter |
| RedisInfo.SplitKeepsEmptySegments | pkg/backends/redis.go:290-308 | two adjacent delimiters produce an empty segment |
| RedisInfo.IndexOf | pkg/backends/redis.go:310-317 | the first position of the character, or -1 exactly when it is absent |
| RedisInfo.FindChar | pkg/backends/redis.go:310-317 | the loop computes `IndexOf` |
| RedisInfo.FieldKey | pkg/backends/redis.go:241-246 | the key has no ':' and the line is key ':' value |
| RedisInfo.ParseRedisInfo | pkg/backends/redis.go:236-251 | the map of the field lines of the reply |
| RedisInfo.FieldsKeys | pkg/backends/redis.go:236-251 | a key is in the map exactly when some non-comment line with ':' has it |
| RedisInfo.LastFieldWins | pkg/backends/redis.go:236-251 | a key's value is that of its last line |
| RedisInfo.ParseInt64 | pkg/backends/redis.go:258-262 | a parsed number is a 64-bit integer; "" does not parse |
| RedisInfo.ParseInt64RoundTrip | pkg/backends/redis.go:258-262 | a rendered 64-bit integer parses back |
| RedisInfo.FirstKeyCount | pkg/backends/redis.go:254-265 | the value of the first "keys=" segment that parses, or 0 |
| RedisInfo.ParseKeyCount | pkg/backends/redis.go:254-265 | the loop over the ','-separated segments computes `FirstKeyCount` |
| Scenarios.NewMemoryJson | cache.go:107-170 | a memory/json configuration builds an empty single-mode client without compression |
| Scenarios.MultiWrite | cache_test.go:77-94 | a new memory/json client's batch write of the items leaves its working backend holding exactly their keys |
| Scenarios.MultiWriteRead | cache_test.go:77-104 | a batch write of three keys then a batch read of them and an absent key finds exactly the three, and the backend holds them |
| Scenarios.MultiOperations | cache_test.go:77-115 | a batch write of three keys reads back all three; after deleting two, only the third exists |
| Scenarios.AtomicOperations | cache_test.go:117-149 | increments give 5 and 8, a decrement 6; set-if-absent refuses an existing key and accepts a new one |

## Left out

- Redis and Memcached clients: the network protocols, connection pools and `NewRedisBackend`/`NewMemcachedBackend` connection checks are not modelled; the backend kinds are chosen by `NewBackend`, and their stores are abstract `Stores.Store` values.
- Connection failures in `New`: building a backend is modelled as always succeeding; a server that is down shows up as failing operations on its store.
- Serializer and compressor bodies: JSON, gob, msgpack, gzip, lz4 and snappy are stand-ins with the same inverse and rejection properties, not the real byte formats. `SerializeValue`'s pass-through for `[]byte` and string values is not modelled.
- Hash functions: CRC-32 and MD5 are parameters; their bit-level definitions are not modelled.
- Concurrency: mutexes, atomics and the background cleanup goroutine are not modelled; `CleanupExpired` is the cleanup pass as one call, and `cleanup`'s ticker loop is left out.
- `Stats.HitRatio`: floating point, left out.
- Metrics and tracing (`pkg/metrics`, `pkg/tracing`, `startSpan`): observability only, left out.
- Configuration I/O: `LoadFromFile`, `LoadFromEnv`, `SaveToFile` and the environment helpers read files and the environment; left out.
- Strings are character sequences: Go's byte indexing (`s[0]` in the range sharder, byte loops in `splitString`) agrees with the model on ASCII keys only; `FirstByte` gives the UTF-8 lead byte.
- `initSharding` builds a `Sharder` that the client never uses; only the shard stores are modelled.
- Tier configuration: a tier record carries backend, TTL and memory settings; tier-specific Redis and Memcached records are not modelled.
- Tiers, shards and the single-mode backend are `Stores.Store` values: they do not model expiry or eviction inside a store (the memory backend itself does, in `Memory`), so the façade lemmas (`Cache.SetThenGet`, `Cache.GetSetSwaps`, `Cache.SetNXAfterSet` and the rest) hold for stores without a clock.
- Stores.TTL: reports the TTL given when the key was last written (0 for none), not the time remaining or -1 for an entry without expiry as the memory backend does (`Memory.MemoryBackend.TTL`), since a `Stores.Store` has no clock.
- Memory.MemoryBackend.Close: requires the cleanup loop not yet stopped; a second `Close` closes a closed channel, which panics in Go (pkg/backends/memory.go:315-318), and the panic is not modelled.
- Sharding.ConsistentHashSharder.GetShardIndex: requires a non-empty ring once there are two or more shards; with `replicas <= 0` the ring stays empty and Go indexes `c.keys[0]` out of range and panics (pkg/sharding/sharding.go:140-144), which is not modelled.
- Sharding.ConsistentHashSharder.GetShard: the same requires as `GetShardIndex`, for the same out-of-range panic (pkg/sharding/sharding.go:114-118).
- Cache.GetMulti, Cache.SetMulti: single mode uses the corrected codec path; the code as written is `Cache.GetMultiSingleAsWritten` and `Cache.SetMultiSingleAsWritten`, which agree with it when compression is off (`Cache.AsWrittenAgreesWithoutCompression`) and differ as the Findings show.
- Redis `Stats` and the INFO round trip are not modelled; only the parsing helpers are.
- Cache.Increment: the hierarchical branch increments L2 only, as the source does; the stale L1 copy this leaves is not stated as a lemma.
- Memory.MemoryBackend.SetMulti: states the counters and that it succeeds, not the resulting map, because each item goes through `Set`'s eviction.
- Memory.MemoryBackend.EvictLRU, Memory.MemoryBackend.EvictLFU: the victim is a ghost out-parameter; when "" is itself a key, the scan's "" marker makes the eviction a no-op, and the contracts state that case only as a disjunct.
- Scenarios.MultiOperations: the three values are parameters rather than the test's strings, since the model's values are abstract.

## Findings

| source | as written | input that shows it | evidently intended | confidence | as-written member | corrected member |
|---|---|---|---|---|---|---|
| cache.go:272-286 | single-mode `GetMulti` deserializes the backend's bytes without decompressing them | compression on; `Set("k", v)` then `GetMulti(["k"])` | `GetMulti` returns `{"k": v}` as `Get` does | not executed | Cache.GetMultiAsWrittenDropsCompressed | Cache.GetMultiSingleFindsSet |
| pkg/sharding/sharding.go:340-360 | `ExtractOriginalKey` drops an empty last segment, so a key ending in ':' loses it | `GenerateShardKey("a:", i)` extracts to `"a"` | extraction inverts `GenerateShardKey` for every key | not executed | Sharding.ExtractDropsTrailingColon | Sharding.ExtractIntendedGenerated |
| cache.go:306-314 | single-mode `SetMulti` stores serialized bytes without compressing them | compression on; `SetMulti({"k": v})` then `Get("k")` | `Get` returns v | not executed | Cache.SetMultiAsWrittenUnreadable | Cache.SetMultiSingleReadsBack |
