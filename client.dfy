/** cache_helpers.go: what a `CacheClient` does underneath its public methods.
    The codec pair around every backend call, a single-backend client (which is
    also what each hierarchical tier is), the L1/L2 rules of the hierarchical
    mode, the routing and per-shard calls of the distributed mode, and the two
    ways statistics are aggregated. */
module Client {
  import opened Wrappers
  import opened Text
  import opened Backends
  import Stores
  import Config
  import Sharding

  // ---------------------------------------------------------------------------
  // The codec pair.

  /** The serializer and the optional compressor a client was built with. */
  datatype Codec = Codec(serializer: SerializerKind, compressor: Option<CompressorKind>)

  /** Serialize, then compress when a compressor is configured. */
  function Encode(c: Codec, v: Value): (data: Bytes)
    ensures Decode(c, data) == Ok(v)
  {
    CompressData(c.compressor, Serialize(c.serializer, v))
  }

  /** Decompress when a compressor is configured, then deserialize; either
      failure is a codec failure. */
  function Decode(c: Codec, data: Bytes): (r: Result<Value>)
    ensures r.Err? ==> r == Err(CodecFailure)
    ensures r.Ok? ==> DecompressData(c.compressor, data) == Ok(Serialize(c.serializer, r.value))
  {
    match DecompressData(c.compressor, data)
    case Err(_) => Err(CodecFailure)
    case Ok(raw) => Deserialize(c.serializer, raw)
  }

  /** Decoding succeeds only on what encoding produces: `Decode` is undone by
      `Encode`, as `Encode` is by `Decode`. */
  lemma DecodeOnlyEncodings(c: Codec, data: Bytes)
    ensures Decode(c, data).Ok? ==> Encode(c, Decode(c, data).value) == data
  {
    if Decode(c, data).Ok? {
      var raw := DecompressData(c.compressor, data).value;
      assert raw == Serialize(c.serializer, Decode(c, data).value);
      if c.compressor.Some? {
        assert data == GzipMagic + raw;
      }
    }
  }

  // ---------------------------------------------------------------------------
  // A client in single-backend mode. Each hierarchical tier is one: it is built
  // by `New` from a configuration that sets neither `Hierarchical` nor
  // `Distributed`, so its `Get`/`Set` are `getSingle`/`setSingle`, and its
  // other operations go straight to its backend.

  datatype Tier = Tier(codec: Codec, backend: Stores.Store)

  /** `getSingle`: the backend's error, or the decoded bytes. */
  function GetSingle(t: Tier, key: string): (r: Result<Value>)
    ensures Stores.GetOp in t.backend.failing ==> r == Err(BackendFailure)
    ensures Stores.GetOp !in t.backend.failing && key !in t.backend.entries ==> r == Err(KeyNotFound)
    ensures Stores.GetOp !in t.backend.failing && key in t.backend.entries ==>
              r == Decode(t.codec, t.backend.entries[key].data)
    ensures r.Ok? ==> key in t.backend.entries && Encode(t.codec, r.value) == t.backend.entries[key].data
  {
    if Stores.GetOp !in t.backend.failing && key in t.backend.entries then
      DecodeOnlyEncodings(t.codec, t.backend.entries[key].data);
      Decode(t.codec, t.backend.entries[key].data)
    else
    match Stores.Get(t.backend, key)
    case Err(e) => Err(e)
    case Ok(data) => Decode(t.codec, data)
  }

  /** `setSingle`: encode, then store. */
  function SetSingle(t: Tier, key: string, v: Value, ttl: int): (r: (Outcome, Tier))
    ensures r.0 == Pass <==> Stores.SetOp !in t.backend.failing
    ensures r.0 == Pass ==>
              r.1 == t.(backend := t.backend.(entries := t.backend.entries[key := Stores.Entry(Encode(t.codec, v), ttl)]))
    ensures r.0 != Pass ==> r == (Fail(BackendFailure), t)
  {
    var (o, b) := Stores.Set(t.backend, key, Encode(t.codec, v), ttl);
    (o, t.(backend := b))
  }

  /** `deleteSingle`. */
  function DeleteSingle(t: Tier, key: string): (r: (Outcome, Tier))
    ensures r.0 == Pass <==> Stores.DeleteOp !in t.backend.failing
    ensures r.0 == Pass ==> r.1 == t.(backend := t.backend.(entries := t.backend.entries - {key}))
    ensures r.0 != Pass ==> r == (Fail(BackendFailure), t)
  {
    var (o, b) := Stores.Delete(t.backend, key);
    (o, t.(backend := b))
  }

  /** `setSingle` then `getSingle` on a backend that accepts both calls
      returns the value: the encoding is undone in reverse order. */
  lemma SingleRoundTrip(t: Tier, key: string, v: Value, ttl: int)
    requires Stores.SetOp !in t.backend.failing && Stores.GetOp !in t.backend.failing
    ensures SetSingle(t, key, v, ttl).0 == Pass
    ensures GetSingle(SetSingle(t, key, v, ttl).1, key) == Ok(v)
  {
    var data := Encode(t.codec, v);
    assert Stores.Get(SetSingle(t, key, v, ttl).1.backend, key) == Ok(data);
  }

  /** A key the backend does not hold is reported as not found. */
  lemma SingleMissing(t: Tier, key: string)
    requires Stores.GetOp !in t.backend.failing && key !in t.backend.entries
    ensures GetSingle(t, key) == Err(KeyNotFound)
  {
  }

  // ---------------------------------------------------------------------------
  // The hierarchical mode.

  /** The two tiers and the configured L1 TTL (`L1.TTL`). */
  datatype Tiers = Tiers(l1: Tier, l2: Tier, l1TTL: int)

  /** The TTL a promoted value is written to L1 with: `L1.TTL`, or five
      minutes when that is 0. */
  function PromotionTTL(l1TTL: int): (ttl: int)
    ensures ttl != 0
    ensures l1TTL != 0 ==> ttl == l1TTL
    ensures l1TTL == 0 ==> ttl == 300 * Config.Second
  {
    if l1TTL == 0 then 5 * Config.Minute else l1TTL
  }

  /** `getHierarchical`: an L1 hit is returned as is; on an L1 miss L2 is
      asked, its error returned, or its value returned after being written to
      L1, whatever that write reports. */
  function GetHierarchical(h: Tiers, key: string): (r: (Result<Value>, Tiers))
    ensures GetSingle(h.l1, key).Ok? ==> r == (GetSingle(h.l1, key), h)
    ensures GetSingle(h.l1, key).Err? && GetSingle(h.l2, key).Err? ==> r == (GetSingle(h.l2, key), h)
    ensures GetSingle(h.l1, key).Err? && GetSingle(h.l2, key).Ok? ==>
              && r.0 == GetSingle(h.l2, key)
              && r.1 == h.(l1 := SetSingle(h.l1, key, r.0.value, PromotionTTL(h.l1TTL)).1)
    ensures r.1.l2 == h.l2 && r.1.l1TTL == h.l1TTL
  {
    match GetSingle(h.l1, key)
    case Ok(v) => (Ok(v), h)
    case Err(_) =>
      match GetSingle(h.l2, key)
      case Err(e) => (Err(e), h)
      case Ok(v) =>
        var (_, l1) := SetSingle(h.l1, key, v, PromotionTTL(h.l1TTL));
        (Ok(v), h.(l1 := l1))
  }

  /** L2 is not consulted on an L1 hit: replacing L2 by anything changes
      neither the answer nor the tiers. */
  lemma L1HitIgnoresL2(h: Tiers, key: string, other: Tier)
    requires GetSingle(h.l1, key).Ok?
    ensures GetHierarchical(h.(l2 := other), key) == (GetSingle(h.l1, key), h.(l2 := other))
  {
  }

  /** After an L2 hit is promoted into a working L1, L1 holds the value with the
      promotion TTL, and a second lookup is an L1 hit that changes nothing. */
  lemma PromotionFillsL1(h: Tiers, key: string)
    requires GetSingle(h.l1, key).Err? && GetSingle(h.l2, key).Ok?
    requires Stores.SetOp !in h.l1.backend.failing && Stores.GetOp !in h.l1.backend.failing
    ensures var (r, h1) := GetHierarchical(h, key);
      && h1.l1.backend.entries[key].ttl == PromotionTTL(h.l1TTL)
      && GetHierarchical(h1, key) == (r, h1)
  {
    var v := GetSingle(h.l2, key).value;
    SingleRoundTrip(h.l1, key, v, PromotionTTL(h.l1TTL));
  }

  /** `setHierarchical`: L1 first; its failure is returned and L2 is left
      alone; otherwise the result is L2's. */
  function SetHierarchical(h: Tiers, key: string, v: Value, ttl: int): (r: (Outcome, Tiers))
    ensures SetSingle(h.l1, key, v, ttl).0 != Pass ==> r == (SetSingle(h.l1, key, v, ttl).0, h)
    ensures SetSingle(h.l1, key, v, ttl).0 == Pass ==>
              && r.0 == SetSingle(h.l2, key, v, ttl).0
              && r.1 == h.(l1 := SetSingle(h.l1, key, v, ttl).1, l2 := SetSingle(h.l2, key, v, ttl).1)
    ensures r.0 == Pass <==> Stores.SetOp !in h.l1.backend.failing && Stores.SetOp !in h.l2.backend.failing
  {
    var (o1, l1) := SetSingle(h.l1, key, v, ttl);
    if o1 != Pass then (o1, h)
    else
      var (o2, l2) := SetSingle(h.l2, key, v, ttl);
      (o2, h.(l1 := l1, l2 := l2))
  }

  /** A value written through a working L1 is what the next hierarchical read
      returns, whether or not the L2 write succeeded. */
  lemma SetThenGetHierarchical(h: Tiers, key: string, v: Value, ttl: int)
    requires Stores.SetOp !in h.l1.backend.failing && Stores.GetOp !in h.l1.backend.failing
    ensures GetHierarchical(SetHierarchical(h, key, v, ttl).1, key).0 == Ok(v)
  {
    SingleRoundTrip(h.l1, key, v, ttl);
  }

  /** `deleteHierarchical`: both tiers are asked; it fails only when both fail. */
  function DeleteHierarchical(h: Tiers, key: string): (r: (Outcome, Tiers))
    ensures r.0 != Pass <==> Stores.DeleteOp in h.l1.backend.failing && Stores.DeleteOp in h.l2.backend.failing
    ensures r.0 != Pass ==> r.0 == Fail(BothTiersFailed)
    ensures r.1 == h.(l1 := DeleteSingle(h.l1, key).1, l2 := DeleteSingle(h.l2, key).1)
  {
    var (o1, l1) := DeleteSingle(h.l1, key);
    var (o2, l2) := DeleteSingle(h.l2, key);
    (if o1 != Pass && o2 != Pass then Fail(BothTiersFailed) else Pass, h.(l1 := l1, l2 := l2))
  }

  /** Once both tiers deleted the key, a hierarchical read misses. */
  lemma DeleteThenGetHierarchical(h: Tiers, key: string)
    requires Stores.DeleteOp !in h.l1.backend.failing && Stores.DeleteOp !in h.l2.backend.failing
    requires Stores.GetOp !in h.l1.backend.failing && Stores.GetOp !in h.l2.backend.failing
    ensures GetHierarchical(DeleteHierarchical(h, key).1, key).0 == Err(KeyNotFound)
  {
  }

  /** A delete that only L1 performed still reports success, and the copy left
      in L2 is what the next read returns (and promotes back into L1). */
  lemma DeleteKeepsL2Copy(h: Tiers, key: string)
    requires Stores.DeleteOp !in h.l1.backend.failing && Stores.DeleteOp in h.l2.backend.failing
    requires Stores.GetOp !in h.l1.backend.failing && GetSingle(h.l2, key).Ok?
    ensures DeleteHierarchical(h, key).0 == Pass
    ensures GetHierarchical(DeleteHierarchical(h, key).1, key).0 == GetSingle(h.l2, key)
  {
    var h1 := DeleteHierarchical(h, key).1;
    assert h1.l2 == h.l2;
    assert GetSingle(h1.l1, key) == Err(KeyNotFound);
  }

  /** `existsHierarchical`: true when L1 answers true; otherwise, L1 error
      included, L2's answer. */
  function ExistsHierarchical(h: Tiers, key: string): (r: Result<bool>)
    ensures r == Ok(true) <==> Stores.Exists(h.l1.backend, key) == Ok(true) || Stores.Exists(h.l2.backend, key) == Ok(true)
    ensures Stores.Exists(h.l1.backend, key) != Ok(true) ==> r == Stores.Exists(h.l2.backend, key)
    ensures r.Err? ==> Stores.Exists(h.l2.backend, key).Err?
  {
    match Stores.Exists(h.l1.backend, key)
    case Ok(true) => Ok(true)
    case _ => Stores.Exists(h.l2.backend, key)
  }

  // ---------------------------------------------------------------------------
  // The distributed mode: the client's codec over the shard the key routes to.

  /** `getShard`: no shard, the only shard, or the shard `ShardKey` picks. */
  function GetShard(shards: seq<Stores.Store>, key: string, crc: Sharding.Hash): (i: Option<nat>)
    ensures i.None? <==> |shards| == 0
    ensures i.Some? ==> i.value < |shards|
    ensures |shards| == 1 ==> i == Some(0)
    ensures |shards| >= 2 ==> i == Some(Sharding.ShardKey(key, |shards|, crc))
  {
    if |shards| == 0 then None
    else if |shards| == 1 then Some(0)
    else Some(Sharding.ShardKey(key, |shards|, crc))
  }

  /** `getDistributed`: `getSingle` on the routed shard. */
  function GetDistributed(codec: Codec, shards: seq<Stores.Store>, crc: Sharding.Hash, key: string): (r: Result<Value>)
    ensures |shards| == 0 ==> r == Err(NoShardAvailable)
  {
    match GetShard(shards, key, crc)
    case None => Err(NoShardAvailable)
    case Some(i) => GetSingle(Tier(codec, shards[i]), key)
  }

  /** `setDistributed`: `setSingle` on the routed shard; no other shard changes. */
  function SetDistributed(codec: Codec, shards: seq<Stores.Store>, crc: Sharding.Hash, key: string, v: Value, ttl: int)
    : (r: (Outcome, seq<Stores.Store>))
    ensures |shards| == 0 ==> r == (Fail(NoShardAvailable), shards)
    ensures |r.1| == |shards|
    ensures forall j :: 0 <= j < |shards| && Some(j) != GetShard(shards, key, crc) ==> r.1[j] == shards[j]
  {
    match GetShard(shards, key, crc)
    case None => (Fail(NoShardAvailable), shards)
    case Some(i) =>
      var (o, t) := SetSingle(Tier(codec, shards[i]), key, v, ttl);
      (o, shards[i := t.backend])
  }

  /** `deleteDistributed`: the routed shard's delete; no other shard changes. */
  function DeleteDistributed(shards: seq<Stores.Store>, crc: Sharding.Hash, key: string): (r: (Outcome, seq<Stores.Store>))
    ensures |shards| == 0 ==> r == (Fail(NoShardAvailable), shards)
    ensures |r.1| == |shards|
    ensures forall j :: 0 <= j < |shards| && Some(j) != GetShard(shards, key, crc) ==> r.1[j] == shards[j]
  {
    match GetShard(shards, key, crc)
    case None => (Fail(NoShardAvailable), shards)
    case Some(i) =>
      var (o, b) := Stores.Delete(shards[i], key);
      (o, shards[i := b])
  }

  /** `existsDistributed`: the routed shard's answer. */
  function ExistsDistributed(shards: seq<Stores.Store>, crc: Sharding.Hash, key: string): (r: Result<bool>)
    ensures |shards| == 0 ==> r == Err(NoShardAvailable)
    ensures |shards| > 0 ==>
              var s := shards[GetShard(shards, key, crc).value];
              && (r == Ok(true) <==> Stores.ExistsOp !in s.failing && key in s.entries)
              && (r == Ok(false) <==> Stores.ExistsOp !in s.failing && key !in s.entries)
              && (r.Err? <==> Stores.ExistsOp in s.failing)
              && (r.Err? ==> r == Err(BackendFailure))
  {
    match GetShard(shards, key, crc)
    case None => Err(NoShardAvailable)
    case Some(i) => Stores.Exists(shards[i], key)
  }

  /** A value written to a working shard reads back through the same routing. */
  lemma DistributedRoundTrip(codec: Codec, shards: seq<Stores.Store>, crc: Sharding.Hash, key: string, v: Value, ttl: int)
    requires |shards| > 0
    requires Stores.SetOp !in shards[GetShard(shards, key, crc).value].failing
    requires Stores.GetOp !in shards[GetShard(shards, key, crc).value].failing
    ensures SetDistributed(codec, shards, crc, key, v, ttl).0 == Pass
    ensures GetDistributed(codec, SetDistributed(codec, shards, crc, key, v, ttl).1, crc, key) == Ok(v)
  {
    var i := GetShard(shards, key, crc).value;
    SingleRoundTrip(Tier(codec, shards[i]), key, v, ttl);
    var after := SetDistributed(codec, shards, crc, key, v, ttl).1;
    assert GetShard(after, key, crc) == Some(i);
  }

  /** A write never disturbs a key that routes to another shard. */
  lemma DistributedWritesAreIsolated(codec: Codec, shards: seq<Stores.Store>, crc: Sharding.Hash,
                                     key: string, v: Value, ttl: int, other: string)
    requires |shards| > 0 && GetShard(shards, other, crc) != GetShard(shards, key, crc)
    ensures GetDistributed(codec, SetDistributed(codec, shards, crc, key, v, ttl).1, crc, other)
         == GetDistributed(codec, shards, crc, other)
  {
    var after := SetDistributed(codec, shards, crc, key, v, ttl).1;
    assert GetShard(after, other, crc) == GetShard(shards, other, crc);
  }

  /** `initSharding`'s loop: the configured number of fresh backends, or 3
      when that is not positive. Each is built from the same configuration as
      the main backend, so creating it cannot fail where that one succeeded. */
  method InitShards(configured: int) returns (shards: seq<Stores.Store>)
    ensures |shards| == (if configured <= 0 then 3 else configured)
    ensures forall i :: 0 <= i < |shards| ==> shards[i] == Stores.EmptyStore
  {
    var shardCount := configured;
    if shardCount <= 0 {
      shardCount := 3;
    }
    shards := [];
    var i := 0;
    while i < shardCount
      invariant 0 <= i <= shardCount
      invariant |shards| == i
      invariant forall j :: 0 <= j < i ==> shards[j] == Stores.EmptyStore
    {
      shards := shards + [Stores.EmptyStore];
      i := i + 1;
    }
  }

  // ---------------------------------------------------------------------------
  // Statistics.

  /** `max`. */
  function Max(a: int, b: int): (m: int)
    ensures m >= a && m >= b
    ensures m == a || m == b
  {
    if a > b then a else b
  }

  /** Counters and gauges added, uptime the larger of the two. */
  function Combine(a: Stats, b: Stats): Stats {
    Stats(a.hits + b.hits, a.misses + b.misses, a.sets + b.sets, a.deletes + b.deletes,
          a.evictions + b.evictions, a.keyCount + b.keyCount, a.memoryUsage + b.memoryUsage,
          Max(a.uptime, b.uptime))
  }

  /** `statsHierarchical`: either tier's error aborts it; otherwise the two
      records are combined. */
  function StatsHierarchical(h: Tiers): (r: Result<Stats>)
    ensures r.Ok? <==> Stores.StatsOp !in h.l1.backend.failing && Stores.StatsOp !in h.l2.backend.failing
    ensures r.Ok? ==> r.value == Combine(h.l1.backend.stats, h.l2.backend.stats)
  {
    match Stores.Stats(h.l1.backend)
    case Err(_) => Err(BackendFailure)
    case Ok(s1) =>
      match Stores.Stats(h.l2.backend)
      case Err(_) => Err(BackendFailure)
      case Ok(s2) => Ok(Combine(s1, s2))
  }

  /** What `statsDistributed` accumulates over the first shards: failing shards
      are skipped, the others combined into a record that starts at zero. */
  function SumStats(shards: seq<Stores.Store>): Stats
  {
    if shards == [] then ZeroStats
    else
      var acc := SumStats(shards[..|shards| - 1]);
      match Stores.Stats(shards[|shards| - 1])
      case Err(_) => acc
      case Ok(s) => Combine(acc, s)
  }

  /** `statsDistributed`: one pass over the shards; it never fails. */
  method StatsDistributed(shards: seq<Stores.Store>) returns (combined: Stats)
    ensures combined == SumStats(shards)
  {
    combined := ZeroStats;
    var i := 0;
    while i < |shards|
      invariant 0 <= i <= |shards|
      invariant combined == SumStats(shards[..i])
    {
      assert shards[..i + 1][..i] == shards[..i];
      var shardStats := Stores.Stats(shards[i]);
      if shardStats.Ok? {
        var s := shardStats.value;
        var uptime := combined.uptime;
        if s.uptime > combined.uptime {
          uptime := s.uptime;
        }
        combined := Stats(combined.hits + s.hits, combined.misses + s.misses, combined.sets + s.sets,
                          combined.deletes + s.deletes, combined.evictions + s.evictions,
                          combined.keyCount + s.keyCount, combined.memoryUsage + s.memoryUsage, uptime);
      }
      i := i + 1;
    }
    assert shards[..i] == shards;
  }

  /** The hits of the working shards, added up. */
  function WorkingHits(shards: seq<Stores.Store>): int {
    if shards == [] then 0
    else
      var last := shards[|shards| - 1];
      WorkingHits(shards[..|shards| - 1]) + (if Stores.StatsOp in last.failing then 0 else last.stats.hits)
  }

  /** The distributed record counts the hits of exactly the working shards, and
      its uptime is that of the longest-running working shard (0 when none). */
  lemma {:induction false} SumStatsMeaning(shards: seq<Stores.Store>)
    ensures SumStats(shards).hits == WorkingHits(shards)
    ensures SumStats(shards).uptime >= 0
    ensures forall i :: 0 <= i < |shards| && Stores.StatsOp !in shards[i].failing ==>
              SumStats(shards).uptime >= shards[i].stats.uptime
    ensures SumStats(shards).uptime == 0 ||
            exists i :: 0 <= i < |shards| && Stores.StatsOp !in shards[i].failing &&
                        SumStats(shards).uptime == shards[i].stats.uptime
  {
    if shards != [] {
      var p := shards[..|shards| - 1];
      SumStatsMeaning(p);
      var u := SumStats(p).uptime;
      if u != 0 {
        var i :| 0 <= i < |p| && Stores.StatsOp !in p[i].failing && u == p[i].stats.uptime;
        assert shards[i] == p[i];
      }
      forall i | 0 <= i < |p| && Stores.StatsOp !in shards[i].failing
        ensures SumStats(shards).uptime >= shards[i].stats.uptime
      {
        assert shards[i] == p[i];
      }
    }
  }

  /** The hierarchical record is the distributed one over the two tier backends,
      provided both work and their uptimes are not negative. */
  lemma HierarchicalIsDistributedOfTwo(h: Tiers)
    requires Stores.StatsOp !in h.l1.backend.failing && Stores.StatsOp !in h.l2.backend.failing
    requires h.l1.backend.stats.uptime >= 0
    ensures StatsHierarchical(h) == Ok(SumStats([h.l1.backend, h.l2.backend]))
  {
    var both := [h.l1.backend, h.l2.backend];
    assert both[..1] == [h.l1.backend];
    assert [h.l1.backend][..0] == [];
    assert SumStats([h.l1.backend]) == Combine(ZeroStats, h.l1.backend.stats);
    assert Combine(ZeroStats, h.l1.backend.stats) == h.l1.backend.stats;
    assert SumStats(both) == Combine(SumStats(both[..1]), h.l2.backend.stats);
  }
}
