/** cache.go: the `CacheClient` façade. Every operation checks the
    hierarchical flag first, then the distributed flag, then falls back to the
    single backend; a client is a value, and an operation that changes a
    backend returns the client after the call. */
module Cache {
  import opened Wrappers
  import opened Text
  import opened Backends
  import Stores
  import Config
  import Sharding
  import Memory
  import opened Client

  /** The two mode flags of the validated configuration, the codec, and the parts
      `New` built: the tiers in hierarchical mode, otherwise the main backend and,
      in distributed mode, the shards. `crc` is CRC-32 (IEEE), which `ShardKey`
      routes with. */
  datatype CacheClient = CacheClient(
    hierarchical: bool,
    distributed: bool,
    codec: Codec,
    tiers: Option<Tiers>,
    backend: Option<Stores.Store>,
    shards: seq<Stores.Store>,
    crc: Sharding.Hash)

  /** What `New` guarantees: hierarchical mode has tiers and nothing else; the
      other modes have a main backend; distributed mode has at least one shard. */
  predicate Valid(c: CacheClient) {
    && (c.hierarchical ==> c.tiers.Some? && c.backend.None? && c.shards == [])
    && (!c.hierarchical ==> c.tiers.None? && c.backend.Some?)
    && (!c.hierarchical && c.distributed ==> |c.shards| >= 1)
    && (!c.distributed ==> c.shards == [])
  }

  /** The client seen as a single-backend client. */
  function Single(c: CacheClient): Tier
    requires c.backend.Some?
  {
    Tier(c.codec, c.backend.value)
  }

  /** Every backend of the client accepts `op`. */
  predicate Works(c: CacheClient, op: Stores.Op) {
    && (c.tiers.Some? ==> op !in c.tiers.value.l1.backend.failing && op !in c.tiers.value.l2.backend.failing)
    && (c.backend.Some? ==> op !in c.backend.value.failing)
    && (forall i :: 0 <= i < |c.shards| ==> op !in c.shards[i].failing)
  }

  /** `d` is `c` after calls that changed stored entries only: same mode, codec,
      routing, number of shards, and failing operations everywhere. */
  ghost predicate SameShape(c: CacheClient, d: CacheClient) {
    && d.hierarchical == c.hierarchical && d.distributed == c.distributed
    && d.codec == c.codec && d.crc == c.crc
    && d.tiers.Some? == c.tiers.Some? && d.backend.Some? == c.backend.Some?
    && (c.tiers.Some? ==>
          && d.tiers.value.l1.backend.failing == c.tiers.value.l1.backend.failing
          && d.tiers.value.l2.backend.failing == c.tiers.value.l2.backend.failing
          && d.tiers.value.l1.codec == c.tiers.value.l1.codec
          && d.tiers.value.l2.codec == c.tiers.value.l2.codec
          && d.tiers.value.l1TTL == c.tiers.value.l1TTL)
    && (c.backend.Some? ==> d.backend.value.failing == c.backend.value.failing)
    && |d.shards| == |c.shards|
    && (forall i :: 0 <= i < |c.shards| ==> d.shards[i].failing == c.shards[i].failing)
  }

  lemma SameShapeWorks(c: CacheClient, d: CacheClient, op: Stores.Op)
    requires SameShape(c, d) && Works(c, op)
    ensures Works(d, op)
  {
  }

  // ---------------------------------------------------------------------------
  // Single-key operations.

  /** `Get`: only a hierarchical read changes anything (the promotion into L1). */
  function Get(c: CacheClient, key: string): (r: (Result<Value>, CacheClient))
    requires Valid(c)
    ensures Valid(r.1) && SameShape(c, r.1)
    ensures c.hierarchical ==> r == (GetHierarchical(c.tiers.value, key).0, c.(tiers := Some(GetHierarchical(c.tiers.value, key).1)))
    ensures !c.hierarchical && c.distributed ==> r == (GetDistributed(c.codec, c.shards, c.crc, key), c)
    ensures !c.hierarchical && !c.distributed ==> r == (GetSingle(Single(c), key), c)
  {
    if c.hierarchical then
      var (v, h) := GetHierarchical(c.tiers.value, key);
      (v, c.(tiers := Some(h)))
    else if c.distributed then
      (GetDistributed(c.codec, c.shards, c.crc, key), c)
    else
      (GetSingle(Single(c), key), c)
  }

  /** `Set`. */
  function Set(c: CacheClient, key: string, v: Value, ttl: int): (r: (Outcome, CacheClient))
    requires Valid(c)
    ensures Valid(r.1) && SameShape(c, r.1)
    ensures c.hierarchical ==> r == (SetHierarchical(c.tiers.value, key, v, ttl).0, c.(tiers := Some(SetHierarchical(c.tiers.value, key, v, ttl).1)))
    ensures !c.hierarchical && c.distributed ==>
              r == (SetDistributed(c.codec, c.shards, c.crc, key, v, ttl).0, c.(shards := SetDistributed(c.codec, c.shards, c.crc, key, v, ttl).1))
    ensures !c.hierarchical && !c.distributed ==>
              r == (SetSingle(Single(c), key, v, ttl).0, c.(backend := Some(SetSingle(Single(c), key, v, ttl).1.backend)))
  {
    if c.hierarchical then
      var (o, h) := SetHierarchical(c.tiers.value, key, v, ttl);
      (o, c.(tiers := Some(h)))
    else if c.distributed then
      var (o, shards) := SetDistributed(c.codec, c.shards, c.crc, key, v, ttl);
      (o, c.(shards := shards))
    else
      var (o, t) := SetSingle(Single(c), key, v, ttl);
      (o, c.(backend := Some(t.backend)))
  }

  /** `Delete`. */
  function Delete(c: CacheClient, key: string): (r: (Outcome, CacheClient))
    requires Valid(c)
    ensures Valid(r.1) && SameShape(c, r.1)
    ensures c.hierarchical ==> r == (DeleteHierarchical(c.tiers.value, key).0, c.(tiers := Some(DeleteHierarchical(c.tiers.value, key).1)))
    ensures !c.hierarchical && c.distributed ==>
              r == (DeleteDistributed(c.shards, c.crc, key).0, c.(shards := DeleteDistributed(c.shards, c.crc, key).1))
    ensures !c.hierarchical && !c.distributed ==>
              r == (DeleteSingle(Single(c), key).0, c.(backend := Some(DeleteSingle(Single(c), key).1.backend)))
  {
    if c.hierarchical then
      var (o, h) := DeleteHierarchical(c.tiers.value, key);
      (o, c.(tiers := Some(h)))
    else if c.distributed then
      var (o, shards) := DeleteDistributed(c.shards, c.crc, key);
      (o, c.(shards := shards))
    else
      var (o, t) := DeleteSingle(Single(c), key);
      (o, c.(backend := Some(t.backend)))
  }

  /** `Exists`: in single mode the backend is asked directly. */
  function Exists(c: CacheClient, key: string): (r: Result<bool>)
    requires Valid(c)
    ensures c.hierarchical ==> r == ExistsHierarchical(c.tiers.value, key)
    ensures !c.hierarchical && c.distributed ==> r == ExistsDistributed(c.shards, c.crc, key)
    ensures !c.hierarchical && !c.distributed ==> r == Stores.Exists(c.backend.value, key)
  {
    if c.hierarchical then ExistsHierarchical(c.tiers.value, key)
    else if c.distributed then ExistsDistributed(c.shards, c.crc, key)
    else Stores.Exists(c.backend.value, key)
  }

  /** In every mode, a value written while every backend accepts writes and
      reads is what the next read returns. */
  lemma SetThenGet(c: CacheClient, key: string, v: Value, ttl: int)
    requires Valid(c) && Works(c, Stores.SetOp) && Works(c, Stores.GetOp)
    ensures Set(c, key, v, ttl).0 == Pass
    ensures Get(Set(c, key, v, ttl).1, key).0 == Ok(v)
  {
    if c.hierarchical {
      SetThenGetHierarchical(c.tiers.value, key, v, ttl);
    } else if c.distributed {
      DistributedRoundTrip(c.codec, c.shards, c.crc, key, v, ttl);
    } else {
      SingleRoundTrip(Single(c), key, v, ttl);
    }
  }

  /** A write to one key leaves what a read of another key returns unchanged. */
  lemma SetLeavesOtherKeys(c: CacheClient, key: string, v: Value, ttl: int, other: string)
    requires Valid(c) && other != key
    ensures Get(Set(c, key, v, ttl).1, other).0 == Get(c, other).0
  {
    var c1 := Set(c, key, v, ttl).1;
    if c.hierarchical {
      var h := c.tiers.value;
      var h1 := c1.tiers.value;
      assert GetSingle(h1.l1, other) == GetSingle(h.l1, other) by {
        assert Stores.Get(h1.l1.backend, other) == Stores.Get(h.l1.backend, other);
      }
      assert GetSingle(h1.l2, other) == GetSingle(h.l2, other) by {
        assert Stores.Get(h1.l2.backend, other) == Stores.Get(h.l2.backend, other);
      }
    } else if c.distributed {
      var i := GetShard(c.shards, key, c.crc).value;
      var j := GetShard(c.shards, other, c.crc).value;
      assert GetShard(c1.shards, other, c.crc) == Some(j);
      assert Stores.Get(c1.shards[j], other) == Stores.Get(c.shards[j], other);
    } else {
      assert Stores.Get(c1.backend.value, other) == Stores.Get(c.backend.value, other);
    }
  }

  /** A read changes what no later read returns: the promotion it may perform
      writes back the very value it found. */
  lemma GetIsStable(c: CacheClient, key: string, other: string)
    requires Valid(c)
    ensures Get(Get(c, key).1, other).0 == Get(c, other).0
  {
    if c.hierarchical {
      var h := c.tiers.value;
      var h1 := GetHierarchical(h, key).1;
      if GetSingle(h.l1, key).Err? && GetSingle(h.l2, key).Ok? {
        var v := GetSingle(h.l2, key).value;
        var ttl := PromotionTTL(h.l1TTL);
        if Stores.SetOp !in h.l1.backend.failing {
          if other == key {
            if Stores.GetOp !in h.l1.backend.failing {
              SingleRoundTrip(h.l1, key, v, ttl);
            }
          } else {
            assert Stores.Get(h1.l1.backend, other) == Stores.Get(h.l1.backend, other);
          }
        }
      }
    }
  }

  /** `Increment`: L2 only in hierarchical mode, the routed shard in
      distributed mode, the backend otherwise. */
  function Increment(c: CacheClient, key: string, delta: int): (r: (Result<int>, CacheClient))
    requires Valid(c)
    ensures Valid(r.1) && SameShape(c, r.1)
    ensures c.hierarchical ==>
              && r.1.tiers.value.l1 == c.tiers.value.l1
              && (r.0, r.1.tiers.value.l2.backend) == Stores.Increment(c.tiers.value.l2.backend, key, delta)
    ensures !c.hierarchical && c.distributed ==>
              var i := GetShard(c.shards, key, c.crc).value;
              && (r.0, r.1.shards[i]) == Stores.Increment(c.shards[i], key, delta)
              && r.1.backend == c.backend
              && forall j :: 0 <= j < |c.shards| && j != i ==> r.1.shards[j] == c.shards[j]
    ensures !c.hierarchical && !c.distributed ==> (r.0, r.1.backend.value) == Stores.Increment(c.backend.value, key, delta)
  {
    if c.hierarchical then
      var h := c.tiers.value;
      var (n, b) := Stores.Increment(h.l2.backend, key, delta);
      (n, c.(tiers := Some(h.(l2 := h.l2.(backend := b)))))
    else if c.distributed then
      var i := GetShard(c.shards, key, c.crc).value;
      var (n, b) := Stores.Increment(c.shards[i], key, delta);
      (n, c.(shards := c.shards[i := b]))
    else
      var (n, b) := Stores.Increment(c.backend.value, key, delta);
      (n, c.(backend := Some(b)))
  }

  /** `Decrement`: the same routing, each backend counting down by `delta`. */
  function Decrement(c: CacheClient, key: string, delta: int): (r: (Result<int>, CacheClient))
    requires Valid(c)
    ensures r == Increment(c, key, Wrap64(-delta))
  {
    if c.hierarchical then
      var h := c.tiers.value;
      var (n, b) := Stores.Decrement(h.l2.backend, key, delta);
      (n, c.(tiers := Some(h.(l2 := h.l2.(backend := b)))))
    else if c.distributed then
      var i := GetShard(c.shards, key, c.crc).value;
      var (n, b) := Stores.Decrement(c.shards[i], key, delta);
      (n, c.(shards := c.shards[i := b]))
    else
      var (n, b) := Stores.Decrement(c.backend.value, key, delta);
      (n, c.(backend := Some(b)))
  }

  /** Counters accumulate: an increment that succeeded is the starting point of
      the next one on the same key, in every mode. */
  lemma IncrementAccumulates(c: CacheClient, key: string, d1: int, d2: int)
    requires Valid(c) && Works(c, Stores.IncrementOp)
    requires Increment(c, key, d1).0.Ok?
    ensures Increment(Increment(c, key, d1).1, key, d2).0 ==
            Ok(Wrap64(Increment(c, key, d1).0.value + d2))
  {
    var c1 := Increment(c, key, d1).1;
    IncrementRoutes(c, key, d1);
    IncrementRoutes(c1, key, d2);
    IncrementedStoreWorks(c, key);
    Stores.IncrementAccumulates(IncrementedStore(c, key), key, d1, d2);
  }

  /** The store `Increment` is routed to is one of the working ones. */
  lemma IncrementedStoreWorks(c: CacheClient, key: string)
    requires Valid(c) && Works(c, Stores.IncrementOp)
    ensures Stores.IncrementOp !in IncrementedStore(c, key).failing
  {
    if c.distributed && !c.hierarchical {
      assert GetShard(c.shards, key, c.crc).value < |c.shards|;
    }
  }

  /** `Increment` is the increment of the store the key is routed to, and the
      store it leaves there is the one the next call is routed to. */
  lemma IncrementRoutes(c: CacheClient, key: string, d: int)
    requires Valid(c)
    ensures (Increment(c, key, d).0, IncrementedStore(Increment(c, key, d).1, key))
            == Stores.Increment(IncrementedStore(c, key), key, d)
  {
    if !c.hierarchical && c.distributed {
      var c1 := Increment(c, key, d).1;
      assert |c1.shards| == |c.shards| && c1.crc == c.crc;
      assert GetShard(c1.shards, key, c1.crc) == GetShard(c.shards, key, c.crc);
    }
  }

  /** The backend `Increment` sends `key` to. */
  function IncrementedStore(c: CacheClient, key: string): Stores.Store
    requires Valid(c)
  {
    if c.hierarchical then c.tiers.value.l2.backend
    else if c.distributed then c.shards[GetShard(c.shards, key, c.crc).value]
    else c.backend.value
  }


  /** `SetNX`: an existing key is left alone and reported as not set; otherwise
      the write happens and succeeds exactly when `Set` does. */
  function SetNX(c: CacheClient, key: string, v: Value, ttl: int): (r: (Result<bool>, CacheClient))
    requires Valid(c)
    ensures Valid(r.1)
    ensures Exists(c, key).Err? ==> r == (Err(Exists(c, key).error), c)
    ensures Exists(c, key) == Ok(true) ==> r == (Ok(false), c)
    ensures Exists(c, key) == Ok(false) ==> r.1 == Set(c, key, v, ttl).1
    ensures r.0 == Ok(true) <==> Exists(c, key) == Ok(false) && Set(c, key, v, ttl).0 == Pass
    ensures r.0 != Ok(false) || Exists(c, key) == Ok(true)
  {
    match Exists(c, key)
    case Err(e) => (Err(e), c)
    case Ok(true) => (Ok(false), c)
    case Ok(false) =>
      var (o, c1) := Set(c, key, v, ttl);
      (if o == Pass then Ok(true) else Err(o.error), c1)
  }

  /** After a successful write, `SetNX` on the same key reports false and
      changes nothing. */
  lemma SetNXAfterSet(c: CacheClient, key: string, v: Value, ttl: int, w: Value)
    requires Valid(c) && Works(c, Stores.SetOp) && Works(c, Stores.ExistsOp)
    ensures var c1 := Set(c, key, v, ttl).1;
      SetNX(c1, key, w, ttl) == (Ok(false), c1)
  {
    var c1 := Set(c, key, v, ttl).1;
    if c.hierarchical {
      assert Stores.Exists(c1.tiers.value.l1.backend, key) == Ok(true);
    } else if c.distributed {
      assert GetShard(c1.shards, key, c.crc) == GetShard(c.shards, key, c.crc);
    }
  }

  /** `GetSet`: the prior value (none when that read failed) once the new value
      is written with ttl 0; only the write can make it fail. */
  function GetSet(c: CacheClient, key: string, v: Value): (r: (Result<Option<Value>>, CacheClient))
    requires Valid(c)
    ensures Valid(r.1)
    ensures var (prior, c1) := Get(c, key);
      && r.1 == Set(c1, key, v, 0).1
      && (r.0.Ok? <==> Set(c1, key, v, 0).0 == Pass)
      && (r.0.Ok? ==> r.0.value == (if prior.Ok? then Some(prior.value) else None))
  {
    var (prior, c1) := Get(c, key);
    var (o, c2) := Set(c1, key, v, 0);
    if o != Pass then (Err(o.error), c2)
    else (Ok(if prior.Ok? then Some(prior.value) else None), c2)
  }

  /** On a client whose backends accept reads and writes, `GetSet` returns what
      the previous write stored, and the next read returns the new value. */
  lemma GetSetSwaps(c: CacheClient, key: string, v: Value, ttl: int, w: Value)
    requires Valid(c) && Works(c, Stores.SetOp) && Works(c, Stores.GetOp)
    ensures var c1 := Set(c, key, v, ttl).1;
      && GetSet(c1, key, w).0 == Ok(Some(v))
      && Get(GetSet(c1, key, w).1, key).0 == Ok(w)
  {
    var c1 := Set(c, key, v, ttl).1;
    SetThenGet(c, key, v, ttl);
    var c2 := Get(c1, key).1;
    SameShapeWorks(c, c1, Stores.SetOp);
    SameShapeWorks(c, c1, Stores.GetOp);
    SameShapeWorks(c1, c2, Stores.SetOp);
    SameShapeWorks(c1, c2, Stores.GetOp);
    SetThenGet(c2, key, w, 0);
  }

  /** `Expire`: not supported in hierarchical or distributed mode. */
  function Expire(c: CacheClient, key: string, ttl: int): (r: (Outcome, CacheClient))
    requires Valid(c)
    ensures Valid(r.1)
    ensures c.hierarchical || c.distributed ==> r == (Fail(Unsupported("expire")), c)
    ensures !c.hierarchical && !c.distributed ==>
              r.0 == Stores.Expire(c.backend.value, key, ttl).0 && r.1.backend == Some(Stores.Expire(c.backend.value, key, ttl).1)
  {
    if c.hierarchical || c.distributed then (Fail(Unsupported("expire")), c)
    else
      var (o, b) := Stores.Expire(c.backend.value, key, ttl);
      (o, c.(backend := Some(b)))
  }

  /** `TTL`: not supported in hierarchical or distributed mode. */
  function TTL(c: CacheClient, key: string): (r: Result<int>)
    requires Valid(c)
    ensures r == Err(Unsupported("ttl")) <==> c.hierarchical || c.distributed
    ensures !c.hierarchical && !c.distributed ==> r == Stores.TTL(c.backend.value, key)
  {
    if c.hierarchical || c.distributed then Err(Unsupported("ttl"))
    else Stores.TTL(c.backend.value, key)
  }

  // ---------------------------------------------------------------------------
  // Deletion facts used by the batch delete.

  /** In every mode, once every backend accepted the delete, the key reads as
      not found. */
  lemma DeleteThenGet(c: CacheClient, key: string)
    requires Valid(c) && Works(c, Stores.DeleteOp) && Works(c, Stores.GetOp)
    ensures Delete(c, key).0 == Pass
    ensures Get(Delete(c, key).1, key).0 == Err(KeyNotFound)
  {
    if c.hierarchical {
      DeleteThenGetHierarchical(c.tiers.value, key);
    } else if c.distributed {
      var c1 := Delete(c, key).1;
      assert GetShard(c1.shards, key, c.crc) == GetShard(c.shards, key, c.crc);
    }
  }

  /** A delete of one key leaves what a read of another key returns unchanged. */
  lemma DeleteLeavesOtherKeys(c: CacheClient, key: string, other: string)
    requires Valid(c) && other != key
    ensures Get(Delete(c, key).1, other).0 == Get(c, other).0
  {
    var c1 := Delete(c, key).1;
    if c.hierarchical {
      var h := c.tiers.value;
      var h1 := c1.tiers.value;
      assert Stores.Get(h1.l1.backend, other) == Stores.Get(h.l1.backend, other);
      assert Stores.Get(h1.l2.backend, other) == Stores.Get(h.l2.backend, other);
    } else if c.distributed {
      var j := GetShard(c.shards, other, c.crc).value;
      assert GetShard(c1.shards, other, c.crc) == Some(j);
      assert Stores.Get(c1.shards[j], other) == Stores.Get(c.shards[j], other);
    } else {
      assert Stores.Get(c1.backend.value, other) == Stores.Get(c.backend.value, other);
    }
  }

  // ---------------------------------------------------------------------------
  // Batch reads.

  /** What `GetMulti` computes in hierarchical and distributed mode: `Get` on
      each key in order, failed keys left out, the client passed along. */
  function GetEach(c: CacheClient, keys: seq<string>): (r: (map<string, Value>, CacheClient))
    requires Valid(c)
    ensures Valid(r.1) && SameShape(c, r.1)
    decreases |keys|
  {
    if keys == [] then (map[], c)
    else
      var (found, c1) := GetEach(c, keys[..|keys| - 1]);
      var key := keys[|keys| - 1];
      var (v, c2) := Get(c1, key);
      (if v.Ok? then found[key := v.value] else found, c2)
  }

  /** The keys a batch read of `keys` finds in `c`, with what `Get` returns. */
  function Found(c: CacheClient, keys: seq<string>): map<string, Value>
    requires Valid(c)
  {
    map k | k in keys && Get(c, k).0.Ok? :: Get(c, k).0.value
  }

  /** The per-key batch read returns exactly the keys `Get` finds, with their
      values, and leaves every later read as it was. */
  lemma {:induction false} GetEachIsFound(c: CacheClient, keys: seq<string>)
    requires Valid(c)
    ensures GetEach(c, keys).0 == Found(c, keys)
    ensures forall k :: Get(GetEach(c, keys).1, k).0 == Get(c, k).0
    decreases |keys|
  {
    if keys != [] {
      var prefix := keys[..|keys| - 1];
      var key := keys[|keys| - 1];
      GetEachIsFound(c, prefix);
      var c1 := GetEach(c, prefix).1;
      GetKeepsReads(c1, key);
      assert keys == prefix + [key];
      FoundSnoc(c, prefix, key);
    }
  }

  /** `GetIsStable` for every other key at once. */
  lemma GetKeepsReads(c: CacheClient, key: string)
    requires Valid(c)
    ensures forall k :: Get(Get(c, key).1, k).0 == Get(c, k).0
  {
    forall k
      ensures Get(Get(c, key).1, k).0 == Get(c, k).0
    {
      GetIsStable(c, key, k);
    }
  }

  /** Reading one more key adds it to what was found when `Get` finds it. */
  lemma FoundSnoc(c: CacheClient, prefix: seq<string>, key: string)
    requires Valid(c)
    ensures Found(c, prefix + [key]) ==
              if Get(c, key).0.Ok? then Found(c, prefix)[key := Get(c, key).0.value] else Found(c, prefix)
  {
    var keys := prefix + [key];
    assert forall k :: k in keys <==> k in prefix || k == key;
  }

  /** The values of a raw batch decoded with `codec`; undecodable ones left out. */
  function Decoded(codec: Codec, raw: map<string, Bytes>): map<string, Value> {
    map k | k in raw && Decode(codec, raw[k]).Ok? :: Decode(codec, raw[k]).value
  }

  /** The decoding loop over the raw batch, in map order. */
  method DecodeAll(codec: Codec, raw: map<string, Bytes>) returns (values: map<string, Value>)
    ensures values == Decoded(codec, raw)
  {
    values := map[];
    var todo := raw.Keys;
    while todo != {}
      invariant todo <= raw.Keys
      invariant values == map k | k in raw && k !in todo && Decode(codec, raw[k]).Ok? :: Decode(codec, raw[k]).value
      decreases todo
    {
      var key :| key in todo;
      var v := Decode(codec, raw[key]);
      if v.Ok? {
        values := values[key := v.value];
      }
      todo := todo - {key};
    }
  }

  /** The single-mode batch read as cache.go:272-286 writes it: the raw values
      are deserialized without being decompressed. */
  function GetMultiSingleAsWritten(c: CacheClient, keys: seq<string>): Result<map<string, Value>>
    requires c.backend.Some?
  {
    match Stores.GetMulti(c.backend.value, keys)
    case Err(e) => Err(e)
    case Ok(raw) => Ok(Decoded(Codec(c.codec.serializer, None), raw))
  }

  /** The single-mode batch read with the client's own codec, as `getSingle`
      decodes. */
  function GetMultiSingle(c: CacheClient, keys: seq<string>): Result<map<string, Value>>
    requires c.backend.Some?
  {
    match Stores.GetMulti(c.backend.value, keys)
    case Err(e) => Err(e)
    case Ok(raw) => Ok(Decoded(c.codec, raw))
  }

  /** With compression on, a value written by `Set` reads back through `Get`
      but is missing from the batch read as written. */
  lemma GetMultiAsWrittenDropsCompressed(c: CacheClient, key: string, v: Value, ttl: int)
    requires Valid(c) && !c.hierarchical && !c.distributed && c.codec.compressor.Some?
    requires Works(c, Stores.SetOp) && Works(c, Stores.GetOp) && Works(c, Stores.GetMultiOp)
    ensures Get(Set(c, key, v, ttl).1, key).0 == Ok(v)
    ensures GetMultiSingleAsWritten(Set(c, key, v, ttl).1, [key]) == Ok(map[])
  {
    SetThenGet(c, key, v, ttl);
    var c1 := Set(c, key, v, ttl).1;
    var raw := Stores.GetMulti(c1.backend.value, [key]).value;
    CompressedIsNotSerialized(c.codec.serializer, c.codec.compressor.value, Serialize(c.codec.serializer, v));
    assert raw[key] == Encode(c.codec, v);
    assert Decoded(Codec(c.codec.serializer, None), raw) == map[];
  }

  /** With the client's codec, the batch read returns what `Set` wrote. */
  lemma GetMultiSingleFindsSet(c: CacheClient, key: string, v: Value, ttl: int)
    requires Valid(c) && !c.hierarchical && !c.distributed
    requires Works(c, Stores.SetOp) && Works(c, Stores.GetMultiOp)
    ensures GetMultiSingle(Set(c, key, v, ttl).1, [key]) == Ok(map[key := v])
  {
    var c1 := Set(c, key, v, ttl).1;
    var b1 := Stores.Set(c.backend.value, key, Encode(c.codec, v), ttl).1;
    assert c1.backend == Some(b1) && c1.codec == c.codec;
    assert Stores.GetMultiOp !in b1.failing;
    var raw := Stores.GetMulti(b1, [key]).value;
    assert raw == map[key := Encode(c.codec, v)];
    assert Decode(c.codec, raw[key]) == Ok(v);
    assert Decoded(c.codec, raw) == map[key := v];
    assert Decode(c.codec, raw[key]) == Ok(v);
  }

  /** `GetMulti`: per-key `Get` in hierarchical and distributed mode (never an
      error); otherwise one backend call whose values are decoded. */
  method GetMulti(c: CacheClient, keys: seq<string>) returns (r: Result<map<string, Value>>, after: CacheClient)
    requires Valid(c)
    ensures Valid(after)
    ensures c.hierarchical || c.distributed ==> r.Ok? && (r.value, after) == GetEach(c, keys)
    ensures !c.hierarchical && !c.distributed ==> r == GetMultiSingle(c, keys) && after == c
  {
    after := c;
    if c.hierarchical || c.distributed {
      var result := map[];
      var i := 0;
      while i < |keys|
        invariant 0 <= i <= |keys|
        invariant (result, after) == GetEach(c, keys[..i])
      {
        assert keys[..i + 1][..i] == keys[..i];
        var step := Get(after, keys[i]);
        var value := step.0;
        after := step.1;
        if value.Ok? {
          result := result[keys[i] := value.value];
        }
        i := i + 1;
      }
      assert keys[..i] == keys;
      return Ok(result), after;
    }
    var raw := Stores.GetMulti(c.backend.value, keys);
    if raw.Err? {
      return Err(raw.error), after;
    }
    var values := DecodeAll(c.codec, raw.value);
    r := Ok(values);
  }

  // ---------------------------------------------------------------------------
  // Batch writes.

  /** What `SetMulti` computes in hierarchical and distributed mode for one
      iteration order of the items: `Set` on each, stopping at the first error. */
  function SetEach(c: CacheClient, order: seq<string>, items: map<string, Value>, ttl: int): (r: (Outcome, CacheClient))
    requires Valid(c) && forall k :: k in order ==> k in items
    ensures Valid(r.1) && SameShape(c, r.1)
    decreases |order|
  {
    if order == [] then (Pass, c)
    else
      var (o, c1) := SetEach(c, order[..|order| - 1], items, ttl);
      if o != Pass then (o, c1)
      else
        var key := order[|order| - 1];
        Set(c1, key, items[key], ttl)
  }

  /** On backends that accept writes and reads, whatever the order, every
      item is then what a read of its key returns. */
  lemma {:induction false} SetEachWritesAll(c: CacheClient, order: seq<string>, items: map<string, Value>, ttl: int)
    requires Valid(c) && forall k :: k in order ==> k in items
    requires Works(c, Stores.SetOp) && Works(c, Stores.GetOp)
    ensures SetEach(c, order, items, ttl).0 == Pass
    ensures forall k :: k in order ==> Get(SetEach(c, order, items, ttl).1, k).0 == Ok(items[k])
    decreases |order|
  {
    if order != [] {
      var prefix := order[..|order| - 1];
      var key := order[|order| - 1];
      SetEachWritesAll(c, prefix, items, ttl);
      var c1 := SetEach(c, prefix, items, ttl).1;
      SameShapeWorks(c, c1, Stores.SetOp);
      SameShapeWorks(c, c1, Stores.GetOp);
      SetThenGet(c1, key, items[key], ttl);
      forall k | k in order
        ensures Get(SetEach(c, order, items, ttl).1, k).0 == Ok(items[k])
      {
        if k != key {
          assert k in prefix by { assert order == prefix + [key]; }
          SetLeavesOtherKeys(c1, key, items[key], ttl, k);
        }
      }
    }
  }

  /** The raw batch a single-mode `SetMulti` hands the backend, each item
      encoded with `codec`. */
  function Encoded(codec: Codec, items: map<string, Value>): map<string, Bytes> {
    map k | k in items :: Encode(codec, items[k])
  }

  /** The encoding loop over the items, in map order. */
  method EncodeAll(codec: Codec, items: map<string, Value>) returns (encoded: map<string, Bytes>)
    ensures encoded == Encoded(codec, items)
  {
    encoded := map[];
    var todo := items.Keys;
    while todo != {}
      invariant todo <= items.Keys
      invariant encoded == map k | k in items && k !in todo :: Encode(codec, items[k])
      decreases todo
    {
      var key :| key in todo;
      encoded := encoded[key := Encode(codec, items[key])];
      todo := todo - {key};
    }
  }

  /** The single-mode batch write as cache.go:306-314 writes it: the items are
      serialized but not compressed. */
  function SetMultiSingleAsWritten(c: CacheClient, items: map<string, Value>, ttl: int): (Outcome, CacheClient)
    requires c.backend.Some?
  {
    var (o, b) := Stores.SetMulti(c.backend.value, Encoded(Codec(c.codec.serializer, None), items), ttl);
    (o, c.(backend := Some(b)))
  }

  /** The single-mode batch write with the client's own codec, as `setSingle`
      encodes. */
  function SetMultiSingle(c: CacheClient, items: map<string, Value>, ttl: int): (Outcome, CacheClient)
    requires c.backend.Some?
  {
    var (o, b) := Stores.SetMulti(c.backend.value, Encoded(c.codec, items), ttl);
    (o, c.(backend := Some(b)))
  }

  /** With compression on, an item written by the batch write as written
      cannot be read back by `Get`. */
  lemma SetMultiAsWrittenUnreadable(c: CacheClient, key: string, v: Value, ttl: int)
    requires Valid(c) && !c.hierarchical && !c.distributed && c.codec.compressor.Some?
    requires Works(c, Stores.SetMultiOp) && Works(c, Stores.GetOp)
    ensures SetMultiSingleAsWritten(c, map[key := v], ttl).0 == Pass
    ensures Get(SetMultiSingleAsWritten(c, map[key := v], ttl).1, key).0 == Err(CodecFailure)
  {
    var c1 := SetMultiSingleAsWritten(c, map[key := v], ttl).1;
    var written := Encode(Codec(c.codec.serializer, None), v);
    assert c1.backend.value.entries[key].data == written;
    SerializedIsNotCompressed(c.codec.serializer, c.codec.compressor.value, v);
  }

  /** With the client's codec, every item of the batch write reads back. */
  lemma SetMultiSingleReadsBack(c: CacheClient, items: map<string, Value>, ttl: int)
    requires Valid(c) && !c.hierarchical && !c.distributed
    requires Works(c, Stores.SetMultiOp) && Works(c, Stores.GetOp)
    ensures SetMultiSingle(c, items, ttl).0 == Pass
    ensures forall k :: k in items ==> Get(SetMultiSingle(c, items, ttl).1, k).0 == Ok(items[k])
  {
    var c1 := SetMultiSingle(c, items, ttl).1;
    forall k | k in items
      ensures Get(c1, k).0 == Ok(items[k])
    {
      assert c1.backend.value.entries[k].data == Encode(c.codec, items[k]);
    }
  }

  /** On an empty working backend, a batch read after a batch write finds
      exactly the requested keys that were written, with their values. */
  lemma SetMultiThenGetMulti(c: CacheClient, items: map<string, Value>, ttl: int, keys: seq<string>)
    requires Valid(c) && !c.hierarchical && !c.distributed && c.backend.value.entries == map[]
    requires Works(c, Stores.SetMultiOp) && Works(c, Stores.GetMultiOp)
    ensures GetMultiSingle(SetMultiSingle(c, items, ttl).1, keys) == Ok(map k | k in keys && k in items :: items[k])
  {
    var b1 := Stores.SetMulti(c.backend.value, Encoded(c.codec, items), ttl).1;
    var c1 := SetMultiSingle(c, items, ttl).1;
    assert c1 == c.(backend := Some(b1));
    assert forall k :: k in b1.entries <==> k in items;
    var raw := Stores.GetMulti(b1, keys).value;
    assert forall k :: k in raw <==> k in keys && k in items;
    forall k | k in raw
      ensures Decode(c.codec, raw[k]) == Ok(items[k])
    {
      assert raw[k] == b1.entries[k].data == Encode(c.codec, items[k]);
    }
    assert Decoded(c.codec, raw) == map k | k in keys && k in items :: items[k];
  }

  /** Without compression the batch calls as written agree with the client's
      codec, which is why the difference only shows once compression is on. */
  lemma AsWrittenAgreesWithoutCompression(c: CacheClient, keys: seq<string>, items: map<string, Value>, ttl: int)
    requires c.backend.Some? && c.codec.compressor.None?
    ensures GetMultiSingleAsWritten(c, keys) == GetMultiSingle(c, keys)
    ensures SetMultiSingleAsWritten(c, items, ttl) == SetMultiSingle(c, items, ttl)
  {
    assert Codec(c.codec.serializer, None) == c.codec;
  }

  /** `SetMulti`: per-item `Set` in map order in hierarchical and distributed
      mode, returning the first error; otherwise one backend call with the
      encoded items. `order` is the iteration order the map happened to give. */
  method SetMulti(c: CacheClient, items: map<string, Value>, ttl: int)
    returns (r: Outcome, after: CacheClient, ghost order: seq<string>)
    requires Valid(c)
    ensures Valid(after)
    ensures forall k :: k in order ==> k in items
    ensures c.hierarchical || c.distributed ==> (r, after) == SetEach(c, order, items, ttl)
    ensures c.hierarchical || c.distributed ==> r == Pass ==> forall k :: k in items ==> k in order
    ensures !c.hierarchical && !c.distributed ==> (r, after) == SetMultiSingle(c, items, ttl)
  {
    order := [];
    after := c;
    if c.hierarchical || c.distributed {
      var todo := items.Keys;
      while todo != {}
        invariant todo <= items.Keys
        invariant forall k :: k in order ==> k in items
        invariant forall k :: k in items ==> k in todo || k in order
        invariant (Pass, after) == SetEach(c, order, items, ttl)
        decreases todo
      {
        var key :| key in todo;
        assert (order + [key])[..|order|] == order;
        var step := Set(after, key, items[key], ttl);
        var o := step.0;
        after := step.1;
        order := order + [key];
        if o != Pass {
          return o, after, order;
        }
        todo := todo - {key};
      }
      return Pass, after, order;
    }
    var encoded := EncodeAll(c.codec, items);
    var step := Stores.SetMulti(c.backend.value, encoded, ttl);
    r := step.0;
    after := c.(backend := Some(step.1));
  }

  // ---------------------------------------------------------------------------
  // Batch deletes.

  /** What `DeleteMulti` computes in hierarchical and distributed mode: `Delete`
      on each key in order, stopping at the first error. */
  function DeleteEach(c: CacheClient, keys: seq<string>): (r: (Outcome, CacheClient))
    requires Valid(c)
    ensures Valid(r.1) && SameShape(c, r.1)
    decreases |keys|
  {
    if keys == [] then (Pass, c)
    else
      var (o, c1) := DeleteEach(c, keys[..|keys| - 1]);
      if o != Pass then (o, c1)
      else Delete(c1, keys[|keys| - 1])
  }

  /** Once a delete fails, the rest of the keys are not attempted. */
  lemma {:induction false} DeleteEachStops(c: CacheClient, keys: seq<string>, i: nat)
    requires Valid(c) && i <= |keys| && DeleteEach(c, keys[..i]).0 != Pass
    ensures DeleteEach(c, keys) == DeleteEach(c, keys[..i])
    decreases |keys|
  {
    if i < |keys| {
      var prefix := keys[..|keys| - 1];
      assert prefix[..i] == keys[..i];
      DeleteEachStops(c, prefix, i);
    } else {
      assert keys[..i] == keys;
    }
  }

  /** On backends that accept deletes and reads, every listed key then reads as
      not found. */
  lemma {:induction false} DeleteEachRemovesAll(c: CacheClient, keys: seq<string>)
    requires Valid(c) && Works(c, Stores.DeleteOp) && Works(c, Stores.GetOp)
    ensures DeleteEach(c, keys).0 == Pass
    ensures forall k :: k in keys ==> Get(DeleteEach(c, keys).1, k).0 == Err(KeyNotFound)
    decreases |keys|
  {
    if keys != [] {
      var prefix := keys[..|keys| - 1];
      var key := keys[|keys| - 1];
      DeleteEachRemovesAll(c, prefix);
      var c1 := DeleteEach(c, prefix).1;
      SameShapeWorks(c, c1, Stores.DeleteOp);
      SameShapeWorks(c, c1, Stores.GetOp);
      DeleteThenGet(c1, key);
      forall k | k in keys
        ensures Get(DeleteEach(c, keys).1, k).0 == Err(KeyNotFound)
      {
        if k != key {
          assert k in prefix by { assert keys == prefix + [key]; }
          DeleteLeavesOtherKeys(c1, key, k);
        }
      }
    }
  }

  /** `DeleteMulti`: per-key `Delete` in hierarchical and distributed mode,
      returning the first error; otherwise one backend call. */
  method DeleteMulti(c: CacheClient, keys: seq<string>) returns (r: Outcome, after: CacheClient)
    requires Valid(c)
    ensures Valid(after)
    ensures c.hierarchical || c.distributed ==> (r, after) == DeleteEach(c, keys)
    ensures !c.hierarchical && !c.distributed ==>
              (r, after.backend) == (Stores.DeleteMulti(c.backend.value, keys).0, Some(Stores.DeleteMulti(c.backend.value, keys).1))
    ensures !c.hierarchical && !c.distributed ==> after == c.(backend := after.backend)
  {
    after := c;
    if c.hierarchical || c.distributed {
      var i := 0;
      while i < |keys|
        invariant 0 <= i <= |keys|
        invariant (Pass, after) == DeleteEach(c, keys[..i])
      {
        assert keys[..i + 1][..i] == keys[..i];
        var step := Delete(after, keys[i]);
        var o := step.0;
        after := step.1;
        if o != Pass {
          DeleteEachStops(c, keys, i + 1);
          return o, after;
        }
        i := i + 1;
      }
      assert keys[..i] == keys;
      return Pass, after;
    }
    var step := Stores.DeleteMulti(c.backend.value, keys);
    r := step.0;
    after := c.(backend := Some(step.1));
  }

  // ---------------------------------------------------------------------------
  // Management operations.

  /** The position of the first shard that fails `op`, or the number of shards
      when none does: where a loop that stops at the first error stops. */
  function FirstFailing(shards: seq<Stores.Store>, op: Stores.Op): (k: nat)
    ensures k <= |shards|
    ensures forall i :: 0 <= i < k ==> op !in shards[i].failing
    ensures k < |shards| ==> op in shards[k].failing
  {
    if shards == [] then 0
    else if op in shards[0].failing then 0
    else 1 + FirstFailing(shards[1..], op)
  }

  /** The loop of `Clear` over the shards: each is cleared in turn until one
      reports an error, which is returned. */
  method ClearShards(shards: seq<Stores.Store>) returns (r: Outcome, after: seq<Stores.Store>)
    ensures r == Pass <==> FirstFailing(shards, Stores.ClearOp) == |shards|
    ensures r != Pass ==> r == Fail(BackendFailure)
    ensures |after| == |shards|
    ensures forall i :: 0 <= i < |shards| ==>
              after[i] == if i < FirstFailing(shards, Stores.ClearOp) then shards[i].(entries := map[]) else shards[i]
  {
    ghost var k := FirstFailing(shards, Stores.ClearOp);
    after := shards;
    var i := 0;
    while i < |shards|
      invariant 0 <= i <= k
      invariant |after| == |shards|
      invariant forall j :: 0 <= j < |shards| ==> after[j] == if j < i then shards[j].(entries := map[]) else shards[j]
    {
      var step := Stores.Clear(shards[i]);
      if step.0 != Pass {
        return step.0, after;
      }
      after := after[i := step.1];
      i := i + 1;
    }
    r := Pass;
  }

  /** No backend of the client holds an entry. */
  predicate Empty(c: CacheClient) {
    && (c.tiers.Some? ==> c.tiers.value.l1.backend.entries == map[] && c.tiers.value.l2.backend.entries == map[])
    && (c.backend.Some? ==> c.backend.value.entries == map[])
    && (forall i :: 0 <= i < |c.shards| ==> c.shards[i].entries == map[])
  }

  /** The backends the management operations visit: a distributed client's
      main backend is left out by `Clear` and `Health`. */
  function Managed(c: CacheClient): CacheClient {
    if c.distributed && !c.hierarchical then c.(backend := None) else c
  }

  /** `Clear`: L1 then L2, stopping at L1's error; the shards in order, stopping
      at the first error; or the single backend. The main backend of a
      distributed client is not cleared. */
  method Clear(c: CacheClient) returns (r: Outcome, after: CacheClient)
    requires Valid(c)
    ensures Valid(after) && SameShape(c, after)
    ensures r == Pass <==> Works(Managed(c), Stores.ClearOp)
    ensures r != Pass ==> r == Fail(BackendFailure)
    ensures r == Pass ==> Empty(Managed(after))
    ensures c.hierarchical ==>
              var h := c.tiers.value;
              && (Stores.ClearOp in h.l1.backend.failing ==> after == c)
              && (Stores.ClearOp !in h.l1.backend.failing ==>
                    after == c.(tiers := Some(h.(l1 := h.l1.(backend := h.l1.backend.(entries := map[])),
                                                 l2 := h.l2.(backend := Stores.Clear(h.l2.backend).1)))))
    ensures !c.hierarchical && c.distributed ==>
              && after == c.(shards := after.shards)
              && forall i :: 0 <= i < |c.shards| ==>
                   after.shards[i] ==
                     if i < FirstFailing(c.shards, Stores.ClearOp) then c.shards[i].(entries := map[]) else c.shards[i]
    ensures !c.hierarchical && !c.distributed ==> after == c.(backend := Some(Stores.Clear(c.backend.value).1))
  {
    after := c;
    if c.hierarchical {
      var h := c.tiers.value;
      var step1 := Stores.Clear(h.l1.backend);
      if step1.0 != Pass {
        return step1.0, after;
      }
      var l1 := h.l1.(backend := step1.1);
      var step2 := Stores.Clear(h.l2.backend);
      var l2 := h.l2.(backend := step2.1);
      return step2.0, c.(tiers := Some(h.(l1 := l1, l2 := l2)));
    }
    if c.distributed {
      var shards;
      r, shards := ClearShards(c.shards);
      after := c.(shards := shards);
      return;
    }
    var step := Stores.Clear(c.backend.value);
    r := step.0;
    after := c.(backend := Some(step.1));
  }

  /** Once everything is empty, every read on working backends misses. */
  lemma EmptyMisses(c: CacheClient, key: string)
    requires Valid(c) && Works(c, Stores.GetOp)
    requires Empty(Managed(c))
    ensures Get(c, key).0 == Err(KeyNotFound)
  {
    if !c.hierarchical && c.distributed {
      var i := GetShard(c.shards, key, c.crc).value;
      assert c.shards[i].entries == map[];
    }
  }

  /** The loop of `Health` over the shards: the first error is returned. */
  method HealthShards(shards: seq<Stores.Store>) returns (r: Outcome)
    ensures r == Pass <==> FirstFailing(shards, Stores.HealthOp) == |shards|
    ensures r != Pass ==> r == Fail(BackendFailure)
  {
    ghost var k := FirstFailing(shards, Stores.HealthOp);
    var i := 0;
    while i < |shards|
      invariant 0 <= i <= k
    {
      var o := Stores.Health(shards[i]);
      if o != Pass {
        return o;
      }
      i := i + 1;
    }
    return Pass;
  }

  /** `Health`: L1 then L2, the shards in order, or the single backend; the
      first error is returned. The main backend of a distributed client is not
      asked. */
  method Health(c: CacheClient) returns (r: Outcome)
    requires Valid(c)
    ensures r == Pass <==> Works(Managed(c), Stores.HealthOp)
    ensures r != Pass ==> r == Fail(BackendFailure)
  {
    if c.hierarchical {
      var h := c.tiers.value;
      r := Stores.Health(h.l1.backend);
      if r != Pass {
        return;
      }
      r := Stores.Health(h.l2.backend);
      return;
    }
    if c.distributed {
      r := HealthShards(c.shards);
      return;
    }
    r := Stores.Health(c.backend.value);
  }

  /** `Stats`: the combined tiers, the summed shards, or the single backend's
      record copied field by field. */
  method Stats(c: CacheClient) returns (r: Result<Backends.Stats>)
    requires Valid(c)
    ensures c.hierarchical ==> r == StatsHierarchical(c.tiers.value)
    ensures !c.hierarchical && c.distributed ==> r == Ok(SumStats(c.shards))
    ensures !c.hierarchical && !c.distributed ==> r == Stores.Stats(c.backend.value)
  {
    if c.hierarchical {
      return StatsHierarchical(c.tiers.value);
    }
    if c.distributed {
      var combined := StatsDistributed(c.shards);
      return Ok(combined);
    }
    var s := Stores.Stats(c.backend.value);
    if s.Err? {
      return Err(s.error);
    }
    return Ok(s.value);
  }

  /** How many of `shards` fail `op`. */
  function FailCount(shards: seq<Stores.Store>, op: Stores.Op): (n: nat)
    ensures n <= |shards|
  {
    if shards == [] then 0
    else FailCount(shards[..|shards| - 1], op) + (if op in shards[|shards| - 1].failing then 1 else 0)
  }

  /** No shard fails `op` exactly when the count is zero. */
  lemma {:induction false} FailCountZero(shards: seq<Stores.Store>, op: Stores.Op)
    ensures FailCount(shards, op) == 0 <==> forall i :: 0 <= i < |shards| ==> op !in shards[i].failing
  {
    if shards != [] {
      var prefix := shards[..|shards| - 1];
      FailCountZero(prefix, op);
      assert forall i :: 0 <= i < |prefix| ==> prefix[i] == shards[i];
    }
  }

  /** The number of errors `Close` collects: one per tier, shard or main
      backend that fails to close. */
  function CloseFailures(c: CacheClient): nat {
    (if c.hierarchical && c.tiers.Some? then
       (if Stores.CloseOp in c.tiers.value.l1.backend.failing then 1 else 0)
       + (if Stores.CloseOp in c.tiers.value.l2.backend.failing then 1 else 0)
     else 0)
    + (if c.distributed then FailCount(c.shards, Stores.CloseOp) else 0)
    + (if c.backend.Some? && Stores.CloseOp in c.backend.value.failing then 1 else 0)
  }

  /** `Close`: every tier, every shard and the main backend are closed whatever
      the others report, and the collected errors are reported together. */
  method Close(c: CacheClient) returns (r: Outcome)
    requires Valid(c)
    ensures r == Pass <==> CloseFailures(c) == 0
    ensures r != Pass ==> r == Fail(CloseFailed(CloseFailures(c)))
  {
    var errors := 0;
    if c.hierarchical {
      if Stores.Close(c.tiers.value.l1.backend) != Pass {
        errors := errors + 1;
      }
      if Stores.Close(c.tiers.value.l2.backend) != Pass {
        errors := errors + 1;
      }
    }
    if c.distributed {
      var i := 0;
      ghost var before := errors;
      while i < |c.shards|
        invariant 0 <= i <= |c.shards|
        invariant errors == before + FailCount(c.shards[..i], Stores.CloseOp)
      {
        assert c.shards[..i + 1][..i] == c.shards[..i];
        if Stores.Close(c.shards[i]) != Pass {
          errors := errors + 1;
        }
        i := i + 1;
      }
      assert c.shards[..i] == c.shards;
    }
    if c.backend.Some? {
      if Stores.Close(c.backend.value) != Pass {
        errors := errors + 1;
      }
    }
    if errors > 0 {
      return Fail(CloseFailed(errors));
    }
    return Pass;
  }

  /** `Close` succeeds exactly when every backend it closes accepts. */
  lemma CloseSucceedsWhenAllClose(c: CacheClient)
    requires Valid(c)
    ensures CloseFailures(c) == 0 <==> Works(c, Stores.CloseOp)
  {
    FailCountZero(c.shards, Stores.CloseOp);
  }

  // ---------------------------------------------------------------------------
  // Construction.

  const NoMemory := Config.MemoryConfig("", 0, "", 0, 0)

  /** The configuration `initHierarchicalCache` builds a tier client from: the
      tier's backend and memory settings, the outer serializer and compression
      flag, and nothing else. The compression algorithm is left empty, so the
      tier's own validation picks gzip whatever the outer configuration says. */
  function TierConfigOf(cfg: Config.ConfigValue, tier: Config.TierConfig): Config.ConfigValue {
    Config.ConfigValue(
      tier.backend, cfg.compression, "", cfg.serializer, false, false, tier.memory,
      Config.RedisConfig([], 0, 0, 0, 0), Config.MemcachedConfig([], 0, 0), Config.GrpcConfig(0, []),
      Config.TierConfig("", 0, NoMemory), Config.TierConfig("", 0, NoMemory), Config.ShardingConfig("", 0, 0))
  }

  /** A tier configuration that validates keeps the outer serializer and gets
      gzip when compression is on. */
  lemma TierConfigValidates(v: Config.ConfigValue, tier: Config.TierConfig)
    requires v.serializer in Config.ValidSerializers
    ensures var t := Config.Validated(TierConfigOf(v, tier)).0;
      && !t.hierarchical && !t.distributed && t.compression == v.compression
      && (Config.Accepted(TierConfigOf(v, tier)) ==>
            t.serializer == v.serializer && (v.compression ==> t.compressionAlgorithm == "gzip"))
  {
    Config.ValidatedKeepsModes(TierConfigOf(v, tier));
    if Config.Accepted(TierConfigOf(v, tier)) {
      Config.CompressionRule(TierConfigOf(v, tier));
    }
  }

  /** The tier client a single-mode client stands for. */
  function AsTier(c: CacheClient): Tier
    requires Valid(c) && !c.hierarchical
  {
    Tier(c.codec, c.backend.value)
  }

  /** The serializer and, when compression is on, the compressor that `New`
      builds from a configuration whose names the factories accept. */
  method BuildCodec(v: Config.ConfigValue) returns (codec: Codec)
    requires NewSerializer(v.serializer).Ok?
    requires v.compression ==> NewCompressor(v.compressionAlgorithm).Ok?
    ensures SerializerName(codec.serializer) == v.serializer
    ensures codec.compressor.Some? <==> v.compression
    ensures v.compression ==> CompressorName(codec.compressor.value) == v.compressionAlgorithm
  {
    var serializer := NewSerializer(v.serializer);
    var compressor: Option<CompressorKind> := None;
    if v.compression {
      var k := NewCompressor(v.compressionAlgorithm);
      compressor := Some(k.value);
    }
    codec := Codec(serializer.value, compressor);
  }

  /** `New`: validate, build the serializer and, when compression is on, the
      compressor; in hierarchical mode build the two tier clients and stop;
      otherwise build the main backend and, in distributed mode, the shards.
      `crc` is the routing hash the client keeps. Backends start empty and
      working. */
  method New(cfg: Config.ConfigValue, crc: Sharding.Hash) returns (r: Result<CacheClient>)
    ensures !Config.Accepted(cfg) ==> r == Err(Config.Validated(cfg).1.error)
    ensures Config.Accepted(cfg) && !cfg.hierarchical ==> r.Ok?
    ensures r.Ok? ==> && Config.Accepted(cfg) && Valid(r.value) && r.value.crc == crc
                      && r.value.hierarchical == cfg.hierarchical && r.value.distributed == cfg.distributed
                      && SerializerName(r.value.codec.serializer) == Config.Validated(cfg).0.serializer
                      && (r.value.codec.compressor.Some? <==> cfg.compression)
                      && (cfg.compression ==> CompressorName(r.value.codec.compressor.value) == Config.Validated(cfg).0.compressionAlgorithm)
    ensures r.Ok? && !cfg.hierarchical ==> r.value.backend == Some(Stores.EmptyStore)
    ensures r.Ok? && !cfg.hierarchical && cfg.distributed ==>
              && |r.value.shards| == (if cfg.sharding.shards <= 0 then 3 else cfg.sharding.shards)
              && forall i :: 0 <= i < |r.value.shards| ==> r.value.shards[i] == Stores.EmptyStore
    ensures r.Ok? && cfg.hierarchical ==>
              var h := r.value.tiers.value;
              && h.l1TTL == cfg.l1.ttl
              && h.l1.backend == Stores.EmptyStore && h.l2.backend == Stores.EmptyStore
              && h.l1.codec.serializer == r.value.codec.serializer && h.l2.codec.serializer == r.value.codec.serializer
              && h.l1.codec.compressor == h.l2.codec.compressor
              && h.l1.codec.compressor == (if cfg.compression then Some(GzipCompressor) else None)
    ensures Config.Accepted(cfg) && cfg.hierarchical ==>
              (r.Ok? <==> Config.Accepted(TierConfigOf(Config.Validated(cfg).0, cfg.l1))
                          && Config.Accepted(TierConfigOf(Config.Validated(cfg).0, cfg.l2)))
    decreases if cfg.hierarchical then 1 else 0, 0
  {
    var (v, o) := Config.Validated(cfg);
    if o.Fail? {
      return Err(o.error);
    }
    Config.ValidatedKeepsModes(cfg);
    Backends.ValidatedConfigBuilds(cfg);
    Config.SerializerRule(cfg);
    var codec := BuildCodec(v);
    if v.hierarchical {
      r := NewHierarchical(v, codec, crc);
      return;
    }
    var shards := [];
    if v.distributed {
      shards := InitShards(v.sharding.shards);
    }
    return Ok(CacheClient(false, v.distributed, codec, None, Some(Stores.EmptyStore), shards, crc));
  }

  /** The hierarchical part of `New`: build a client for each tier from its
      derived configuration and stop at the first that fails. */
  method NewHierarchical(v: Config.ConfigValue, codec: Codec, crc: Sharding.Hash) returns (r: Result<CacheClient>)
    requires v.hierarchical && v.serializer in Config.ValidSerializers
    ensures r.Ok? ==> && Valid(r.value) && r.value.crc == crc && r.value.codec == codec
                      && r.value.hierarchical && r.value.distributed == v.distributed
    ensures r.Ok? ==>
              var h := r.value.tiers.value;
              && h.l1TTL == v.l1.ttl
              && h.l1.backend == Stores.EmptyStore && h.l2.backend == Stores.EmptyStore
              && SerializerName(h.l1.codec.serializer) == v.serializer
              && SerializerName(h.l2.codec.serializer) == v.serializer
              && h.l1.codec.compressor == (if v.compression then Some(GzipCompressor) else None)
              && h.l2.codec.compressor == (if v.compression then Some(GzipCompressor) else None)
    ensures r.Ok? <==> Config.Accepted(TierConfigOf(v, v.l1)) && Config.Accepted(TierConfigOf(v, v.l2))
    decreases 0, 1
  {
    TierConfigValidates(v, v.l1);
    TierConfigValidates(v, v.l2);
    var c1 := New(TierConfigOf(v, v.l1), crc);
    if c1.Err? {
      return Err(c1.error);
    }
    var c2 := New(TierConfigOf(v, v.l2), crc);
    if c2.Err? {
      return Err(c2.error);
    }
    var tiers := Tiers(AsTier(c1.value), AsTier(c2.value), v.l1.ttl);
    return Ok(CacheClient(true, v.distributed, codec, Some(tiers), None, [], crc));
  }
}
