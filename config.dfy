/** pkg/config/config.go: the configuration record, its validation (which writes
    defaults into empty fields in place) and the digit-string parser. */
module Config {
  import opened Wrappers
  import opened Text

  const Millisecond: int := 1_000_000
  const Second: int := 1_000_000_000
  const Minute: int := 60 * Second

  const ValidBackends: seq<string> := ["memory", "redis", "memcached"]
  const ValidSerializers: seq<string> := ["json", "gob", "msgpack"]
  const ValidAlgorithms: seq<string> := ["gzip", "lz4", "snappy"]
  const ValidPolicies: seq<string> := ["lru", "lfu", "random"]

  /** Settings of the in-memory store. Durations are Go `time.Duration`s (nanoseconds). */
  datatype MemoryConfig = MemoryConfig(
    maxSize: string,
    maxKeys: int,
    evictionPolicy: string,
    defaultTTL: int,
    cleanupInterval: int)

  /** The Redis settings that validation touches. */
  datatype RedisConfig = RedisConfig(
    addresses: seq<string>,
    poolSize: int,
    dialTimeout: int,
    readTimeout: int,
    writeTimeout: int)

  datatype MemcachedConfig = MemcachedConfig(servers: seq<string>, timeout: int, maxIdleConns: int)

  datatype GrpcConfig = GrpcConfig(port: int, peers: seq<string>)

  /** One tier of the hierarchical mode (`CacheConfig`). */
  datatype TierConfig = TierConfig(backend: string, ttl: int, memory: MemoryConfig)

  datatype ShardingConfig = ShardingConfig(algorithm: string, replicas: int, shards: int)

  /** The configuration as a value: what `Config` holds at one moment. */
  datatype ConfigValue = ConfigValue(
    backend: string,
    compression: bool,
    compressionAlgorithm: string,
    serializer: string,
    distributed: bool,
    hierarchical: bool,
    memory: MemoryConfig,
    redis: RedisConfig,
    memcached: MemcachedConfig,
    grpc: GrpcConfig,
    l1: TierConfig,
    l2: TierConfig,
    sharding: ShardingConfig)

  /** `contains`: a linear search with early return. */
  method Contains(list: seq<string>, item: string) returns (found: bool)
    ensures found <==> item in list
  {
    var i := 0;
    while i < |list|
      invariant 0 <= i <= |list|
      invariant item !in list[..i]
    {
      if list[i] == item {
        return true;
      }
      i := i + 1;
    }
    assert list[..i] == list;
    return false;
  }

  // ---------------------------------------------------------------------------
  // Validation as a function of the configuration value. The method
  // Config.Validate below performs the same steps in place.

  function RedisDefaults(r: RedisConfig): RedisConfig {
    r.(addresses := if |r.addresses| == 0 then ["localhost:6379"] else r.addresses,
       poolSize := if r.poolSize == 0 then 10 else r.poolSize,
       dialTimeout := if r.dialTimeout == 0 then 5 * Second else r.dialTimeout,
       readTimeout := if r.readTimeout == 0 then 3 * Second else r.readTimeout,
       writeTimeout := if r.writeTimeout == 0 then 3 * Second else r.writeTimeout)
  }

  function MemcachedDefaults(m: MemcachedConfig): MemcachedConfig {
    m.(servers := if |m.servers| == 0 then ["localhost:11211"] else m.servers,
       timeout := if m.timeout == 0 then 100 * Millisecond else m.timeout,
       maxIdleConns := if m.maxIdleConns == 0 then 2 else m.maxIdleConns)
  }

  function MemoryDefaults(m: MemoryConfig): MemoryConfig {
    m.(maxSize := if m.maxSize == "" then "100MB" else m.maxSize,
       evictionPolicy := if m.evictionPolicy == "" then "lru" else m.evictionPolicy,
       cleanupInterval := if m.cleanupInterval == 0 then 10 * Minute else m.cleanupInterval)
  }

  /** The configuration after the checks up to and including the distributed
      one, with the defaults those steps write, or the first rejection. */
  function CommonChecks(c: ConfigValue): (ConfigValue, Outcome)
  {
    if c.backend !in ValidBackends then (c, Fail(InvalidConfig("backend")))
    else
      var c1 := if c.serializer == "" then c.(serializer := "json") else c;
      if c1.serializer !in ValidSerializers then (c1, Fail(InvalidConfig("serializer")))
      else
        var c2 := if c1.compression && c1.compressionAlgorithm == "" then c1.(compressionAlgorithm := "gzip") else c1;
        if c2.compression && c2.compressionAlgorithm !in ValidAlgorithms then
          (c2, Fail(InvalidConfig("compression_algorithm")))
        else if c2.hierarchical && (c2.l1.backend == "" || c2.l2.backend == "") then
          (c2, Fail(InvalidConfig("hierarchical")))
        else
          var c3 := if c2.distributed && c2.grpc.port == 0 then c2.(grpc := c2.grpc.(port := 50051)) else c2;
          if c3.distributed && |c3.grpc.peers| == 0 then (c3, Fail(InvalidConfig("peers")))
          else (c3, Pass)
  }

  /** The backend-specific step that follows the common checks. */
  function BackendChecks(c: ConfigValue): (ConfigValue, Outcome)
  {
    if c.backend == "redis" then (c.(redis := RedisDefaults(c.redis)), Pass)
    else if c.backend == "memcached" then (c.(memcached := MemcachedDefaults(c.memcached)), Pass)
    else if c.backend == "memory" then
      var m := MemoryDefaults(c.memory);
      (c.(memory := m), if m.evictionPolicy in ValidPolicies then Pass else Fail(InvalidConfig("eviction_policy")))
    else (c, Pass)
  }

  /** `Validate`: the configuration it leaves behind (defaults are written even
      when a later check fails) and its verdict. */
  function Validated(c: ConfigValue): (ConfigValue, Outcome)
  {
    var (c1, o) := CommonChecks(c);
    if o.Fail? then (c1, o) else BackendChecks(c1)
  }

  /** A configuration `Validate` accepts. */
  predicate Accepted(c: ConfigValue) {
    Validated(c).1 == Pass
  }

  lemma RejectsUnknownBackend(c: ConfigValue)
    requires c.backend !in {"memory", "redis", "memcached"}
    ensures Validated(c) == (c, Fail(InvalidConfig("backend")))
  {
  }

  /** An empty serializer becomes "json"; anything outside json/gob/msgpack is rejected. */
  lemma SerializerRule(c: ConfigValue)
    requires c.backend in ValidBackends
    ensures c.serializer == "" ==> Validated(c).0.serializer == "json"
    ensures c.serializer != "" && c.serializer !in {"json", "gob", "msgpack"} ==>
              Validated(c) == (c, Fail(InvalidConfig("serializer")))
    ensures Accepted(c) ==> Validated(c).0.serializer in {"json", "gob", "msgpack"}
  {
  }

  /** With compression on, an empty algorithm becomes "gzip" and must be known;
      with compression off the algorithm is left as it is and never checked. */
  lemma CompressionRule(c: ConfigValue)
    ensures c.compression && Accepted(c) ==>
              Validated(c).0.compressionAlgorithm in {"gzip", "lz4", "snappy"}
    ensures c.compression && c.compressionAlgorithm == "" && c.backend in ValidBackends
            && (c.serializer == "" || c.serializer in ValidSerializers) ==>
              Validated(c).0.compressionAlgorithm == "gzip"
    ensures !c.compression ==> Validated(c).0.compressionAlgorithm == c.compressionAlgorithm
  {
  }

  /** Hierarchical mode needs both tier backends; distributed mode defaults the
      port to 50051 and needs a peer. */
  lemma ModeRules(c: ConfigValue)
    ensures Accepted(c) && c.hierarchical ==> c.l1.backend != "" && c.l2.backend != ""
    ensures Accepted(c) && c.distributed ==> |c.grpc.peers| > 0
    ensures Accepted(c) && c.distributed && c.grpc.port == 0 ==> Validated(c).0.grpc.port == 50051
    ensures Accepted(c) ==> Validated(c).0.grpc.peers == c.grpc.peers
  {
  }

  /** For the memory backend: "100MB", "lru" and ten minutes fill empty fields,
      and the policy must be lru, lfu or random. */
  lemma MemoryRule(c: ConfigValue)
    requires c.backend == "memory"
    ensures Accepted(c) ==> Validated(c).0.memory.evictionPolicy in {"lru", "lfu", "random"}
    ensures Accepted(c) && c.memory.maxSize == "" ==> Validated(c).0.memory.maxSize == "100MB"
    ensures Accepted(c) && c.memory.cleanupInterval == 0 ==> Validated(c).0.memory.cleanupInterval == 10 * Minute
    ensures Accepted(c) && c.memory.maxSize != "" ==> Validated(c).0.memory.maxSize == c.memory.maxSize
    ensures (CommonChecks(c).1 == Pass && c.memory.evictionPolicy != ""
             && c.memory.evictionPolicy !in {"lru", "lfu", "random"}) ==> !Accepted(c)
  {
    CommonChecksKeepBackendRecords(c);
    var (c1, o) := CommonChecks(c);
    if o == Pass {
      assert Validated(c) == BackendChecks(c1);
      assert c1.backend == "memory";
      assert Validated(c) == (c1.(memory := MemoryDefaults(c.memory)),
                              if MemoryDefaults(c.memory).evictionPolicy in ValidPolicies then Pass
                              else Fail(InvalidConfig("eviction_policy")));
    }
  }

  /** The common checks leave the backend name and the backend records alone. */
  lemma CommonChecksKeepBackendRecords(c: ConfigValue)
    ensures CommonChecks(c).0.backend == c.backend
    ensures CommonChecks(c).0.memory == c.memory
    ensures CommonChecks(c).0.redis == c.redis && CommonChecks(c).0.memcached == c.memcached
  {
  }

  /** The common checks only fill empty fields, so they accept their own output
      and change nothing. */
  lemma CommonChecksIdempotent(c: ConfigValue)
    requires CommonChecks(c).1 == Pass
    ensures CommonChecks(CommonChecks(c).0) == (CommonChecks(c).0, Pass)
  {
  }

  /** The backend step only touches the backend-specific records, which the
      common checks do not read. */
  lemma CommonChecksIgnoreBackendRecords(c: ConfigValue, r: RedisConfig, m: MemcachedConfig, mem: MemoryConfig)
    requires CommonChecks(c) == (c, Pass)
    ensures CommonChecks(c.(redis := r, memcached := m, memory := mem)) == (c.(redis := r, memcached := m, memory := mem), Pass)
  {
  }

  lemma BackendChecksIdempotent(c: ConfigValue)
    requires BackendChecks(c).1 == Pass
    ensures BackendChecks(BackendChecks(c).0) == BackendChecks(c)
  {
  }

  /** The fields validation never writes. */
  predicate SameModes(a: ConfigValue, b: ConfigValue) {
    && a.hierarchical == b.hierarchical && a.distributed == b.distributed
    && a.compression == b.compression && a.l1 == b.l1 && a.l2 == b.l2 && a.sharding == b.sharding
  }

  /** Validation writes defaults only: the mode flags, the compression flag and
      the tier and sharding settings come through unchanged. */
  lemma ValidatedKeepsModes(c: ConfigValue)
    ensures SameModes(Validated(c).0, c)
  {
    var (c1, o) := CommonChecks(c);
    assert SameModes(c1, c) by {
      if c.backend in ValidBackends {
        var d1 := if c.serializer == "" then c.(serializer := "json") else c;
        assert SameModes(d1, c);
        var d2 := if d1.compression && d1.compressionAlgorithm == "" then d1.(compressionAlgorithm := "gzip") else d1;
        assert SameModes(d2, c);
        var d3 := if d2.distributed && d2.grpc.port == 0 then d2.(grpc := d2.grpc.(port := 50051)) else d2;
        assert SameModes(d3, c);
      }
    }
    if o.Pass? {
      assert SameModes(BackendChecks(c1).0, c1);
    }
  }

  /** Defaults only fill empty fields, so validating a validated configuration
      accepts it and changes nothing. */
  lemma ValidateIdempotent(c: ConfigValue)
    requires Accepted(c)
    ensures Accepted(Validated(c).0)
    ensures Validated(Validated(c).0) == Validated(c)
  {
    var c1 := CommonChecks(c).0;
    CommonChecksIdempotent(c);
    var c2 := BackendChecks(c1).0;
    assert c2 == c1.(redis := c2.redis, memcached := c2.memcached, memory := c2.memory);
    CommonChecksIgnoreBackendRecords(c1, c2.redis, c2.memcached, c2.memory);
    BackendChecksIdempotent(c1);
  }

  /** The configuration record. `Validate` writes defaults into it in place. */
  class Config {
    var backend: string
    var compression: bool
    var compressionAlgorithm: string
    var serializer: string
    var distributed: bool
    var hierarchical: bool
    var memory: MemoryConfig
    var redis: RedisConfig
    var memcached: MemcachedConfig
    var grpc: GrpcConfig
    var l1: TierConfig
    var l2: TierConfig
    var sharding: ShardingConfig

    function Value(): ConfigValue
      reads this
    {
      ConfigValue(backend, compression, compressionAlgorithm, serializer, distributed,
                  hierarchical, memory, redis, memcached, grpc, l1, l2, sharding)
    }

    constructor (v: ConfigValue)
      ensures Value() == v
    {
      backend, compression, compressionAlgorithm := v.backend, v.compression, v.compressionAlgorithm;
      serializer, distributed, hierarchical := v.serializer, v.distributed, v.hierarchical;
      memory, redis, memcached, grpc := v.memory, v.redis, v.memcached, v.grpc;
      l1, l2, sharding := v.l1, v.l2, v.sharding;
    }

    method ValidateRedisConfig()
      modifies this
      ensures Value() == old(Value()).(redis := RedisDefaults(old(redis)))
    {
      if |redis.addresses| == 0 {
        redis := redis.(addresses := ["localhost:6379"]);
      }
      if redis.poolSize == 0 {
        redis := redis.(poolSize := 10);
      }
      if redis.dialTimeout == 0 {
        redis := redis.(dialTimeout := 5 * Second);
      }
      if redis.readTimeout == 0 {
        redis := redis.(readTimeout := 3 * Second);
      }
      if redis.writeTimeout == 0 {
        redis := redis.(writeTimeout := 3 * Second);
      }
    }

    method ValidateMemcachedConfig()
      modifies this
      ensures Value() == old(Value()).(memcached := MemcachedDefaults(old(memcached)))
    {
      if |memcached.servers| == 0 {
        memcached := memcached.(servers := ["localhost:11211"]);
      }
      if memcached.timeout == 0 {
        memcached := memcached.(timeout := 100 * Millisecond);
      }
      if memcached.maxIdleConns == 0 {
        memcached := memcached.(maxIdleConns := 2);
      }
    }

    method ValidateMemoryConfig() returns (result: Outcome)
      modifies this
      ensures Value() == old(Value()).(memory := MemoryDefaults(old(memory)))
      ensures result == if memory.evictionPolicy in ValidPolicies then Pass
                        else Fail(InvalidConfig("eviction_policy"))
    {
      if memory.maxSize == "" {
        memory := memory.(maxSize := "100MB");
      }
      if memory.evictionPolicy == "" {
        memory := memory.(evictionPolicy := "lru");
      }
      if memory.cleanupInterval == 0 {
        memory := memory.(cleanupInterval := 10 * Minute);
      }
      var ok := Contains(ValidPolicies, memory.evictionPolicy);
      if !ok {
        return Fail(InvalidConfig("eviction_policy"));
      }
      return Pass;
    }

    /** The checks of `Validate` that precede the backend-specific step. */
    method ValidateCommon() returns (result: Outcome)
      modifies this
      ensures (Value(), result) == CommonChecks(old(Value()))
    {
      ghost var c := Value();
      var ok := Contains(ValidBackends, backend);
      if !ok {
        return Fail(InvalidConfig("backend"));
      }
      if serializer == "" {
        serializer := "json";
      }
      ghost var c1 := Value();
      assert c1 == if c.serializer == "" then c.(serializer := "json") else c;
      ok := Contains(ValidSerializers, serializer);
      if !ok {
        return Fail(InvalidConfig("serializer"));
      }
      if compression && compressionAlgorithm == "" {
        compressionAlgorithm := "gzip";
      }
      ghost var c2 := Value();
      assert c2 == if c1.compression && c1.compressionAlgorithm == "" then c1.(compressionAlgorithm := "gzip") else c1;
      if compression {
        ok := Contains(ValidAlgorithms, compressionAlgorithm);
        if !ok {
          return Fail(InvalidConfig("compression_algorithm"));
        }
      }
      if hierarchical {
        if l1.backend == "" || l2.backend == "" {
          return Fail(InvalidConfig("hierarchical"));
        }
      }
      if distributed {
        if grpc.port == 0 {
          grpc := grpc.(port := 50051);
        }
        if |grpc.peers| == 0 {
          return Fail(InvalidConfig("peers"));
        }
      }
      return Pass;
    }

    /** `Validate`: fills defaults in place and reports the first rejected field. */
    method Validate() returns (result: Outcome)
      modifies this
      ensures (Value(), result) == Validated(old(Value()))
    {
      result := ValidateCommon();
      if result.Fail? {
        return result;
      }
      if backend == "redis" {
        ValidateRedisConfig();
      } else if backend == "memcached" {
        ValidateMemcachedConfig();
      } else if backend == "memory" {
        result := ValidateMemoryConfig();
      }
    }
  }

  // ---------------------------------------------------------------------------
  // parseInt (config.go): all characters must be digits, otherwise the result is 0.

  predicate AllDigitChars(s: string) {
    forall i :: 0 <= i < |s| ==> IsDigitChar(s[i])
  }

  /** The number an all-digit string denotes. */
  function DecimalValue(s: string): int
    requires AllDigitChars(s)
  {
    if s == [] then 0 else DecimalValue(s[..|s| - 1]) * 10 + CharDigit(s[|s| - 1])
  }

  /** The value Go's `result = result*10 + digit` loop computes in a 64-bit
      `int`: every step wraps around. */
  function Accumulated(s: string): (r: int)
    requires AllDigitChars(s)
    ensures IsInt64(r)
  {
    if s == [] then 0 else Wrap64(Accumulated(s[..|s| - 1]) * 10 + CharDigit(s[|s| - 1]))
  }

  lemma {:induction false} DecimalValueNonNegative(s: string)
    requires AllDigitChars(s)
    ensures s != [] ==> 0 <= DecimalValue(s[..|s| - 1]) <= DecimalValue(s)
    ensures DecimalValue(s) >= 0
  {
    if s != [] {
      DecimalValueNonNegative(s[..|s| - 1]);
    }
  }

  /** While the decimal value fits in 64 bits, nothing wraps and the loop
      computes exactly that value. */
  lemma {:induction false} AccumulatedExact(s: string)
    requires AllDigitChars(s) && DecimalValue(s) <= MaxInt64
    ensures Accumulated(s) == DecimalValue(s)
  {
    if s != [] {
      DecimalValueNonNegative(s);
      AccumulatedExact(s[..|s| - 1]);
    }
  }

  method ParseInt(s: string) returns (result: int)
    ensures AllDigitChars(s) ==> result == Accumulated(s)
    ensures AllDigitChars(s) && DecimalValue(s) <= MaxInt64 ==> result == DecimalValue(s)
    ensures !AllDigitChars(s) ==> result == 0
  {
    result := 0;
    var i := 0;
    while i < |s|
      invariant 0 <= i <= |s|
      invariant AllDigitChars(s[..i])
      invariant result == Accumulated(s[..i])
    {
      if IsDigitChar(s[i]) {
        assert s[..i + 1][..i] == s[..i];
        result := Wrap64(result * 10 + CharDigit(s[i]));
        i := i + 1;
      } else {
        return 0;
      }
    }
    assert s[..i] == s;
    if AllDigitChars(s) && DecimalValue(s) <= MaxInt64 {
      AccumulatedExact(s);
    }
  }

  /** `parseInt` reads back what `%d` prints for a non-negative number. */
  lemma {:induction false} DecimalValueOfDigits(ds: seq<int>)
    requires AllDigits(ds)
    ensures AllDigitChars(seq(|ds|, i requires 0 <= i < |ds| => DigitChar(ds[i])))
    ensures DecimalValue(seq(|ds|, i requires 0 <= i < |ds| => DigitChar(ds[i]))) == DigitsValue(ds)
  {
    var s := seq(|ds|, i requires 0 <= i < |ds| => DigitChar(ds[i]));
    if ds != [] {
      var ds' := ds[..|ds| - 1];
      DecimalValueOfDigits(ds');
      assert s[..|s| - 1] == seq(|ds'|, i requires 0 <= i < |ds'| => DigitChar(ds'[i]));
    }
  }

  lemma DecimalStringRoundTrip(n: nat)
    ensures AllDigitChars(DecimalString(n))
    ensures DecimalValue(DecimalString(n)) == n
    ensures n <= MaxInt64 ==> Accumulated(DecimalString(n)) == n
  {
    DecimalValueOfDigits(Digits(n));
    DigitsRoundTrip(n);
    if n <= MaxInt64 {
      AccumulatedExact(DecimalString(n));
    }
  }
}
