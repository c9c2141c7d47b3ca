/** pkg/backends/backend.go and pkg/backends/compressor.go: the statistics record,
    the factories that turn a configured name into a serializer, compressor or
    backend kind, the compression heuristic, and the codec pair that every façade
    call wraps around a backend call. */
module Backends {
  import opened Wrappers
  import opened Text
  import Config

  /** `Stats`: counters and gauges a backend reports. */
  datatype Stats = Stats(
    hits: int,
    misses: int,
    sets: int,
    deletes: int,
    evictions: int,
    keyCount: int,
    memoryUsage: int,
    uptime: int)

  const ZeroStats := Stats(0, 0, 0, 0, 0, 0, 0, 0)

  datatype BackendKind = MemoryBackendKind | RedisBackendKind | MemcachedBackendKind
  datatype SerializerKind = JsonSerializer | GobSerializer | MsgPackSerializer
  datatype CompressorKind = GzipCompressor | Lz4Compressor | SnappyCompressor

  /** `New`: the backend kind a type name selects. */
  function NewBackend(backendType: string): (r: Result<BackendKind>)
    ensures r.Ok? <==> backendType in {"memory", "redis", "memcached"}
    ensures r.Err? ==> r.error == Unsupported(backendType)
    ensures r == Ok(MemoryBackendKind) <==> backendType == "memory"
  {
    match backendType
    case "memory" => Ok(MemoryBackendKind)
    case "redis" => Ok(RedisBackendKind)
    case "memcached" => Ok(MemcachedBackendKind)
    case _ => Err(Unsupported(backendType))
  }

  function SerializerName(k: SerializerKind): string {
    match k
    case JsonSerializer => "json"
    case GobSerializer => "gob"
    case MsgPackSerializer => "msgpack"
  }

  function CompressorName(k: CompressorKind): string {
    match k
    case GzipCompressor => "gzip"
    case Lz4Compressor => "lz4"
    case SnappyCompressor => "snappy"
  }

  /** `NewSerializer`: succeeds exactly on the three known names, and the kind it
      returns carries the name it was asked for. */
  function NewSerializer(name: string): (r: Result<SerializerKind>)
    ensures r.Ok? <==> name in {"json", "gob", "msgpack"}
    ensures r.Ok? ==> SerializerName(r.value) == name
    ensures r.Err? ==> r.error == Unsupported(name)
  {
    match name
    case "json" => Ok(JsonSerializer)
    case "gob" => Ok(GobSerializer)
    case "msgpack" => Ok(MsgPackSerializer)
    case _ => Err(Unsupported(name))
  }

  /** `NewCompressor`: succeeds exactly on the three known algorithm names. */
  function NewCompressor(algorithm: string): (r: Result<CompressorKind>)
    ensures r.Ok? <==> algorithm in {"gzip", "lz4", "snappy"}
    ensures r.Ok? ==> CompressorName(r.value) == algorithm
    ensures r.Err? ==> r.error == Unsupported(algorithm)
  {
    match algorithm
    case "gzip" => Ok(GzipCompressor)
    case "lz4" => Ok(Lz4Compressor)
    case "snappy" => Ok(SnappyCompressor)
    case _ => Err(Unsupported(algorithm))
  }

  /** The factories accept the names `Validate` admits, so a validated
      configuration never meets an "unsupported" error in them. */
  lemma ValidatedConfigBuilds(c: Config.ConfigValue)
    requires Config.Accepted(c)
    ensures NewBackend(Config.Validated(c).0.backend).Ok?
    ensures NewSerializer(Config.Validated(c).0.serializer).Ok?
    ensures c.compression ==> NewCompressor(Config.Validated(c).0.compressionAlgorithm).Ok?
  {
    Config.SerializerRule(c);
    Config.CompressionRule(c);
  }

  // ---------------------------------------------------------------------------
  // Compression helpers (compressor.go:97-138).

  /** `ShouldCompress`: skip data below the minimum size and data that already
      starts with a gzip, zip, PNG or JPEG signature. */
  function ShouldCompress(data: Bytes, minSize: int): (r: bool)
    ensures minSize > 0 && |data| < minSize ==> !r
    ensures |data| > 10 && data[0] == 0x1f && data[1] == 0x8b ==> !r
    ensures |data| > 10 && data[0] == 0x50 && data[1] == 0x4b ==> !r
    ensures |data| > 10 && data[0] == 0x89 && data[1] == 0x50 && data[2] == 0x4e && data[3] == 0x47 ==> !r
    ensures |data| > 10 && data[0] == 0xff && data[1] == 0xd8 ==> !r
    ensures (minSize <= 0 || |data| >= minSize) && |data| <= 10 ==> r
  {
    if minSize > 0 && |data| < minSize then false
    else if |data| > 10 then
      if data[0] == 0x1f && data[1] == 0x8b then false
      else if data[0] == 0x50 && data[1] == 0x4b then false
      else if |data| > 3 && data[0] == 0x89 && data[1] == 0x50 && data[2] == 0x4e && data[3] == 0x47 then false
      else if |data| > 1 && data[0] == 0xff && data[1] == 0xd8 then false
      else true
    else true
  }

  /** Long data without any of the four signatures, and past the size check, is compressed. */
  lemma ShouldCompressOtherwise(data: Bytes, minSize: int)
    requires minSize <= 0 || |data| >= minSize
    requires |data| > 10
    requires !(data[0] == 0x1f && data[1] == 0x8b) && !(data[0] == 0x50 && data[1] == 0x4b)
    requires !(data[0] == 0x89 && data[1] == 0x50 && data[2] == 0x4e && data[3] == 0x47)
    requires !(data[0] == 0xff && data[1] == 0xd8)
    ensures ShouldCompress(data, minSize)
  {
  }

  // ---------------------------------------------------------------------------
  // The codecs. Their algorithms are not modelled: serialization is a format tag
  // byte in front of the value's payload, and compression a gzip header in front
  // of the data. All the engine relies on is that each decoder inverts its
  // encoder and rejects what its encoder cannot produce.

  /** An application value as the caller hands it to the façade. */
  datatype Value = Value(payload: Bytes)

  const GzipMagic: Bytes := [0x1f, 0x8b]

  /** msgpack is JSON underneath (serializer.go:58-68), so it shares JSON's tag. */
  function FormatTag(k: SerializerKind): byte {
    match k
    case JsonSerializer => 0x7b
    case GobSerializer => 0x0e
    case MsgPackSerializer => 0x7b
  }

  function Deserialize(k: SerializerKind, data: Bytes): (r: Result<Value>)
    ensures r.Ok? ==> |data| >= 1 && data[0] == FormatTag(k)
    ensures r.Ok? ==> data == [FormatTag(k)] + r.value.payload
  {
    if |data| >= 1 && data[0] == FormatTag(k) then Ok(Value(data[1..])) else Err(CodecFailure)
  }

  function Serialize(k: SerializerKind, v: Value): (data: Bytes)
    ensures Deserialize(k, data) == Ok(v)
  {
    assert ([FormatTag(k)] + v.payload)[1..] == v.payload;
    [FormatTag(k)] + v.payload
  }

  /** lz4 and snappy fall back to gzip (compressor.go:50-95), so all three kinds
      produce and accept the same bytes. */
  function Decompress(k: CompressorKind, data: Bytes): (r: Result<Bytes>)
    ensures r.Ok? ==> data == GzipMagic + r.value
  {
    if |data| >= 2 && data[..2] == GzipMagic then Ok(data[2..]) else Err(CodecFailure)
  }

  function Compress(k: CompressorKind, data: Bytes): (r: Bytes)
    ensures Decompress(k, r) == Ok(data)
  {
    assert (GzipMagic + data)[..2] == GzipMagic;
    GzipMagic + data
  }

  /** `CompressData`: no compressor means the data passes through unchanged. */
  function CompressData(c: Option<CompressorKind>, data: Bytes): (r: Bytes)
    ensures c.None? ==> r == data
    ensures DecompressData(c, r) == Ok(data)
  {
    if c.None? then data else Compress(c.value, data)
  }

  /** `DecompressData`: no compressor means the data passes through unchanged. */
  function DecompressData(c: Option<CompressorKind>, data: Bytes): (r: Result<Bytes>)
    ensures c.None? ==> r == Ok(data)
  {
    if c.None? then Ok(data) else Decompress(c.value, data)
  }

  /** Compressed bytes never deserialize: the gzip header is not a format tag. */
  lemma CompressedIsNotSerialized(s: SerializerKind, c: CompressorKind, data: Bytes)
    ensures Deserialize(s, Compress(c, data)).Err?
  {
  }

  /** Serialized bytes never decompress: a format tag is not the gzip header. */
  lemma SerializedIsNotCompressed(s: SerializerKind, c: CompressorKind, v: Value)
    ensures Decompress(c, Serialize(s, v)).Err?
  {
  }
}
