/** pkg/backends/memory.go: the in-process store. A map from key to entry with a
    running byte counter, hit/miss/set/delete/eviction counters, lazy expiry,
    an expiry sweep, and LRU/LFU/random eviction. The wall clock is the explicit
    parameter `now` (nanoseconds); the lock, the atomics and the sweep goroutine
    are not modelled. */
module Memory {
  import opened Wrappers
  import opened Text
  import Config
  import Backends

  // ---------------------------------------------------------------------------
  // The decimal counter format of Increment.

  predicate IsJsonSpace(b: byte) {
    b == 0x20 || b == 0x09 || b == 0x0a || b == 0x0d
  }

  function TrimLeft(b: Bytes): Bytes {
    if b != [] && IsJsonSpace(b[0]) then TrimLeft(b[1..]) else b
  }

  function TrimRight(b: Bytes): Bytes {
    if b != [] && IsJsonSpace(b[|b| - 1]) then TrimRight(b[..|b| - 1]) else b
  }

  predicate IsDigitByte(b: byte) {
    48 <= b <= 57
  }

  predicate AllDigitBytes(b: Bytes) {
    forall i :: 0 <= i < |b| ==> IsDigitByte(b[i])
  }

  function ByteDigits(b: Bytes): (ds: seq<int>)
    requires AllDigitBytes(b)
  {
    seq(|b|, i requires 0 <= i < |b| => b[i] as int - 48)
  }

  /** A JSON integer literal without fraction or exponent: an optional minus and
      digits with no superfluous leading zero. */
  predicate IsJsonInteger(t: Bytes) {
    var digits := if t != [] && t[0] == 45 then t[1..] else t;
    && digits != []
    && AllDigitBytes(digits)
    && (|digits| == 1 || digits[0] != 48)
  }

  function JsonIntegerValue(t: Bytes): int
    requires IsJsonInteger(t)
  {
    if t[0] == 45 then -DigitsValue(ByteDigits(t[1..])) else DigitsValue(ByteDigits(t))
  }

  const Null: Bytes := [0x6e, 0x75, 0x6c, 0x6c]

  /** `json.Unmarshal` into an `int64`: surrounding white space is allowed,
      `null` leaves the target at zero, an integer must fit in 64 bits, and
      every other document is an error. */
  function ParseJsonInt64(b: Bytes): (r: Option<int>)
    ensures r.Some? ==> IsInt64(r.value)
  {
    var t := TrimRight(TrimLeft(b));
    if t == Null then Some(0)
    else if IsJsonInteger(t) && IsInt64(JsonIntegerValue(t)) then Some(JsonIntegerValue(t))
    else None
  }

  lemma {:induction false} DigitBytesRoundTrip(ds: seq<int>)
    requires AllDigits(ds)
    ensures AllDigitBytes(seq(|ds|, i requires 0 <= i < |ds| => DigitByte(ds[i])))
    ensures ByteDigits(seq(|ds|, i requires 0 <= i < |ds| => DigitByte(ds[i]))) == ds
  {
  }

  /** What Increment writes (`%d`) reads back as the same number. */
  lemma DecimalBytesRoundTrip(n: int)
    requires IsInt64(n)
    ensures ParseJsonInt64(DecimalBytes(n)) == Some(n)
  {
    var m := if n < 0 then -n else n;
    var ds := Digits(m);
    var body := seq(|ds|, i requires 0 <= i < |ds| => DigitByte(ds[i]));
    DigitBytesRoundTrip(ds);
    DigitsRoundTrip(m);
    var b := DecimalBytes(n);
    assert b == if n < 0 then [45 as byte] + body else body;
    assert TrimLeft(b) == b;
    assert TrimRight(b) == b;
    assert b != Null;
    if n < 0 {
      assert b[1..] == body;
    }
    assert IsJsonInteger(b);
    assert JsonIntegerValue(b) == n;
  }

  // ---------------------------------------------------------------------------
  // parseInt and parseSize (memory.go:413-445).

  /** The longest prefix of `s` made of digits. */
  function LeadingDigits(s: string): (p: string)
    ensures Config.AllDigitChars(p)
    ensures |p| <= |s| && p == s[..|p|]
  {
    if s == [] || !IsDigitChar(s[0]) then [] else [s[0]] + LeadingDigits(s[1..])
  }

  lemma {:induction false} LeadingDigitsAt(s: string, i: nat)
    requires i <= |s| && Config.AllDigitChars(s[..i])
    requires i == |s| || !IsDigitChar(s[i])
    ensures LeadingDigits(s) == s[..i]
  {
    if i > 0 {
      assert s[1..][..i - 1] == s[1..i];
      LeadingDigitsAt(s[1..], i - 1);
    }
  }

  /** The leading number as `parseInt` accumulates it, wrapping to 64 bits. */
  function LeadingValue(s: string): int {
    Config.Accumulated(LeadingDigits(s))
  }

  /** `parseInt` of memory.go: the value of the leading digits, accumulated in
      a 64-bit `int`; it stops at the first non-digit instead of failing. */
  method ParseLeadingInt(s: string) returns (result: int)
    ensures result == LeadingValue(s)
    ensures Config.DecimalValue(LeadingDigits(s)) <= MaxInt64 ==> result == Config.DecimalValue(LeadingDigits(s))
  {
    result := 0;
    var i := 0;
    while i < |s|
      invariant 0 <= i <= |s|
      invariant Config.AllDigitChars(s[..i])
      invariant result == Config.Accumulated(s[..i])
    {
      if !IsDigitChar(s[i]) {
        break;
      }
      assert s[..i + 1][..i] == s[..i];
      result := Wrap64(result * 10 + CharDigit(s[i]));
      i := i + 1;
    }
    LeadingDigitsAt(s, i);
    if Config.DecimalValue(LeadingDigits(s)) <= MaxInt64 {
      Config.AccumulatedExact(LeadingDigits(s));
    }
  }

  predicate HasSuffix(s: string, suffix: string) {
    |s| > 2 && s[|s| - 2..] == suffix
  }

  /** The byte count a size string denotes, each `int64` product wrapping to
      64 bits as Go's left-to-right `* 1024 * 1024` does. */
  function SizeOf(s: string): int {
    if s == "" then 0
    else if HasSuffix(s, "KB") then Wrap64(LeadingValue(s[..|s| - 2]) * 1024)
    else if HasSuffix(s, "MB") then Wrap64(Wrap64(LeadingValue(s[..|s| - 2]) * 1024) * 1024)
    else if HasSuffix(s, "GB") then Wrap64(Wrap64(Wrap64(LeadingValue(s[..|s| - 2]) * 1024) * 1024) * 1024)
    else LeadingValue(s)
  }

  /** A product that fits in 64 bits has a factor that fits too. */
  lemma FactorIn64(x: int, k: int)
    requires k >= 1 && IsInt64(x * k)
    ensures IsInt64(x)
  {
    if x >= 0 {
      assert x * k == x + x * (k - 1);
    } else {
      assert x * k == x + x * (k - 1);
    }
  }

  /** `parseSize`: the leading number, times 1024, 1024² or 1024³ for a KB, MB or
      GB suffix, with 64-bit wrap-around. It never fails. */
  method ParseSize(sizeStr: string) returns (size: int)
    ensures size == SizeOf(sizeStr)
    ensures IsInt64(size)
    ensures sizeStr == "" ==> size == 0
    ensures HasSuffix(sizeStr, "KB") && IsInt64(LeadingValue(sizeStr[..|sizeStr| - 2]) * 1024) ==>
              size == LeadingValue(sizeStr[..|sizeStr| - 2]) * 1024
    ensures HasSuffix(sizeStr, "MB") && IsInt64(LeadingValue(sizeStr[..|sizeStr| - 2]) * 1048576) ==>
              size == LeadingValue(sizeStr[..|sizeStr| - 2]) * 1048576
    ensures HasSuffix(sizeStr, "GB") && IsInt64(LeadingValue(sizeStr[..|sizeStr| - 2]) * 1073741824) ==>
              size == LeadingValue(sizeStr[..|sizeStr| - 2]) * 1073741824
    ensures (sizeStr != "" && !HasSuffix(sizeStr, "KB") && !HasSuffix(sizeStr, "MB")
             && !HasSuffix(sizeStr, "GB")) ==> size == LeadingValue(sizeStr)
  {
    if sizeStr == "" {
      return 0;
    }
    if HasSuffix(sizeStr, "KB") {
      size := ParseLeadingInt(sizeStr[..|sizeStr| - 2]);
      return Wrap64(size * 1024);
    } else if HasSuffix(sizeStr, "MB") {
      size := ParseLeadingInt(sizeStr[..|sizeStr| - 2]);
      if IsInt64(size * 1048576) {
        FactorIn64(size * 1024, 1024);
      }
      return Wrap64(Wrap64(size * 1024) * 1024);
    } else if HasSuffix(sizeStr, "GB") {
      size := ParseLeadingInt(sizeStr[..|sizeStr| - 2]);
      if IsInt64(size * 1073741824) {
        FactorIn64(size * 1048576, 1024);
        FactorIn64(size * 1024, 1024);
      }
      return Wrap64(Wrap64(Wrap64(size * 1024) * 1024) * 1024);
    }
    size := ParseLeadingInt(sizeStr);
  }

  /** The configured default "100MB" is 100 MiB. */
  method DefaultMaxSize() returns (size: int)
    ensures size == 104857600
  {
    size := ParseSize("100MB");
    assert "100MB"[..3] == "100";
    assert LeadingDigits("100") == "100" by {
      assert LeadingDigits("") == "";
      assert "100"[1..] == "00" && "00"[1..] == "0" && "0"[1..] == "";
    }
    assert Config.Accumulated("100") == 100 by {
      assert "100"[..2] == "10" && "10"[..1] == "1" && "1"[..0] == "";
    }
  }

  // ---------------------------------------------------------------------------
  // Entries and byte accounting.

  /** `memoryItem`. `expireTime == None` is Go's zero time: no expiry. */
  datatype Item = Item(value: Bytes, expireTime: Option<int>, accessTime: int, accessCount: int)

  /** `!expireTime.IsZero() && now.After(expireTime)`. */
  predicate Expired(item: Item, now: int) {
    item.expireTime.Some? && now > item.expireTime.value
  }

  /** The expiry `Set` computes: the call's ttl, else the default ttl, else none. */
  function ExpiryFor(ttl: int, defaultTTL: int, now: int): Option<int> {
    if ttl > 0 then Some(now + ttl)
    else if defaultTTL > 0 then Some(now + defaultTTL)
    else None
  }

  /** The remaining lifetime `TTL` reports for an entry: -1 without expiry, 0 once
      past it. */
  function Remaining(expireTime: Option<int>, now: int): int {
    if expireTime.None? then -1
    else if expireTime.value - now < 0 then 0
    else expireTime.value - now
  }

  /** Right after `Set`, `TTL` reports the call's ttl, else the default ttl, else -1. */
  lemma RemainingAfterSet(ttl: int, defaultTTL: int, now: int)
    ensures Remaining(ExpiryFor(ttl, defaultTTL, now), now) ==
              if ttl > 0 then ttl else if defaultTTL > 0 then defaultTTL else -1
  {
  }

  ghost function Pick(m: map<string, Item>): (k: string)
    requires m != map[]
    ensures k in m
  {
    assert m.Keys != {};
    var k :| k in m.Keys; k
  }

  /** The sum of the lengths of the stored values. */
  ghost function TotalSize(m: map<string, Item>): int
    decreases |m|
  {
    if m == map[] then 0
    else
      var k := Pick(m);
      |m[k].value| + TotalSize(m - {k})
  }

  lemma {:induction false} TotalSizeRemove(m: map<string, Item>, k: string)
    requires k in m
    ensures TotalSize(m) == |m[k].value| + TotalSize(m - {k})
    decreases |m|
  {
    var j := Pick(m);
    if j != k {
      TotalSizeRemove(m - {j}, k);
      TotalSizeRemove(m - {k}, j);
      assert m - {j} - {k} == m - {k} - {j};
    }
  }

  lemma TotalSizeUpdate(m: map<string, Item>, k: string, it: Item)
    ensures TotalSize(m[k := it]) ==
              TotalSize(m) - (if k in m then |m[k].value| else 0) + |it.value|
  {
    TotalSizeRemove(m[k := it], k);
    assert m[k := it] - {k} == m - {k};
    if k in m {
      TotalSizeRemove(m, k);
    } else {
      assert m - {k} == m;
    }
  }

  /** An entry the eviction policy `policy` may choose from `m`: one with the
      least access count under "lfu", any entry under "random", and otherwise
      ("lru" or an unknown policy) one with the least access time. The "" key
      doubles as "nothing chosen yet" in the LRU scan, so with a "" key present
      the LRU choice is not pinned down. */
  ghost predicate PolicyVictim(policy: string, m: map<string, Item>, k: string) {
    && k in m
    && (policy == "lfu" ==> forall j :: j in m ==> m[k].accessCount <= m[j].accessCount)
    && (policy != "lfu" && policy != "random" && "" !in m ==>
          forall j :: j in m ==> m[k].accessTime <= m[j].accessTime)
  }

  /** What the byte-limit check of `Set` removed from `m`: nothing unless the
      limit was exceeded (`over`), then the policy's choice; it removes nothing
      only from an empty map or, outside "random", from one with a "" key. */
  ghost predicate SizeCheck(policy: string, m: map<string, Item>, over: bool, bySize: Option<string>) {
    && (bySize.Some? ==> over && PolicyVictim(policy, m, bySize.value))
    && (over && bySize.None? ==> m == map[] || (policy != "random" && "" in m))
  }

  /** What the key-limit check of `Set` removed from `m` after the byte-limit
      check removed `bySize`: nothing unless a positive key limit `maxKeys` is
      set, then a least recently used entry among the rest, never the "" key;
      without a "" key it removes one whenever the rest fill the limit. */
  ghost predicate CountCheck(m: map<string, Item>, maxKeys: int, bySize: Option<string>, byCount: Option<string>) {
    && (byCount.Some? ==>
          && maxKeys > 0 && byCount.value in m && byCount.value != "" && bySize != byCount
          && ("" !in m ==>
                forall j :: j in m && Some(j) != bySize ==> m[byCount.value].accessTime <= m[j].accessTime))
    && (maxKeys > 0 && |m - Victims(bySize, None)| >= maxKeys && "" !in m ==> byCount.Some?)
  }

  /** The keys named by the two evictions at the head of `Set`. */
  ghost function Victims(bySize: Option<string>, byCount: Option<string>): set<string> {
    (if bySize.Some? then {bySize.value} else {}) + (if byCount.Some? then {byCount.value} else {})
  }

  /** Removing the two victims one after the other removes both, and they are
      two different keys. */
  lemma RemoveVictims(m: map<string, Item>, a: Option<string>, b: Option<string>)
    requires a.Some? ==> a.value in m
    requires b.Some? ==> b.value in m - Victims(a, None)
    ensures b.Some? ==> a != b
    ensures (m - Victims(a, None)) - Victims(None, b) == m - Victims(a, b)
    ensures |Victims(a, b)| == |Victims(a, None)| + |Victims(None, b)|
    ensures m.Keys - (m - Victims(a, b)).Keys == Victims(a, b)
  {
  }

  /** The two checks of `Set` in sequence: `mid` is `m` after the byte-limit
      check removed `bySize`, and `last` is `mid` after the key-limit check
      removed `byCount`. */
  lemma CombineChecks(m: map<string, Item>, mid: map<string, Item>, last: map<string, Item>,
                      bySize: Option<string>, byCount: Option<string>, maxKeys: int)
    requires bySize.Some? ==> bySize.value in m
    requires mid == m - Victims(bySize, None)
    requires byCount.None? ==> last == mid
    requires byCount.Some? ==> byCount.value in mid && last == mid - {byCount.value}
    requires byCount.Some? ==> maxKeys > 0 && byCount.value != ""
    requires byCount.Some? && "" !in mid ==>
               forall j :: j in mid ==> mid[byCount.value].accessTime <= mid[j].accessTime
    requires maxKeys > 0 && |mid| >= maxKeys && "" !in mid ==> byCount.Some?
    ensures last == m - Victims(bySize, byCount)
    ensures |Victims(bySize, byCount)| == |m| - |last|
    ensures m.Keys - last.Keys == Victims(bySize, byCount)
    ensures CountCheck(m, maxKeys, bySize, byCount)
    ensures maxKeys > 0 && |m| <= maxKeys && "" !in m ==> |last| < maxKeys
  {
    RemoveVictims(m, bySize, byCount);
    if byCount.Some? {
      assert Victims(None, byCount) == {byCount.value};
      forall j | "" !in m && j in m && Some(j) != bySize
        ensures m[byCount.value].accessTime <= m[j].accessTime
      {
        assert j in mid;
      }
    }
  }

  /** What one `Get` of `k` at `now` leaves of the map `m`: an absent key
      changes nothing, an expired one is dropped, and a live one gets the
      access time `now` and one more access. */
  ghost function GetEffect(m: map<string, Item>, k: string, now: int): map<string, Item> {
    if k !in m then m
    else if Expired(m[k], now) then m - {k}
    else m[k := m[k].(accessTime := now, accessCount := m[k].accessCount + 1)]
  }

  /** The map after a `Get` of each of `keys` in turn, stated in one step: the
      listed keys that had expired are gone, every other listed key was
      accessed at `now` once per time it is listed, and unlisted keys are as
      they were. */
  ghost function AfterGets(m: map<string, Item>, keys: seq<string>, now: int): map<string, Item> {
    map k | k in m && !(k in keys && Expired(m[k], now)) ::
      if k in keys then m[k].(accessTime := now, accessCount := m[k].accessCount + multiset(keys)[k]) else m[k]
  }

  /** The values a `Get` per key collects from `m`: those of the listed keys
      that are present and unexpired. */
  ghost function LiveValues(m: map<string, Item>, keys: seq<string>, now: int): map<string, Bytes> {
    map k | k in keys && k in m && !Expired(m[k], now) :: m[k].value
  }

  /** The number of positions of `keys` whose key is present and unexpired in
      `m`: the hits a `Get` per key scores, since a hit leaves its key live and
      a miss never brings one back. */
  function LiveCount(m: map<string, Item>, keys: seq<string>, now: int): (n: nat)
    ensures n <= |keys|
    ensures n == |keys| <==> forall j :: 0 <= j < |keys| ==> keys[j] in m && !Expired(m[keys[j]], now)
  {
    if keys == [] then 0
    else LiveCount(m, keys[..|keys| - 1], now)
         + (if keys[|keys| - 1] in m && !Expired(m[keys[|keys| - 1]], now) then 1 else 0)
  }

  /** One more `Get` after those of `keys` takes `AfterGets` one key further,
      and it hits exactly when the key was live in the original map. */
  lemma AfterGetsStep(m: map<string, Item>, keys: seq<string>, k: string, now: int)
    ensures AfterGets(m, keys + [k], now) == GetEffect(AfterGets(m, keys, now), k, now)
    ensures (k in AfterGets(m, keys, now) && !Expired(AfterGets(m, keys, now)[k], now)) <==>
              (k in m && !Expired(m[k], now))
    ensures LiveValues(m, keys + [k], now) ==
              if k in m && !Expired(m[k], now) then LiveValues(m, keys, now)[k := m[k].value]
              else LiveValues(m, keys, now)
  {
    var a := AfterGets(m, keys, now);
    var b := AfterGets(m, keys + [k], now);
    var e := GetEffect(a, k, now);
    assert multiset(keys + [k]) == multiset(keys) + multiset{k};
    forall j
      ensures j in b <==> j in e
      ensures j in b ==> b[j] == e[j]
    {
      assert j in keys + [k] <==> j in keys || j == k;
      if j != k {
        assert multiset(keys + [k])[j] == multiset(keys)[j];
      }
    }
    assert b == e;
  }

  // ---------------------------------------------------------------------------

  /** `MemoryBackend`. `currentSize` is meant to equal the sum of the stored value
      lengths; `Drift()` is how far it is off. Set, Delete, the evictions, the
      sweep and Clear keep the drift; lazy expiry in Get/Exists and Increment do
      not. */
  class MemoryBackend {
    var data: map<string, Item>
    var currentSize: int
    var hits: int
    var misses: int
    var sets: int
    var deletes: int
    var evictions: int
    var cleanupStopped: bool
    const config: Config.MemoryConfig
    const maxSize: int
    const startTime: int

    ghost function Drift(): int
      reads this
    {
      currentSize - TotalSize(data)
    }

    ghost predicate Accounted()
      reads this
    {
      currentSize == TotalSize(data)
    }

    /** The five counters, which only their own operations move. */
    function Counters(): (int, int, int, int, int)
      reads this
    {
      (hits, misses, sets, deletes, evictions)
    }

    /** `NewMemoryBackend`: empty, accounted, counters at zero. */
    constructor (cfg: Config.MemoryConfig, now: int)
      ensures config == cfg && maxSize == SizeOf(cfg.maxSize) && startTime == now
      ensures data == map[] && currentSize == 0 && Counters() == (0, 0, 0, 0, 0)
      ensures !cleanupStopped && Accounted()
    {
      var size := ParseSize(cfg.maxSize);
      config := cfg;
      maxSize := size;
      startTime := now;
      data := map[];
      currentSize := 0;
      hits, misses, sets, deletes, evictions := 0, 0, 0, 0, 0;
      cleanupStopped := false;
    }

    /** One eviction's effect: at most one entry removed, its bytes subtracted,
        `evictions` bumped exactly when something was removed. */
    twostate predicate EvictedAtMostOne(new victim: Option<string>)
      reads this
    {
      && hits == old(hits) && misses == old(misses) && sets == old(sets) && deletes == old(deletes)
      && cleanupStopped == old(cleanupStopped)
      && (victim.None? ==>
            data == old(data) && currentSize == old(currentSize) && evictions == old(evictions))
      && (victim.Some? ==>
            && victim.value in old(data)
            && data == old(data) - {victim.value}
            && currentSize == old(currentSize) - |old(data)[victim.value].value|
            && evictions == old(evictions) + 1)
    }

    method Remove(key: string)
      requires key in data
      modifies this
      ensures data == old(data) - {key}
      ensures currentSize == old(currentSize) - |old(data)[key].value|
      ensures Drift() == old(Drift())
      ensures Counters() == old(Counters()) && cleanupStopped == old(cleanupStopped)
    {
      TotalSizeRemove(data, key);
      currentSize := currentSize - |data[key].value|;
      data := data - {key};
    }

    /** `evictLRU`: scan for the oldest access time, with "" meaning "nothing
        chosen yet". Without a "" key it evicts one least recently used entry
        whenever the store is non-empty; the "" key itself is never evicted. */
    method EvictLRU() returns (ghost victim: Option<string>)
      modifies this
      ensures EvictedAtMostOne(victim)
      ensures Drift() == old(Drift())
      ensures victim.Some? ==> victim.value != ""
      ensures victim.None? ==> old(data) == map[] || "" in old(data)
      ensures victim.Some? && "" !in old(data) ==>
                forall k :: k in old(data) ==> old(data)[victim.value].accessTime <= old(data)[k].accessTime
    {
      var oldestKey := "";
      var oldestTime := 0;
      var todo := data.Keys;
      while todo != {}
        invariant todo <= data.Keys
        invariant oldestKey != "" ==> oldestKey in data && oldestKey !in todo && oldestTime == data[oldestKey].accessTime
        invariant "" !in data ==> (oldestKey == "" <==> todo == data.Keys)
        invariant "" !in data && oldestKey != "" ==>
                    forall k :: k in data && k !in todo ==> oldestTime <= data[k].accessTime
        decreases todo
      {
        var key :| key in todo;
        if oldestKey == "" || data[key].accessTime < oldestTime {
          oldestKey := key;
          oldestTime := data[key].accessTime;
        }
        todo := todo - {key};
      }
      if oldestKey != "" {
        Remove(oldestKey);
        evictions := evictions + 1;
        victim := Some(oldestKey);
      } else {
        victim := None;
      }
    }

    /** `evictLFU`: scan for the smallest access count; when that entry is the
        "" key nothing is evicted. */
    method EvictLFU() returns (ghost victim: Option<string>)
      requires forall k :: k in data ==> data[k].accessCount >= 0
      modifies this
      ensures EvictedAtMostOne(victim)
      ensures Drift() == old(Drift())
      ensures victim.Some? ==> victim.value != ""
      ensures victim.Some? ==>
                forall k :: k in old(data) ==> old(data)[victim.value].accessCount <= old(data)[k].accessCount
      ensures victim.None? ==>
                (old(data) == map[] ||
                 ("" in old(data) && forall k :: k in old(data) ==> old(data)[""].accessCount <= old(data)[k].accessCount))
    {
      var targetKey := "";
      var minAccess := -1;
      var todo := data.Keys;
      while todo != {}
        invariant todo <= data.Keys
        invariant minAccess == -1 <==> todo == data.Keys
        invariant minAccess == -1 ==> targetKey == ""
        invariant minAccess != -1 ==> targetKey in data && targetKey !in todo && minAccess == data[targetKey].accessCount
        invariant minAccess != -1 ==> forall k :: k in data && k !in todo ==> minAccess <= data[k].accessCount
        decreases todo
      {
        var key :| key in todo;
        if minAccess == -1 || data[key].accessCount < minAccess {
          targetKey := key;
          minAccess := data[key].accessCount;
        }
        todo := todo - {key};
      }
      if targetKey != "" {
        Remove(targetKey);
        evictions := evictions + 1;
        victim := Some(targetKey);
      } else {
        victim := None;
      }
    }

    /** `evictRandom`: remove whichever entry the map iteration yields first. */
    method EvictRandom() returns (ghost victim: Option<string>)
      modifies this
      ensures EvictedAtMostOne(victim)
      ensures Drift() == old(Drift())
      ensures victim.None? <==> old(data) == map[]
    {
      if data != map[] {
        var key :| key in data;
        Remove(key);
        evictions := evictions + 1;
        victim := Some(key);
      } else {
        victim := None;
      }
    }

    /** `evictItems`: one eviction by the configured policy (LRU for an unknown
        policy). The amount to free is ignored. */
    method EvictItems(sizeToFree: int) returns (ghost victim: Option<string>)
      requires forall k :: k in data ==> data[k].accessCount >= 0
      modifies this
      ensures EvictedAtMostOne(victim)
      ensures Drift() == old(Drift())
      ensures victim.Some? ==> PolicyVictim(config.evictionPolicy, old(data), victim.value)
      ensures config.evictionPolicy == "random" ==> (victim.None? <==> old(data) == map[])
      ensures "" !in old(data) && old(data) != map[] ==> victim.Some?
    {
      if config.evictionPolicy == "lru" {
        victim := EvictLRU();
      } else if config.evictionPolicy == "lfu" {
        victim := EvictLFU();
      } else if config.evictionPolicy == "random" {
        victim := EvictRandom();
      } else {
        victim := EvictLRU();
      }
    }

    /** Access counts start at zero and only grow. */
    ghost predicate CountsNonNegative()
      reads this
    {
      forall k :: k in data ==> data[k].accessCount >= 0
    }

    /** The byte-limit check at the head of `Set`: one eviction by policy when
        the new byte total would exceed a positive limit. */
    method SizeStep(newSize: int) returns (ghost bySize: Option<string>)
      requires CountsNonNegative()
      modifies this
      ensures CountsNonNegative()
      ensures Drift() == old(Drift())
      ensures hits == old(hits) && misses == old(misses) && sets == old(sets) && deletes == old(deletes)
      ensures data == old(data) - Victims(bySize, None)
      ensures evictions == old(evictions) + |Victims(bySize, None)|
      ensures SizeCheck(config.evictionPolicy, old(data), maxSize > 0 && newSize > maxSize, bySize)
    {
      bySize := None;
      if maxSize > 0 && newSize > maxSize {
        bySize := EvictItems(newSize - maxSize);
      }
      if bySize.Some? {
        assert Victims(bySize, None) == {bySize.value};
      } else {
        assert Victims(bySize, None) == {};
      }
    }

    /** The key-limit check at the head of `Set`: one LRU eviction, whatever the
        policy, once the key count has reached a positive limit. */
    method CountStep() returns (ghost byCount: Option<string>)
      requires CountsNonNegative()
      modifies this
      ensures CountsNonNegative()
      ensures Drift() == old(Drift())
      ensures hits == old(hits) && misses == old(misses) && sets == old(sets) && deletes == old(deletes)
      ensures byCount.None? ==> data == old(data) && evictions == old(evictions)
      ensures byCount.Some? ==>
                byCount.value in old(data) && data == old(data) - {byCount.value} && evictions == old(evictions) + 1
      ensures byCount.Some? ==> config.maxKeys > 0 && byCount.value != ""
      ensures byCount.Some? && "" !in old(data) ==>
                forall j :: j in old(data) ==> old(data)[byCount.value].accessTime <= old(data)[j].accessTime
      ensures config.maxKeys > 0 && |old(data)| >= config.maxKeys && "" !in old(data) ==> byCount.Some?
      ensures (config.maxKeys <= 0 || |old(data)| < config.maxKeys) ==> byCount.None?
    {
      byCount := None;
      if config.maxKeys > 0 && |data| >= config.maxKeys {
        byCount := EvictLRU();
      }
    }

    /** The two eviction checks at the head of `Set`: one eviction by policy when
        the new value would push the byte counter past the limit, then one LRU
        eviction (whatever the policy) when the key limit is reached. `bySize`
        and `byCount` are the entries the two checks removed. */
    method MakeRoom(newSize: int) returns (ghost bySize: Option<string>, ghost byCount: Option<string>)
      requires CountsNonNegative()
      modifies this
      ensures CountsNonNegative()
      ensures Victims(bySize, byCount) <= old(data).Keys
      ensures data == old(data) - Victims(bySize, byCount)
      ensures evictions == old(evictions) + |Victims(bySize, byCount)|
      ensures evictions - old(evictions) == |old(data).Keys - data.Keys|
      ensures SizeCheck(config.evictionPolicy, old(data), maxSize > 0 && newSize > maxSize, bySize)
      ensures CountCheck(old(data), config.maxKeys, bySize, byCount)
      ensures Drift() == old(Drift())
      ensures hits == old(hits) && misses == old(misses) && sets == old(sets) && deletes == old(deletes)
      ensures (config.maxKeys > 0 && |old(data)| <= config.maxKeys && "" !in old(data)) ==>
                |data| < config.maxKeys
      ensures ((maxSize <= 0 || newSize <= maxSize) && (config.maxKeys <= 0 || |old(data)| < config.maxKeys)) ==>
                bySize.None? && byCount.None? && data == old(data) && evictions == old(evictions)
    {
      bySize := SizeStep(newSize);
      ghost var mid := data;
      byCount := CountStep();
      CombineChecks(old(data), mid, data, bySize, byCount, config.maxKeys);
    }

    /** `Set`: make room, then store the entry and account for its bytes. */
    method Set(key: string, value: Bytes, ttl: int, now: int)
      returns (ghost bySize: Option<string>, ghost byCount: Option<string>)
      requires CountsNonNegative()
      modifies this
      ensures CountsNonNegative()
      ensures Victims(bySize, byCount) <= old(data).Keys
      ensures data == (old(data) - Victims(bySize, byCount))[key := Item(value, ExpiryFor(ttl, config.defaultTTL, now), now, 0)]
      ensures evictions == old(evictions) + |Victims(bySize, byCount)|
      ensures SizeCheck(config.evictionPolicy, old(data), maxSize > 0 && old(currentSize) + |value| > maxSize, bySize)
      ensures CountCheck(old(data), config.maxKeys, bySize, byCount)
      ensures Drift() == old(Drift())
      ensures sets == old(sets) + 1
      ensures hits == old(hits) && misses == old(misses) && deletes == old(deletes)
      ensures (config.maxKeys > 0 && |old(data)| <= config.maxKeys && "" !in old(data)) ==>
                |data| <= config.maxKeys
      ensures ((maxSize <= 0 || old(currentSize) + |value| <= maxSize) &&
               (config.maxKeys <= 0 || |old(data)| < config.maxKeys)) ==>
                && bySize.None? && byCount.None? && evictions == old(evictions)
                && data == old(data)[key := Item(value, ExpiryFor(ttl, config.defaultTTL, now), now, 0)]
    {
      var item := Item(value, ExpiryFor(ttl, config.defaultTTL, now), now, 0);
      bySize, byCount := MakeRoom(currentSize + |value|);
      TotalSizeUpdate(data, key, item);
      if key in data {
        currentSize := currentSize - |data[key].value|;
      }
      currentSize := currentSize + |value|;
      data := data[key := item];
      sets := sets + 1;
    }

    /** `Get`: a miss for an absent or expired key (the expired entry is dropped
        without touching `currentSize`); a hit refreshes the access time, bumps
        the access count and returns the value. */
    method Get(key: string, now: int) returns (r: Result<Bytes>)
      modifies this
      ensures key !in old(data) ==>
                r == Err(KeyNotFound) && data == old(data) && misses == old(misses) + 1 && hits == old(hits)
      ensures key in old(data) && Expired(old(data)[key], now) ==>
                && r == Err(KeyExpired) && data == old(data) - {key}
                && misses == old(misses) + 1 && hits == old(hits)
                && Drift() == old(Drift()) + |old(data)[key].value|
      ensures key in old(data) && !Expired(old(data)[key], now) ==>
                && r == Ok(old(data)[key].value)
                && data == old(data)[key := old(data)[key].(accessTime := now, accessCount := old(data)[key].accessCount + 1)]
                && hits == old(hits) + 1 && misses == old(misses)
                && Drift() == old(Drift())
      ensures currentSize == old(currentSize) && cleanupStopped == old(cleanupStopped)
      ensures sets == old(sets) && deletes == old(deletes) && evictions == old(evictions)
      ensures data == GetEffect(old(data), key, now)
      ensures r.Ok? <==> key in old(data) && !Expired(old(data)[key], now)
    {
      if key !in data {
        misses := misses + 1;
        return Err(KeyNotFound);
      }
      var item := data[key];
      if Expired(item, now) {
        TotalSizeRemove(data, key);
        data := data - {key};
        misses := misses + 1;
        return Err(KeyExpired);
      }
      var refreshed := item.(accessTime := now, accessCount := item.accessCount + 1);
      TotalSizeUpdate(data, key, refreshed);
      data := data[key := refreshed];
      hits := hits + 1;
      return Ok(item.value);
    }

    /** `Exists`: like Get's lookup, without counters or access updates. */
    method Exists(key: string, now: int) returns (present: bool)
      modifies this
      ensures present <==> key in old(data) && !Expired(old(data)[key], now)
      ensures data == if key in old(data) && Expired(old(data)[key], now) then old(data) - {key} else old(data)
      ensures currentSize == old(currentSize) && Counters() == old(Counters())
      ensures cleanupStopped == old(cleanupStopped)
    {
      if key !in data {
        return false;
      }
      if Expired(data[key], now) {
        data := data - {key};
        return false;
      }
      return true;
    }

    /** `Delete`: removes a present key and its bytes; an absent key changes
        nothing. It never fails. */
    method Delete(key: string) returns (r: Outcome)
      modifies this
      ensures r == Pass
      ensures data == old(data) - {key}
      ensures key in old(data) ==>
                && currentSize == old(currentSize) - |old(data)[key].value| && deletes == old(deletes) + 1
                && |data| == |old(data)| - 1
      ensures key !in old(data) ==> currentSize == old(currentSize) && deletes == old(deletes)
      ensures Drift() == old(Drift())
      ensures hits == old(hits) && misses == old(misses) && sets == old(sets) && evictions == old(evictions)
      ensures cleanupStopped == old(cleanupStopped)
    {
      if key in data {
        assert (data - {key}).Keys == data.Keys - {key};
        Remove(key);
        deletes := deletes + 1;
      } else {
        assert data - {key} == data;
      }
      return Pass;
    }

    /** `GetMulti`: a Get per key; the keys that miss are left out. */
    method GetMulti(keys: seq<string>, now: int) returns (result: map<string, Bytes>)
      modifies this
      ensures forall k :: k in result ==>
                k in keys && k in old(data) && !Expired(old(data)[k], now) && result[k] == old(data)[k].value
      ensures forall k :: k in keys && k in old(data) && !Expired(old(data)[k], now) ==> k in result
      ensures data == AfterGets(old(data), keys, now)
      ensures hits == old(hits) + LiveCount(old(data), keys, now)
      ensures misses == old(misses) + |keys| - LiveCount(old(data), keys, now)
      ensures currentSize == old(currentSize) && cleanupStopped == old(cleanupStopped)
      ensures sets == old(sets) && deletes == old(deletes) && evictions == old(evictions)
    {
      result := map[];
      var i := 0;
      assert AfterGets(data, [], now) == data && LiveValues(data, [], now) == map[];
      while i < |keys|
        invariant 0 <= i <= |keys|
        invariant data == AfterGets(old(data), keys[..i], now)
        invariant result == LiveValues(old(data), keys[..i], now)
        invariant hits == old(hits) + LiveCount(old(data), keys[..i], now)
        invariant misses == old(misses) + i - LiveCount(old(data), keys[..i], now)
        invariant currentSize == old(currentSize) && cleanupStopped == old(cleanupStopped)
        invariant sets == old(sets) && deletes == old(deletes) && evictions == old(evictions)
      {
        AfterGetsStep(old(data), keys[..i], keys[i], now);
        assert keys[..i + 1] == keys[..i] + [keys[i]];
        assert keys[..i + 1][..i] == keys[..i];
        var r := Get(keys[i], now);
        if r.Ok? {
          result := result[keys[i] := r.value];
        }
        i := i + 1;
      }
      assert keys[..i] == keys;
    }

    /** `SetMulti`: a Set per item, in the map's iteration order. */
    method SetMulti(items: map<string, Bytes>, ttl: int, now: int) returns (r: Outcome)
      requires CountsNonNegative()
      modifies this
      ensures CountsNonNegative()
      ensures r == Pass
      ensures sets == old(sets) + |items|
      ensures Drift() == old(Drift())
      ensures hits == old(hits) && misses == old(misses) && deletes == old(deletes)
    {
      var todo := items.Keys;
      while todo != {}
        invariant todo <= items.Keys
        invariant CountsNonNegative()
        invariant sets == old(sets) + |items| - |todo|
        invariant Drift() == old(Drift())
        invariant hits == old(hits) && misses == old(misses) && deletes == old(deletes)
        decreases todo
      {
        var key :| key in todo;
        ghost var _, _ := Set(key, items[key], ttl, now);
        todo := todo - {key};
      }
      return Pass;
    }

    /** `DeleteMulti`: a Delete per key. */
    method DeleteMulti(keys: seq<string>) returns (r: Outcome)
      modifies this
      ensures r == Pass
      ensures data == map k | k in old(data) && k !in keys :: old(data)[k]
      ensures deletes == old(deletes) + |old(data)| - |data|
      ensures Drift() == old(Drift())
      ensures hits == old(hits) && misses == old(misses) && sets == old(sets) && evictions == old(evictions)
      ensures cleanupStopped == old(cleanupStopped)
    {
      var i := 0;
      while i < |keys|
        invariant 0 <= i <= |keys|
        invariant forall k :: k in data <==> k in old(data) && k !in keys[..i]
        invariant forall k :: k in data ==> data[k] == old(data)[k]
        invariant deletes == old(deletes) + |old(data)| - |data|
        invariant Drift() == old(Drift())
        invariant hits == old(hits) && misses == old(misses) && sets == old(sets) && evictions == old(evictions)
        invariant cleanupStopped == old(cleanupStopped)
      {
        var _ := Delete(keys[i]);
        assert keys[..i + 1] == keys[..i] + [keys[i]];
        i := i + 1;
      }
      assert keys[..i] == keys;
      return Pass;
    }

    /** `Increment`: an absent key is created holding the decimal `delta` (no
        expiry, no size accounting, no key limit); a stored JSON integer is
        advanced with 64-bit wrap-around and rewritten in place; anything else
        fails with NotANumber and changes nothing. Expiry is not checked. */
    method Increment(key: string, delta: int, now: int) returns (r: Result<int>)
      requires IsInt64(delta)
      modifies this
      ensures key !in old(data) ==>
                r == Ok(delta) && data == old(data)[key := Item(DecimalBytes(delta), None, now, 0)]
      ensures key in old(data) && ParseJsonInt64(old(data)[key].value).None? ==>
                r == Err(NotANumber) && data == old(data)
      ensures key in old(data) && ParseJsonInt64(old(data)[key].value).Some? ==>
                var sum := Wrap64(ParseJsonInt64(old(data)[key].value).value + delta);
                r == Ok(sum) && data == old(data)[key := old(data)[key].(value := DecimalBytes(sum), accessTime := now)]
      ensures r.Ok? ==> key in data && ParseJsonInt64(data[key].value) == Some(r.value)
      ensures currentSize == old(currentSize) && Counters() == old(Counters())
      ensures cleanupStopped == old(cleanupStopped)
    {
      if key !in data {
        DecimalBytesRoundTrip(delta);
        data := data[key := Item(DecimalBytes(delta), None, now, 0)];
        return Ok(delta);
      }
      var item := data[key];
      var current := ParseJsonInt64(item.value);
      if current.None? {
        return Err(NotANumber);
      }
      var newValue := Wrap64(current.value + delta);
      DecimalBytesRoundTrip(newValue);
      data := data[key := item.(value := DecimalBytes(newValue), accessTime := now)];
      return Ok(newValue);
    }

    /** `Decrement` is `Increment` by the (wrapped) negation of `delta`. */
    method Decrement(key: string, delta: int, now: int) returns (r: Result<int>)
      requires IsInt64(delta)
      modifies this
      ensures key !in old(data) ==>
                r == Ok(Wrap64(-delta)) && data == old(data)[key := Item(DecimalBytes(Wrap64(-delta)), None, now, 0)]
      ensures key in old(data) && ParseJsonInt64(old(data)[key].value).None? ==>
                r == Err(NotANumber) && data == old(data)
      ensures key in old(data) && ParseJsonInt64(old(data)[key].value).Some? ==>
                var diff := Wrap64(ParseJsonInt64(old(data)[key].value).value + Wrap64(-delta));
                r == Ok(diff) && data == old(data)[key := old(data)[key].(value := DecimalBytes(diff), accessTime := now)]
      ensures r.Ok? ==> key in data && ParseJsonInt64(data[key].value) == Some(r.value)
      ensures currentSize == old(currentSize) && Counters() == old(Counters())
      ensures cleanupStopped == old(cleanupStopped)
    {
      r := Increment(key, Wrap64(-delta), now);
    }

    /** `Expire`: a new expiry `now + ttl`, or none for a non-positive ttl. */
    method Expire(key: string, ttl: int, now: int) returns (r: Outcome)
      modifies this
      ensures key !in old(data) ==> r == Fail(KeyNotFound) && data == old(data)
      ensures key in old(data) ==>
                r == Pass && data == old(data)[key := old(data)[key].(expireTime := if ttl > 0 then Some(now + ttl) else None)]
      ensures Drift() == old(Drift()) && currentSize == old(currentSize) && Counters() == old(Counters())
    {
      if key !in data {
        return Fail(KeyNotFound);
      }
      var item := data[key].(expireTime := if ttl > 0 then Some(now + ttl) else None);
      TotalSizeUpdate(data, key, item);
      data := data[key := item];
      return Pass;
    }

    /** `TTL`: an error for an absent key, -1 without expiry, 0 once past the
        expiry, otherwise the time left. It does not check expiry itself. */
    method TTL(key: string, now: int) returns (r: Result<int>)
      ensures key !in data ==> r == Err(KeyNotFound)
      ensures key in data && data[key].expireTime.None? ==> r == Ok(-1)
      ensures key in data && data[key].expireTime.Some? ==>
                r == Ok(if data[key].expireTime.value < now then 0 else data[key].expireTime.value - now)
      ensures r.Ok? ==> r.value >= -1
    {
      if key !in data {
        return Err(KeyNotFound);
      }
      var item := data[key];
      if item.expireTime.None? {
        return Ok(-1);
      }
      var remaining := item.expireTime.value - now;
      if remaining < 0 {
        return Ok(0);
      }
      return Ok(remaining);
    }

    /** `Clear`: drops every entry and zeroes the byte counter; the counters stay. */
    method Clear() returns (r: Outcome)
      modifies this
      ensures r == Pass && data == map[] && currentSize == 0 && Accounted()
      ensures Counters() == old(Counters())
    {
      data := map[];
      currentSize := 0;
      return Pass;
    }

    /** `Stats`: the counters, the key count, the byte counter and whole seconds
        since construction. */
    method Stats(now: int) returns (s: Backends.Stats)
      requires now >= startTime
      ensures s == Backends.Stats(hits, misses, sets, deletes, evictions, |data|, currentSize,
                                  (now - startTime) / Config.Second)
      ensures Accounted() ==> s.memoryUsage == TotalSize(data)
      ensures s.uptime >= 0
    {
      s := Backends.Stats(hits, misses, sets, deletes, evictions, |data|, currentSize,
                          (now - startTime) / Config.Second);
    }

    /** `Health`: always healthy. */
    method Health() returns (r: Outcome)
      ensures r == Pass
    {
      return Pass;
    }

    /** `Close` stops the sweep. Go panics on a second close of the stop channel. */
    method Close() returns (r: Outcome)
      requires !cleanupStopped
      modifies this
      ensures r == Pass && cleanupStopped
      ensures data == old(data) && currentSize == old(currentSize) && Counters() == old(Counters())
    {
      cleanupStopped := true;
      return Pass;
    }

    /** `cleanupExpired`: one sweep that removes exactly the expired entries and
        their bytes. */
    method CleanupExpired(now: int)
      modifies this
      ensures data == map k | k in old(data) && !Expired(old(data)[k], now) :: old(data)[k]
      ensures Drift() == old(Drift())
      ensures Counters() == old(Counters()) && cleanupStopped == old(cleanupStopped)
    {
      var todo := data.Keys;
      while todo != {}
        invariant todo <= old(data).Keys
        invariant data == map k | k in old(data) && (k in todo || !Expired(old(data)[k], now)) :: old(data)[k]
        invariant Drift() == old(Drift())
        invariant Counters() == old(Counters()) && cleanupStopped == old(cleanupStopped)
        decreases todo
      {
        var key :| key in todo;
        if Expired(data[key], now) {
          Remove(key);
        }
        todo := todo - {key};
      }
    }
  }

  // ---------------------------------------------------------------------------
  // Scenarios from cache_test.go and from the eviction design, on a fresh store.

  lemma {:induction false} SubsetCardinality(a: set<string>, b: set<string>)
    requires a <= b
    ensures |a| <= |b|
    decreases |a|
  {
    if a != {} {
      var x :| x in a;
      SubsetCardinality(a - {x}, b - {x});
    }
  }

  const TestConfig := Config.MemoryConfig("", 0, "lru", 0, 0)

  /** Increment by 5 and by 3, then Decrement by 2, starting from no key:
      5, 8 and 6. */
  method CounterScenario(now: int) returns (first: Result<int>, second: Result<int>, third: Result<int>)
    ensures first == Ok(5) && second == Ok(8) && third == Ok(6)
  {
    var m := new MemoryBackend(TestConfig, now);
    first := m.Increment("counter", 5, now);
    assert ParseJsonInt64(m.data["counter"].value) == Some(5);
    second := m.Increment("counter", 3, now);
    assert ParseJsonInt64(m.data["counter"].value) == Some(8);
    assert Wrap64(-2) == -2;
    third := m.Decrement("counter", 2, now);
  }

  /** A value set with a 100 ms ttl is there at once and gone 200 ms later. */
  method TtlScenario(now: int, v: Bytes) returns (before: Result<Bytes>, after: Result<Bytes>)
    ensures before == Ok(v)
    ensures after == Err(KeyExpired)
  {
    var m := new MemoryBackend(TestConfig, now);
    ghost var _, _ := m.Set("ttl_key", v, 100 * Config.Millisecond, now);
    before := m.Get("ttl_key", now);
    after := m.Get("ttl_key", now + 200 * Config.Millisecond);
  }

  /** A fresh test store after writing "key1" and "key2". */
  method StatsPrepare(now: int, v: Bytes) returns (m: MemoryBackend)
    ensures fresh(m) && m.startTime == now
    ensures m.data.Keys == {"key1", "key2"} && m.Counters() == (0, 0, 2, 0, 0)
    ensures !Expired(m.data["key1"], now)
  {
    m := new MemoryBackend(TestConfig, now);
    assert m.maxSize == 0;
    ghost var _, _ := m.Set("key1", v, Config.Minute, now);
    assert m.data.Keys == {"key1"} && m.Counters() == (0, 0, 1, 0, 0);
    ghost var _, _ := m.Set("key2", v, Config.Minute, now);
  }

  /** Two sets, a hit, a miss and a delete show up in every counter. */
  method StatsScenario(now: int, v: Bytes) returns (s: Backends.Stats)
    ensures s.hits == 1 && s.misses == 1 && s.sets == 2 && s.deletes == 1 && s.keyCount == 1
  {
    var m := StatsPrepare(now, v);
    assert "key3" !in m.data && |m.data| == |m.data.Keys| == 2;
    var _ := m.Get("key1", now);
    assert "key2" in m.data && "key3" !in m.data && |m.data| == 2;
    var _ := m.Get("key3", now);
    var _ := m.Delete("key2");
    s := m.Stats(now);
  }

  /** The key-limit eviction from a store holding "a" and "b", where "a" was
      used more recently, removes "b". */
  lemma LruPicksOlder(m: map<string, Item>, bySize: Option<string>, byCount: Option<string>)
    requires m.Keys == {"a", "b"} && m["a"].accessTime > m["b"].accessTime
    requires bySize.None? && CountCheck(m, 2, bySize, byCount)
    ensures m.Keys - Victims(bySize, byCount) == {"a"}
  {
    assert |m| == |m.Keys| == 2;
    assert m - Victims(bySize, None) == m;
    assert byCount.Some? && byCount.value in m.Keys;
    assert byCount.value != "a" by {
      assert m["a"].accessTime > m["b"].accessTime;
    }
    assert Victims(bySize, byCount) == {"b"};
  }

  /** A store with room for two keys and no byte limit, after writing "a" and
      "b" and then reading "a". */
  method LruPrepare(v: Bytes) returns (m: MemoryBackend)
    ensures fresh(m) && m.CountsNonNegative()
    ensures m.maxSize == 0 && m.config.maxKeys == 2
    ensures m.data.Keys == {"a", "b"} && m.data["a"].accessTime > m.data["b"].accessTime
  {
    m := new MemoryBackend(Config.MemoryConfig("", 2, "lru", 0, 0), 0);
    ghost var _, _ := m.Set("a", v, 0, 1);
    assert m.data.Keys == {"a"};
    ghost var _, _ := m.Set("b", v, 0, 2);
    assert m.data.Keys == {"a", "b"};
    var _ := m.Get("a", 3);
  }

  /** With room for two keys and no byte limit, reading "a" after writing "a" and
      "b" makes "b" the one evicted when "c" arrives. */
  method LruScenario(v: Bytes) returns (survivors: set<string>)
    ensures survivors == {"a", "c"}
  {
    var m := LruPrepare(v);
    ghost var before := m.data;
    ghost var bySize, byCount := m.Set("c", v, 0, 4);
    LruPicksOlder(before, bySize, byCount);
    survivors := m.data.Keys;
  }
}
