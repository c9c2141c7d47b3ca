/** pkg/sharding/sharding.go: the three shard routers and the shard-key helpers.
    CRC-32 (IEEE) and MD5 are not modelled; each router holds the 32-bit hash it
    uses as a function value. Backends are an opaque type parameter `B`. */
module Sharding {
  import opened Wrappers
  import opened Text

  /** A 32-bit hash value, as Go's `uint32`. */
  newtype uint32 = x: int | 0 <= x < 0x1_0000_0000

  type Hash = string -> uint32

  // ---------------------------------------------------------------------------
  // Sorted sequences of ring positions.

  predicate Sorted(s: seq<uint32>) {
    forall i, j :: 0 <= i < j < |s| ==> s[i] <= s[j]
  }

  /** Insert `x` into a sorted sequence at its place. */
  function Insert(s: seq<uint32>, x: uint32): (r: seq<uint32>)
    requires Sorted(s)
    ensures Sorted(r)
    ensures multiset(r) == multiset(s) + multiset{x}
  {
    if s == [] || x <= s[0] then
      [x] + s
    else
      var rest := Insert(s[1..], x);
      assert s == [s[0]] + s[1..];
      forall y | y in rest
        ensures s[0] <= y
      {
        assert y in multiset(rest);
        if y != x {
          assert y in multiset(s[1..]);
          var j :| 0 <= j < |s[1..]| && s[1..][j] == y;
          assert s[j + 1] == y;
        }
      }
      SortedCons(rest, s[0]);
      [s[0]] + rest
  }

  lemma SortedCons(a: seq<uint32>, y: uint32)
    requires Sorted(a) && forall z :: z in a ==> y <= z
    ensures Sorted([y] + a)
  {
    forall i, j | 0 <= i < j < |a| + 1
      ensures ([y] + a)[i] <= ([y] + a)[j]
    {
      if i == 0 {
        assert a[j - 1] in a;
      }
    }
  }

  /** `sort.Slice(keys, less)`: ascending order of the same elements. */
  method SortKeys(s: seq<uint32>) returns (t: seq<uint32>)
    ensures Sorted(t)
    ensures multiset(t) == multiset(s)
  {
    t := [];
    var i := 0;
    while i < |s|
      invariant 0 <= i <= |s|
      invariant Sorted(t)
      invariant multiset(t) == multiset(s[..i])
    {
      assert s[..i + 1] == s[..i] + [s[i]];
      t := Insert(t, s[i]);
      i := i + 1;
    }
    assert s[..i] == s;
  }

  lemma {:induction false} SortedHeadIsLeast(a: seq<uint32>, x: uint32)
    requires Sorted(a) && x in multiset(a)
    ensures a[0] <= x
  {
    var i :| 0 <= i < |a| && a[i] == x;
  }

  /** A sorted arrangement of a multiset is unique. */
  lemma {:induction false} SortedUnique(a: seq<uint32>, b: seq<uint32>)
    requires Sorted(a) && Sorted(b) && multiset(a) == multiset(b)
    ensures a == b
    decreases |a|
  {
    assert |a| == |multiset(a)| == |multiset(b)| == |b|;
    if a != [] {
      assert a[0] in multiset(b) && b[0] in multiset(a);
      SortedHeadIsLeast(b, a[0]);
      SortedHeadIsLeast(a, b[0]);
      assert a[0] == b[0];
      assert a == [a[0]] + a[1..] && b == [b[0]] + b[1..];
      assert multiset(a) == multiset{a[0]} + multiset(a[1..]);
      assert multiset(b) == multiset{b[0]} + multiset(b[1..]);
      assert multiset(a[1..]) == multiset(a) - multiset{a[0]};
      assert multiset(b[1..]) == multiset(b) - multiset{b[0]};
      SortedUnique(a[1..], b[1..]);
    }
  }

  // ---------------------------------------------------------------------------
  // The consistent-hash ring as values.

  /** `ring[k]` in Go: a missing position reads as shard 0. */
  function RingGet(ring: map<uint32, int>, k: uint32): int {
    if k in ring then ring[k] else 0
  }

  /** The name hashed for virtual node `replica` of shard `shard`. */
  function Label(shard: int, replica: int): string {
    "shard-" + DecimalString(shard) + "-" + DecimalString(replica)
  }

  /** The first `count` virtual-node positions of shard `shard`, in loop order. */
  function Positions(hash: Hash, shard: int, count: nat): (ps: seq<uint32>)
    ensures |ps| == count
    ensures forall i :: 0 <= i < count ==> ps[i] == hash(Label(shard, i))
  {
    if count == 0 then [] else Positions(hash, shard, count - 1) + [hash(Label(shard, count - 1))]
  }

  /** Every position of `ps` now points at `shard`; the rest of the ring is kept. */
  function Assign(ring: map<uint32, int>, ps: seq<uint32>, shard: int): map<uint32, int> {
    map k | k in ring.Keys + (set p | p in ps) :: if k in ps then shard else ring[k]
  }

  /** The key-deletion loop of `RemoveShard`, position by position: a position
      whose current ring value is `index` is dropped and its ring entry deleted.
      A repeated position whose entry is already gone reads as shard 0, so for
      `index != 0` its later occurrences stay. */
  function Strip(keys: seq<uint32>, ring: map<uint32, int>, index: int): (seq<uint32>, map<uint32, int>)
    decreases |keys|
  {
    if keys == [] then ([], ring)
    else
      var prev := Strip(keys[..|keys| - 1], ring, index);
      var k := keys[|keys| - 1];
      if RingGet(prev.1, k) != index then (prev.0 + [k], prev.1) else (prev.0, prev.1 - {k})
  }

  function Shift(v: int, index: int): int {
    if v > index then v - 1 else v
  }

  /** The renumbering loop of `RemoveShard`: values above `index` move down one. */
  function Renumber(ring: map<uint32, int>, index: int): map<uint32, int> {
    map k | k in ring :: Shift(ring[k], index)
  }

  /** The deletion loop keeps some of the positions. */
  lemma {:induction false} StripSubset(keys: seq<uint32>, ring: map<uint32, int>, index: int)
    ensures multiset(Strip(keys, ring, index).0) <= multiset(keys)
    decreases |keys|
  {
    if keys != [] {
      var p := keys[..|keys| - 1];
      var x := keys[|keys| - 1];
      assert keys == p + [x];
      assert multiset(keys) == multiset(p) + multiset{x};
      StripSubset(p, ring, index);
    }
  }

  lemma SortedSnoc(s: seq<uint32>, x: uint32)
    requires Sorted(s) && forall y :: y in s ==> y <= x
    ensures Sorted(s + [x])
  {
    forall i, j | 0 <= i < j < |s| + 1
      ensures (s + [x])[i] <= (s + [x])[j]
    {
      if j == |s| {
        assert s[i] in s;
      }
    }
  }

  /** It keeps them in order, so sorted positions stay sorted. */
  lemma {:induction false} StripSorted(keys: seq<uint32>, ring: map<uint32, int>, index: int)
    requires Sorted(keys)
    ensures Sorted(Strip(keys, ring, index).0)
    decreases |keys|
  {
    if keys != [] {
      var p := keys[..|keys| - 1];
      var x := keys[|keys| - 1];
      assert keys == p + [x];
      StripSorted(p, ring, index);
      StripSubset(p, ring, index);
      var ks0 := Strip(p, ring, index).0;
      forall y | y in ks0
        ensures y <= x
      {
        assert y in multiset(p);
        var j :| 0 <= j < |p| && p[j] == y;
        assert keys[j] == y;
      }
      SortedSnoc(ks0, x);
    }
  }

  /** The ring after the deletion loop is the old ring less some entries; no
      listed position still points at `index`, and every entry not pointing at
      `index` survives. */
  lemma {:induction false} StripRingFacts(keys: seq<uint32>, ring: map<uint32, int>, index: int)
    ensures var rg := Strip(keys, ring, index).1;
      && rg.Keys <= ring.Keys
      && (forall k :: k in rg ==> rg[k] == ring[k] && (k in keys ==> rg[k] != index))
      && (forall k :: k in ring && ring[k] != index ==> k in rg)
    decreases |keys|
  {
    if keys != [] {
      var p := keys[..|keys| - 1];
      assert keys == p + [keys[|keys| - 1]];
      StripRingFacts(p, ring, index);
    }
  }

  /** A surviving ring entry whose position is listed stays listed. */
  lemma {:induction false} StripKeepsListed(keys: seq<uint32>, ring: map<uint32, int>, index: int)
    ensures forall k :: k in Strip(keys, ring, index).1 && k in keys ==> k in Strip(keys, ring, index).0
    decreases |keys|
  {
    if keys != [] {
      var p := keys[..|keys| - 1];
      assert keys == p + [keys[|keys| - 1]];
      StripKeepsListed(p, ring, index);
    }
  }

  /** Removing the only shard (index 0, every entry pointing at 0) drops every
      position. */
  lemma {:induction false} StripAll(keys: seq<uint32>, ring: map<uint32, int>)
    requires forall k :: k in ring ==> ring[k] == 0
    ensures Strip(keys, ring, 0).0 == []
    decreases |keys|
  {
    if keys != [] {
      StripRingFacts(keys[..|keys| - 1], ring, 0);
      StripAll(keys[..|keys| - 1], ring);
    }
  }

  /** When no position pointing at `index` is listed twice, the deletion loop
      deletes from the ring exactly the listed entries that point at `index`. */
  lemma {:induction false} StripRing(keys: seq<uint32>, ring: map<uint32, int>, index: int)
    requires forall k :: k in ring && ring[k] == index ==> multiset(keys)[k] <= 1
    ensures Strip(keys, ring, index).1 == map k | k in ring && !(ring[k] == index && k in keys) :: ring[k]
    decreases |keys|
  {
    if keys != [] {
      var p := keys[..|keys| - 1];
      var x := keys[|keys| - 1];
      assert keys == p + [x];
      assert multiset(keys) == multiset(p) + multiset{x};
      StripRing(p, ring, index);
    }
  }

  /** Under the same condition the kept positions are exactly those whose ring
      value is not `index` (for index 0 that also drops positions missing from
      the ring), with their multiplicities. */
  lemma {:induction false} StripCount(keys: seq<uint32>, ring: map<uint32, int>, index: int)
    requires forall k :: k in ring && ring[k] == index ==> multiset(keys)[k] <= 1
    ensures forall x :: multiset(Strip(keys, ring, index).0)[x] ==
                          if RingGet(ring, x) == index then 0 else multiset(keys)[x]
    decreases |keys|
  {
    if keys != [] {
      var p := keys[..|keys| - 1];
      var x := keys[|keys| - 1];
      assert keys == p + [x];
      assert multiset(keys) == multiset(p) + multiset{x};
      StripCount(p, ring, index);
      StripRing(p, ring, index);
      var rg0 := Strip(p, ring, index).1;
      assert RingGet(rg0, x) == index <==> RingGet(ring, x) == index;
    }
  }

  /** The state of a ring of `n` shards before shard `n` is added. */
  ghost predicate RingBefore(keys: seq<uint32>, ring: map<uint32, int>, n: int) {
    && Sorted(keys) && n >= 0 && (n == 0 ==> keys == [])
    && (forall k :: k in ring ==> 0 <= ring[k] < n && k in keys)
  }

  /** New positions that collide neither with the ring nor with each other. */
  ghost predicate Fresh(keys: seq<uint32>, ps: seq<uint32>) {
    forall p :: p in ps ==> p !in keys && multiset(ps)[p] == 1
  }

  /** After the assignment, the entries pointing at `n` are exactly the new ones. */
  lemma AssignedToNew(keys: seq<uint32>, ring: map<uint32, int>, n: int, ps: seq<uint32>)
    requires RingBefore(keys, ring, n)
    ensures forall k :: k in Assign(ring, ps, n) && Assign(ring, ps, n)[k] == n <==> k in ps
    ensures forall k :: k !in ps ==> RingGet(Assign(ring, ps, n), k) == RingGet(ring, k)
  {
  }

  lemma {:induction false} KeysAfterAddThenRemove(keys: seq<uint32>, ring: map<uint32, int>, n: int,
                                                  ps: seq<uint32>, added: seq<uint32>)
    requires RingBefore(keys, ring, n) && Fresh(keys, ps)
    requires Sorted(added) && multiset(added) == multiset(keys) + multiset(ps)
    ensures Strip(added, Assign(ring, ps, n), n).0 == keys
  {
    var ring2 := Assign(ring, ps, n);
    AssignedToNew(keys, ring, n, ps);
    StripCount(added, ring2, n);
    StripSorted(added, ring2, n);
    var ks := Strip(added, ring2, n).0;
    forall x
      ensures multiset(ks)[x] == multiset(keys)[x]
    {
      if x in ps {
        assert x !in multiset(keys);
      } else if RingGet(ring2, x) == n {
        assert RingGet(ring, x) == n;
        assert x !in keys;
      }
    }
    assert multiset(ks) == multiset(keys);
    SortedUnique(ks, keys);
  }

  lemma {:induction false} RingAfterAddThenRemove(keys: seq<uint32>, ring: map<uint32, int>, n: int,
                                                  ps: seq<uint32>, added: seq<uint32>)
    requires RingBefore(keys, ring, n) && Fresh(keys, ps)
    requires multiset(added) == multiset(keys) + multiset(ps)
    ensures Renumber(Strip(added, Assign(ring, ps, n), n).1, n) == ring
  {
    var ring2 := Assign(ring, ps, n);
    AssignedToNew(keys, ring, n, ps);
    StripRing(added, ring2, n);
    assert forall k :: k in ps ==> k in multiset(added);
    var rg := Strip(added, ring2, n).1;
    assert rg == ring;
  }

  /** Adding shard `n` whose positions are fresh and then removing shard `n`
      gives back the sorted positions and the ring of before. */
  lemma AddThenRemove(keys: seq<uint32>, ring: map<uint32, int>, n: int, ps: seq<uint32>, added: seq<uint32>)
    requires RingBefore(keys, ring, n) && Fresh(keys, ps)
    requires Sorted(added) && multiset(added) == multiset(keys) + multiset(ps)
    ensures Strip(added, Assign(ring, ps, n), n).0 == keys
    ensures Renumber(Strip(added, Assign(ring, ps, n), n).1, n) == ring
  {
    KeysAfterAddThenRemove(keys, ring, n, ps, added);
    RingAfterAddThenRemove(keys, ring, n, ps, added);
  }

  // ---------------------------------------------------------------------------
  // Lookup on the ring.

  /** The first index whose position is at least `h`, or `|keys|`: the reference
      definition of `sort.Search` over the positions. */
  function FirstAtLeast(keys: seq<uint32>, h: uint32): (i: nat)
    ensures i <= |keys|
  {
    if keys == [] then 0
    else if keys[0] >= h then 0
    else 1 + FirstAtLeast(keys[1..], h)
  }

  lemma {:induction false} FirstAtLeastSplits(keys: seq<uint32>, h: uint32)
    ensures forall j :: 0 <= j < FirstAtLeast(keys, h) ==> keys[j] < h
    ensures FirstAtLeast(keys, h) < |keys| ==> keys[FirstAtLeast(keys, h)] >= h
  {
    if keys != [] && keys[0] < h {
      FirstAtLeastSplits(keys[1..], h);
    }
  }

  lemma {:induction false} FirstAtLeastUnique(keys: seq<uint32>, h: uint32, i: nat)
    requires i <= |keys|
    requires forall j :: 0 <= j < i ==> keys[j] < h
    requires i < |keys| ==> keys[i] >= h
    ensures FirstAtLeast(keys, h) == i
  {
    if i > 0 {
      FirstAtLeastUnique(keys[1..], h, i - 1);
    }
  }

  /** `sort.Search` for the first position at least `h`: a binary search. */
  method Search(keys: seq<uint32>, h: uint32) returns (idx: int)
    requires Sorted(keys)
    ensures idx == FirstAtLeast(keys, h)
  {
    var lo, hi := 0, |keys|;
    while lo < hi
      invariant 0 <= lo <= hi <= |keys|
      invariant forall j :: 0 <= j < lo ==> keys[j] < h
      invariant forall j :: hi <= j < |keys| ==> keys[j] >= h
    {
      var mid := lo + (hi - lo) / 2;
      if keys[mid] < h {
        lo := mid + 1;
      } else {
        hi := mid;
      }
    }
    FirstAtLeastUnique(keys, h, lo);
    idx := lo;
  }

  /** The shard the ring assigns to hash `h`: the first position at least `h`,
      wrapping to the first position. */
  function RingShard(keys: seq<uint32>, ring: map<uint32, int>, h: uint32): int
    requires |keys| > 0
  {
    var i := FirstAtLeast(keys, h);
    RingGet(ring, keys[if i == |keys| then 0 else i])
  }

  // ---------------------------------------------------------------------------

  lemma AssignSnoc(ring: map<uint32, int>, ps: seq<uint32>, p: uint32, shard: int)
    ensures Assign(ring, ps + [p], shard) == Assign(ring, ps, shard)[p := shard]
  {
  }

  /** The ring after the assignment points only at shards up to `n`, and only
      from listed positions. */
  lemma AssignKeepsValid(keys: seq<uint32>, ring: map<uint32, int>, n: int, ps: seq<uint32>)
    requires forall k :: k in ring ==> 0 <= ring[k] < n && k in keys
    requires n >= 0
    ensures forall k :: k in Assign(ring, ps, n) ==> 0 <= Assign(ring, ps, n)[k] < n + 1 && k in multiset(keys + ps)
  {
  }

  /** The replica loop of `AddShard`: append each replica's position and point
      it at the new shard. */
  method AddPositions(keys: seq<uint32>, ring: map<uint32, int>, hash: Hash, shardIndex: int, replicas: int)
    returns (newKeys: seq<uint32>, newRing: map<uint32, int>)
    ensures newKeys == keys + Positions(hash, shardIndex, if replicas > 0 then replicas else 0)
    ensures newRing == Assign(ring, Positions(hash, shardIndex, if replicas > 0 then replicas else 0), shardIndex)
  {
    newKeys, newRing := keys, ring;
    assert Assign(ring, [], shardIndex) == ring;
    ghost var count := if replicas > 0 then replicas else 0;
    var i := 0;
    while i < replicas
      invariant 0 <= i <= count
      invariant newKeys == keys + Positions(hash, shardIndex, i)
      invariant newRing == Assign(ring, Positions(hash, shardIndex, i), shardIndex)
    {
      var key := hash(Label(shardIndex, i));
      ghost var before := Positions(hash, shardIndex, i);
      assert Positions(hash, shardIndex, i + 1) == before + [key];
      AssignSnoc(ring, before, key, shardIndex);
      newRing := newRing[key := shardIndex];
      newKeys := newKeys + [key];
      assert newKeys == keys + (before + [key]);
      i := i + 1;
    }
    assert i == count;
  }

  /** The ring part of `AddShard`: add the positions, then sort. */
  method AddToRing(keys: seq<uint32>, ring: map<uint32, int>, hash: Hash, n: int, replicas: int)
    returns (newKeys: seq<uint32>, newRing: map<uint32, int>)
    requires n >= 0 && forall k :: k in ring ==> 0 <= ring[k] < n && k in keys
    ensures Sorted(newKeys)
    ensures multiset(newKeys) == multiset(keys) + multiset(Positions(hash, n, if replicas > 0 then replicas else 0))
    ensures newRing == Assign(ring, Positions(hash, n, if replicas > 0 then replicas else 0), n)
    ensures forall k :: k in newRing ==> 0 <= newRing[k] < n + 1 && k in newKeys
    ensures forall p :: p in Positions(hash, n, if replicas > 0 then replicas else 0) ==> p in newRing && newRing[p] == n
  {
    var appended;
    appended, newRing := AddPositions(keys, ring, hash, n, replicas);
    AssignKeepsValid(keys, ring, n, Positions(hash, n, if replicas > 0 then replicas else 0));
    newKeys := SortKeys(appended);
    assert forall k :: k in newRing ==> k in multiset(newKeys);
  }

  /** The deletion loop of `RemoveShard`. */
  method StripLoop(keys: seq<uint32>, ring: map<uint32, int>, index: int)
    returns (newKeys: seq<uint32>, stripped: map<uint32, int>)
    ensures (newKeys, stripped) == Strip(keys, ring, index)
  {
    newKeys, stripped := [], ring;
    var i := 0;
    while i < |keys|
      invariant 0 <= i <= |keys|
      invariant (newKeys, stripped) == Strip(keys[..i], ring, index)
    {
      assert keys[..i + 1][..i] == keys[..i];
      if RingGet(stripped, keys[i]) != index {
        newKeys := newKeys + [keys[i]];
      } else {
        stripped := stripped - {keys[i]};
      }
      i := i + 1;
    }
    assert keys[..i] == keys;
  }

  /** The renumbering loop of `RemoveShard`, over the ring in any order. */
  method RenumberLoop(ring: map<uint32, int>, index: int) returns (newRing: map<uint32, int>)
    ensures newRing == Renumber(ring, index)
  {
    newRing := map[];
    var todo := ring.Keys;
    while todo != {}
      invariant todo <= ring.Keys
      invariant newRing == map k | k in ring && k !in todo :: Shift(ring[k], index)
      decreases todo
    {
      var key :| key in todo;
      if ring[key] > index {
        newRing := newRing[key := ring[key] - 1];
      } else {
        newRing := newRing[key := ring[key]];
      }
      todo := todo - {key};
    }
  }

  /** `ConsistentHashSharder`. */
  class ConsistentHashSharder<B> {
    var shards: seq<B>
    var ring: map<uint32, int>
    var keys: seq<uint32>
    const replicas: int
    const hash: Hash

    /** Positions stay sorted, every ring value names a shard, every ring entry
        is listed among the positions, and there are no positions without shards. */
    ghost predicate Valid()
      reads this
    {
      && Sorted(keys)
      && (forall k :: k in ring ==> 0 <= ring[k] < |shards| && k in keys)
      && (|shards| == 0 ==> keys == [])
    }

    /** `NewConsistentHashSharder`. */
    constructor (replicas: int, hash: Hash)
      ensures this.replicas == replicas && this.hash == hash
      ensures shards == [] && ring == map[] && keys == []
      ensures Valid()
    {
      this.replicas := replicas;
      this.hash := hash;
      shards := [];
      ring := map[];
      keys := [];
    }

    function ReplicaCount(): nat
      reads this
    {
      if replicas > 0 then replicas else 0
    }

    /** `AddShard`: the backend becomes shard `n` (the old count); its replica
        positions are added to the ring pointing at `n`, and the positions are
        sorted again. */
    method AddShard(backend: B) returns (r: Outcome)
      requires Valid()
      modifies this
      ensures Valid()
      ensures r == Pass
      ensures shards == old(shards) + [backend]
      ensures Sorted(keys)
      ensures multiset(keys) == multiset(old(keys)) + multiset(Positions(hash, |old(shards)|, ReplicaCount()))
      ensures ring == Assign(old(ring), Positions(hash, |old(shards)|, ReplicaCount()), |old(shards)|)
      ensures forall p :: p in Positions(hash, |old(shards)|, ReplicaCount()) ==> ring[p] == |old(shards)|
    {
      var shardIndex := |shards|;
      shards := shards + [backend];
      var newKeys, newRing := AddToRing(keys, ring, hash, shardIndex, replicas);
      keys := newKeys;
      ring := newRing;
      r := Pass;
    }

    /** `RemoveShard`: an out-of-range index fails and changes nothing; otherwise
        the positions pointing at the shard are deleted, the ring values above it
        move down one, and the backend is spliced out. */
    method RemoveShard(index: int) returns (r: Outcome)
      requires Valid()
      modifies this
      ensures Valid()
      ensures (index < 0 || index >= |old(shards)|) ==>
                r == Fail(InvalidShardIndex(index)) && shards == old(shards) && ring == old(ring) && keys == old(keys)
      ensures 0 <= index < |old(shards)| ==>
                && r == Pass
                && shards == old(shards)[..index] + old(shards)[index + 1..]
                && keys == Strip(old(keys), old(ring), index).0
                && ring == Renumber(Strip(old(keys), old(ring), index).1, index)
      ensures 0 <= index < |old(shards)| ==>
                forall k :: k in ring ==> k in old(ring) && old(ring)[k] != index && ring[k] == Shift(old(ring)[k], index)
    {
      if index < 0 || index >= |shards| {
        return Fail(InvalidShardIndex(index));
      }
      StripSorted(keys, ring, index);
      StripRingFacts(keys, ring, index);
      StripKeepsListed(keys, ring, index);
      if |shards| == 1 {
        StripAll(keys, ring);
      }
      var newKeys, stripped := StripLoop(keys, ring, index);
      var newRing := RenumberLoop(stripped, index);
      keys := newKeys;
      ring := newRing;
      shards := shards[..index] + shards[index + 1..];
      return Pass;
    }

    /** `GetShardIndex`: -1 without shards, 0 with one, otherwise the shard of the
        first position at least the key's hash, wrapping around. */
    method GetShardIndex(key: string) returns (idx: int)
      requires Valid()
      requires |shards| >= 2 ==> |keys| > 0
      ensures |shards| == 0 ==> idx == -1
      ensures |shards| == 1 ==> idx == 0
      ensures |shards| >= 2 ==> idx == RingShard(keys, ring, hash(key))
      ensures |shards| > 0 ==> 0 <= idx < |shards|
    {
      if |shards| == 0 {
        return -1;
      }
      if |shards| == 1 {
        return 0;
      }
      var h := hash(key);
      var i := Search(keys, h);
      if i == |keys| {
        i := 0;
      }
      idx := RingGet(ring, keys[i]);
    }

    /** `GetShard`: the backend at that index, or none without shards. */
    method GetShard(key: string) returns (b: Option<B>)
      requires Valid()
      requires |shards| >= 2 ==> |keys| > 0
      ensures |shards| == 0 <==> b.None?
      ensures |shards| == 1 ==> b == Some(shards[0])
      ensures |shards| >= 2 ==> b == Some(shards[RingShard(keys, ring, hash(key))])
    {
      var idx := GetShardIndex(key);
      if idx < 0 {
        return None;
      }
      return Some(shards[idx]);
    }

    method GetShardCount() returns (n: int)
      ensures n == |shards|
    {
      return |shards|;
    }
  }

  /** Adding a shard whose replica positions are fresh and then removing it
      restores the ring exactly. */
  method AddThenRemoveRestores<B>(s: ConsistentHashSharder<B>, backend: B) returns (r: Outcome)
    requires s.Valid()
    requires var ps := Positions(s.hash, |s.shards|, s.ReplicaCount());
             forall p :: p in ps ==> p !in s.keys && multiset(ps)[p] == 1
    modifies s
    ensures r == Pass
    ensures s.keys == old(s.keys) && s.ring == old(s.ring) && s.shards == old(s.shards)
  {
    ghost var ps := Positions(s.hash, |s.shards|, s.ReplicaCount());
    var n := |s.shards|;
    var _ := s.AddShard(backend);
    ghost var added := s.keys;
    r := s.RemoveShard(n);
    AddThenRemove(old(s.keys), old(s.ring), n, ps, added);
  }

  // ---------------------------------------------------------------------------

  /** `HashSharder`: the hash modulo the shard count. */
  class HashSharder<B> {
    var shards: seq<B>
    const hash: Hash

    constructor (hash: Hash)
      ensures shards == [] && this.hash == hash
    {
      this.hash := hash;
      shards := [];
    }

    method AddShard(backend: B) returns (r: Outcome)
      modifies this
      ensures r == Pass && shards == old(shards) + [backend]
    {
      shards := shards + [backend];
      return Pass;
    }

    method RemoveShard(index: int) returns (r: Outcome)
      modifies this
      ensures (index < 0 || index >= |old(shards)|) ==> r == Fail(InvalidShardIndex(index)) && shards == old(shards)
      ensures 0 <= index < |old(shards)| ==> r == Pass && shards == old(shards)[..index] + old(shards)[index + 1..]
    {
      if index < 0 || index >= |shards| {
        return Fail(InvalidShardIndex(index));
      }
      shards := shards[..index] + shards[index + 1..];
      return Pass;
    }

    /** -1 without shards; otherwise a valid index, the same for equal hashes. */
    method GetShardIndex(key: string) returns (idx: int)
      ensures |shards| == 0 ==> idx == -1
      ensures |shards| > 0 ==> 0 <= idx < |shards| && idx == (hash(key) as int) % |shards|
    {
      if |shards| == 0 {
        return -1;
      }
      return (hash(key) as int) % |shards|;
    }

    /** `GetShard`: no backend without shards, otherwise the one at the hash
        modulo the shard count. */
    method GetShard(key: string) returns (b: Option<B>)
      ensures |shards| == 0 <==> b.None?
      ensures |shards| > 0 ==> b == Some(shards[(hash(key) as int) % |shards|])
    {
      if |shards| == 0 {
        return None;
      }
      var index := (hash(key) as int) % |shards|;
      return Some(shards[index]);
    }
  }

  // ---------------------------------------------------------------------------

  /** `string(rune(cp))`: invalid code points become U+FFFD. */
  function RuneOf(cp: int): char {
    if 0 <= cp < 0xD800 || 0xE000 <= cp <= 0x10FFFF then cp as char else '�'
  }

  /** The first byte of a character's UTF-8 encoding: `s[0]` on a Go string. */
  function FirstByte(c: char): (b: int)
    ensures 0 <= b < 256
    ensures c as int < 0x80 ==> b == c as int
  {
    var cp := c as int;
    if cp < 0x80 then cp
    else if cp < 0x800 then 0xC0 + cp / 0x40
    else if cp < 0x10000 then 0xE0 + cp / 0x1000
    else 0xF0 + cp / 0x40000
  }

  /** The boundary `AddShard` records for the shard that makes the count `n`. */
  function Boundary(n: int): string {
    [RuneOf('a' as int + n - 1)]
  }

  /** The first range whose boundary byte is at least `b`, if any. */
  function FirstRange(ranges: seq<string>, b: int): (i: nat)
    requires forall j :: 0 <= j < |ranges| ==> |ranges[j]| > 0
    ensures i <= |ranges|
    ensures forall j :: 0 <= j < i ==> b > FirstByte(ranges[j][0])
    ensures i < |ranges| ==> b <= FirstByte(ranges[i][0])
  {
    if ranges == [] then 0
    else if b <= FirstByte(ranges[0][0]) then 0
    else 1 + FirstRange(ranges[1..], b)
  }

  /** `RangeSharder`: alphabetical boundaries, one per shard. */
  class RangeSharder<B> {
    var shards: seq<B>
    var ranges: seq<string>

    ghost predicate Valid()
      reads this
    {
      |ranges| == |shards| && forall j :: 0 <= j < |ranges| ==> |ranges[j]| > 0
    }

    constructor ()
      ensures shards == [] && ranges == [] && Valid()
    {
      shards := [];
      ranges := [];
    }

    /** Shard `i` (counting from 0 at the time it is added) gets boundary 'a' + i. */
    method AddShard(backend: B) returns (r: Outcome)
      requires Valid()
      modifies this
      ensures Valid()
      ensures r == Pass && shards == old(shards) + [backend]
      ensures ranges == old(ranges) + [Boundary(|shards|)]
    {
      shards := shards + [backend];
      ranges := ranges + [Boundary(|shards|)];
      return Pass;
    }

    method RemoveShard(index: int) returns (r: Outcome)
      requires Valid()
      modifies this
      ensures Valid()
      ensures (index < 0 || index >= |old(shards)|) ==>
                r == Fail(InvalidShardIndex(index)) && shards == old(shards) && ranges == old(ranges)
      ensures 0 <= index < |old(shards)| ==>
                && r == Pass
                && shards == old(shards)[..index] + old(shards)[index + 1..]
                && ranges == old(ranges)[..index] + old(ranges)[index + 1..]
    {
      if index < 0 || index >= |shards| {
        return Fail(InvalidShardIndex(index));
      }
      shards := shards[..index] + shards[index + 1..];
      ranges := ranges[..index] + ranges[index + 1..];
      return Pass;
    }

    /** -1 without shards; 0 for the empty key; otherwise the first range whose
        boundary byte is at least the key's first byte, else the last shard. */
    method GetShardIndex(key: string) returns (idx: int)
      requires Valid()
      ensures |shards| == 0 ==> idx == -1
      ensures |shards| > 0 && key == "" ==> idx == 0
      ensures |shards| > 0 && key != "" ==>
                idx == (var i := FirstRange(ranges, FirstByte(key[0])); if i < |ranges| then i else |shards| - 1)
      ensures |shards| > 0 ==> 0 <= idx < |shards|
    {
      if |shards| == 0 {
        return -1;
      }
      if |key| == 0 {
        return 0;
      }
      var firstChar := FirstByte(key[0]);
      var i := 0;
      while i < |ranges|
        invariant 0 <= i <= |ranges|
        invariant forall j :: 0 <= j < i ==> firstChar > FirstByte(ranges[j][0])
      {
        if firstChar <= FirstByte(ranges[i][0]) {
          FirstRangeIs(ranges, firstChar, i);
          return i;
        }
        i := i + 1;
      }
      FirstRangeIs(ranges, firstChar, i);
      return |shards| - 1;
    }

    /** `GetShard`: no backend without shards, otherwise the backend at
        `GetShardIndex`, which is never negative once a shard exists. */
    method GetShard(key: string) returns (b: Option<B>)
      requires Valid()
      ensures |shards| == 0 <==> b.None?
      ensures |shards| > 0 && key == "" ==> b == Some(shards[0])
      ensures |shards| > 0 && key != "" ==>
                b == Some(shards[var i := FirstRange(ranges, FirstByte(key[0])); if i < |ranges| then i else |shards| - 1])
    {
      if |shards| == 0 {
        return None;
      }
      var index := GetShardIndex(key);
      return Some(shards[index]);
    }
  }

  lemma {:induction false} FirstRangeIs(ranges: seq<string>, b: int, i: nat)
    requires forall j :: 0 <= j < |ranges| ==> |ranges[j]| > 0
    requires i <= |ranges|
    requires forall j :: 0 <= j < i ==> b > FirstByte(ranges[j][0])
    requires i < |ranges| ==> b <= FirstByte(ranges[i][0])
    ensures FirstRange(ranges, b) == i
  {
    if i > 0 {
      FirstRangeIs(ranges[1..], b, i - 1);
    }
  }

  /** With at most 26 shards the boundaries are the letters 'a', 'b', …: a key
      starting with a lower-case letter goes to that letter's shard. */
  lemma LetterRoutes(shardCount: nat, c: char)
    requires 'a' <= c <= 'z' && (c as int - 'a' as int) < shardCount <= 26
    ensures FirstRange(seq(shardCount, j requires 0 <= j < shardCount => Boundary(j + 1)), FirstByte(c))
              == c as int - 'a' as int
  {
    var ranges := seq(shardCount, j requires 0 <= j < shardCount => Boundary(j + 1));
    FirstRangeIs(ranges, FirstByte(c), c as int - 'a' as int);
  }

  // ---------------------------------------------------------------------------

  datatype SharderKind = Consistent(replicas: int) | HashKind | RangeKind

  /** `NewSharder`: consistent hashing with the configured replicas (100 when not
      positive), the hash or range router, and consistent hashing with 100
      replicas for any other algorithm name. */
  function NewSharder(algorithm: string, replicas: int): (k: SharderKind)
    ensures algorithm == "hash" <==> k == HashKind
    ensures algorithm == "range" <==> k == RangeKind
    ensures k.Consistent? ==> k.replicas > 0
    ensures algorithm == "consistent" && replicas > 0 ==> k == Consistent(replicas)
    ensures algorithm != "consistent" && k.Consistent? ==> k == Consistent(100)
  {
    match algorithm
    case "consistent" => Consistent(if replicas <= 0 then 100 else replicas)
    case "hash" => HashKind
    case "range" => RangeKind
    case _ => Consistent(100)
  }

  /** `ShardKey`: 0 for a non-positive count, otherwise a valid shard index. */
  function ShardKey(key: string, shardCount: int, crc: Hash): (i: int)
    ensures shardCount <= 0 ==> i == 0
    ensures shardCount > 0 ==> 0 <= i < shardCount
  {
    if shardCount <= 0 then 0 else (crc(key) as int) % shardCount
  }

  /** `GenerateShardKey`: "shard:<index>:<key>". */
  function GenerateShardKey(originalKey: string, shardIndex: int): (r: string)
    ensures |r| == 7 + |DecimalString(shardIndex)| + |originalKey|
    ensures r[..6] == "shard:" && r[|r| - |originalKey|..] == originalKey
    ensures r[|r| - |originalKey| - 1] == ':' && ':' !in r[6..|r| - |originalKey| - 1]
  {
    "shard:" + DecimalString(shardIndex) + ":" + originalKey
  }

  /** What `ExtractOriginalKey` returns: the segments after the index joined back
      with ':', or the input itself when it is not in the shard-key format. */
  function Extracted(shardKey: string): string {
    var parts := Split(shardKey, ':');
    if |parts| >= 3 && parts[0] == "shard" then Join(parts[2..], ':') else shardKey
  }

  lemma {:induction false} JoinSnoc(parts: seq<string>, p: string, d: char)
    requires parts != []
    ensures Join(parts + [p], d) == Join(parts, d) + [d] + p
    decreases |parts|
  {
    if |parts| == 1 {
      assert (parts + [p])[1..] == [p];
    } else {
      assert (parts + [p])[1..] == parts[1..] + [p];
      JoinSnoc(parts[1..], p, d);
    }
  }

  /** Extending a slice by one element appends that element. */
  lemma SliceExtend(parts: seq<string>, a: int, b: int)
    requires 0 <= a <= b < |parts|
    ensures parts[a..b + 1] == parts[a..b] + [parts[b]]
  {
  }

  /** `ExtractOriginalKey`: split on ':' as the loop does, then join the segments
      from the third on. */
  method ExtractOriginalKey(shardKey: string) returns (result: string)
    ensures result == Extracted(shardKey)
  {
    var parts: seq<string> := [];
    var current := "";
    var i := 0;
    while i < |shardKey|
      invariant 0 <= i <= |shardKey|
      invariant parts + SplitFrom(shardKey[i..], ':', current) == Split(shardKey, ':')
    {
      assert shardKey[i..][0] == shardKey[i] && shardKey[i..][1..] == shardKey[i + 1..];
      if shardKey[i] == ':' {
        parts := parts + [current];
        current := "";
      } else {
        current := current + [shardKey[i]];
      }
      i := i + 1;
    }
    if current != "" {
      parts := parts + [current];
    }
    assert parts == Split(shardKey, ':');
    if |parts| >= 3 && parts[0] == "shard" {
      result := "";
      var j := 2;
      while j < |parts|
        invariant 2 <= j <= |parts|
        invariant j == 2 ==> result == ""
        invariant j > 2 ==> result == Join(parts[2..j], ':')
      {
        if j > 2 {
          SliceExtend(parts, 2, j);
          JoinSnoc(parts[2..j], parts[j], ':');
          result := result + ":";
        } else {
          SliceExtend(parts, 2, 2);
        }
        result := result + parts[j];
        j := j + 1;
      }
      assert parts[2..j] == parts[2..];
      return result;
    }
    return shardKey;
  }

  /** Extracting from a generated shard key gives the original key back, as long
      as it is not empty and does not end with ':'. */
  lemma ExtractGenerated(k: string, i: int)
    requires k != [] && k[|k| - 1] != ':'
    ensures Extracted(GenerateShardKey(k, i)) == k
  {
    var dec := DecimalString(i);
    assert ':' !in dec;
    assert ':' !in "shard";
    var s := GenerateShardKey(k, i);
    assert s == "shard" + [':'] + (dec + [':'] + k);
    SplitFromPrefix("shard", dec + [':'] + k, ':', []);
    SplitFromPrefix(dec, k, ':', []);
    assert [] + "shard" == "shard" && [] + dec == dec;
    var parts := Split(s, ':');
    SplitFromNonEmpty(k, ':', []);
    assert parts == ["shard", dec] + Split(k, ':');
    assert parts[2..] == Split(k, ':');
    SplitJoin(k, ':');
  }

  /** The key `ExtractOriginalKey` loses: "shard:<i>:a:" splits into "shard",
      "<i>" and "a", since the loop keeps no empty last segment, so the generated
      key of "a:" extracts to "a". */
  lemma ExtractDropsTrailingColon(i: int)
    ensures Extracted(GenerateShardKey("a:", i)) == "a"
  {
    var dec := DecimalString(i);
    assert ':' !in dec;
    assert ':' !in "shard";
    var s := GenerateShardKey("a:", i);
    assert s == "shard" + [':'] + (dec + [':'] + "a:");
    SplitFromPrefix("shard", dec + [':'] + "a:", ':', []);
    SplitFromPrefix(dec, "a:", ':', []);
    assert [] + "shard" == "shard" && [] + dec == dec;
    assert "a:" == "a" + [':'] + [];
    SplitFromPrefix("a", [], ':', []);
    assert [] + "a" == "a" && SplitFrom([], ':', []) == [];
    assert Split("a:", ':') == ["a"];
    assert Split(s, ':') == ["shard", dec, "a"];
  }

  /** `ExtractOriginalKey` as its format intends: split on every ':' keeping
      empty segments, as `strings.Split` does, and join the segments after the
      index. */
  function ExtractedIntended(shardKey: string): string {
    var parts := SplitAll(shardKey, ':');
    if |parts| >= 3 && parts[0] == "shard" then Join(parts[2..], ':') else shardKey
  }

  /** The intended extraction inverts `GenerateShardKey` for every key, the
      empty key and keys ending with ':' included. */
  lemma ExtractIntendedGenerated(k: string, i: int)
    ensures ExtractedIntended(GenerateShardKey(k, i)) == k
  {
    var dec := DecimalString(i);
    assert ':' !in dec;
    assert ':' !in "shard";
    var s := GenerateShardKey(k, i);
    assert s == "shard" + [':'] + (dec + [':'] + k);
    SplitAllFromPrefix("shard", dec + [':'] + k, ':', []);
    SplitAllFromPrefix(dec, k, ':', []);
    assert [] + "shard" == "shard" && [] + dec == dec;
    var parts := SplitAll(s, ':');
    assert parts == ["shard", dec] + SplitAll(k, ':');
    assert parts[2..] == SplitAll(k, ':');
    SplitAllFromJoin(k, ':', []);
    assert [] + k == k;
  }

  /** Strings outside the shard-key format come back unchanged. */
  lemma ExtractOther(s: string)
    requires |Split(s, ':')| < 3 || Split(s, ':')[0] != "shard"
    ensures Extracted(s) == s
  {
  }
}
