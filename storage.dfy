/**
 * The partitioned cache shell of `ConcurrentARC`: an array of 2^k sub-caches,
 * each key routed to the one at `hashCode & mask`, with whole-cache
 * operations that loop over all of them.
 *
 * The sub-caches (`HashARC`, `ComparableARC`) are not part of this model:
 * each partition is seen as the finite map it stores, and their eviction is
 * not modelled.
 */
module Storage {
  import opened Wrappers
  import opened JavaLang

  /** The largest partition count the doubling loop reaches without overflowing an `int`. */
  const MaxPartitions: int := 0x4000_0000

  ghost predicate IsPowerOfTwo(n: int) {
    exists k: nat :: Pow2(k) == n
  }

  lemma Pow2ThirtyIsMax()
    ensures Pow2(30) == MaxPartitions
  {
    assert Pow2(5) == 32;
    Pow2Add(5, 5);
    Pow2Add(10, 10);
    Pow2Add(20, 10);
  }

  /** Doubling a power of two below `MaxPartitions` does not pass it. */
  lemma DoubleStaysBelowMax(e: nat)
    requires Pow2(e) < MaxPartitions
    ensures Pow2(e + 1) <= MaxPartitions
  {
    Pow2ThirtyIsMax();
    if e >= 30 {
      Pow2Monotone(30, e);
    } else {
      Pow2Monotone(e + 1, 30);
    }
  }

  function Min(a: int, b: int): int {
    if a <= b then a else b
  }

  /**
   * The partition count the constructors allocate: the least power of two
   * that is at least `partitions`. The doubling loop stops at `MaxPartitions`,
   * the largest power of two an `int` holds; the Java loop has no such stop
   * and never ends beyond it (see `DoublingAsWritten`).
   */
  method PartitionCount(partitions: int32) returns (m: int)
    ensures IsPowerOfTwo(m) && 1 <= m <= MaxPartitions
    ensures partitions <= MaxPartitions ==> partitions <= m
    ensures partitions > MaxPartitions ==> m == MaxPartitions
    ensures forall k: nat :: Min(partitions, MaxPartitions) <= Pow2(k) ==> m <= Pow2(k)
  {
    m := 1;
    ghost var e: nat := 0;
    while m < partitions && m < MaxPartitions
      invariant m == Pow2(e) && m <= MaxPartitions
      invariant e == 0 || Pow2(e - 1) < Min(partitions, MaxPartitions)
      decreases MaxPartitions - m
    {
      DoubleStaysBelowMax(e);
      m := m * 2;
      e := e + 1;
    }
    forall k: nat | Min(partitions, MaxPartitions) <= Pow2(k)
      ensures m <= Pow2(k)
    {
      if e > 0 {
        if k < e {
          Pow2Monotone(k, e - 1);
        } else {
          Pow2Monotone(e, k);
        }
      }
    }
  }

  /** Java's `m = m * 2` on an `int`. */
  function DoubleAsWritten(m: int32): (r: int32)
    ensures -0x4000_0000 <= m < 0x4000_0000 ==> r == 2 * m
    ensures (2 * m - r) % 0x1_0000_0000 == 0
  {
    Wrap32(m * 2)
  }

  /**
   * The value of `m` after `n` rounds of `m = m * 2` from `m = 1`: the doubling
   * loop as written. Up to round 30 it runs through the powers of two; round
   * 31 wraps to -2^31, round 32 to 0, and 0 doubles to 0 for ever.
   */
  function DoublingAsWritten(n: nat): (r: int32)
    ensures n <= 30 ==> r == Pow2(n)
    ensures n == 31 ==> r == -0x8000_0000
    ensures n >= 32 ==> r == 0
  {
    if n == 0 then 1
    else
      var m := DoublingAsWritten(n - 1);
      Pow2ThirtyIsMax();
      Pow2Monotone(Min(n, 30), 30);
      assert n == 31 ==> m == 0x4000_0000;
      assert n == 32 ==> m == -0x8000_0000;
      DoubleAsWritten(m)
  }

  /**
   * For `partitions` above 2^30 the guard `m < partitions` of the doubling
   * loop as written holds after every number of rounds: the loop never ends.
   */
  lemma PartitionLoopAsWrittenHangs(partitions: int32)
    requires partitions > MaxPartitions
    ensures forall n: nat :: DoublingAsWritten(n) < partitions
  {
    forall n: nat
      ensures DoublingAsWritten(n) < partitions
    {
      if n <= 30 {
        Pow2ThirtyIsMax();
        Pow2Monotone(n, 30);
      }
    }
  }


  // ---------------------------------------------------------------- routing

  /** The partition of key `k`: `k.hashCode() & mask`. */
  function Slot<K>(hash: K -> int32, mask: nat, k: K): (i: nat)
    ensures i <= mask
  {
    BitAnd(hash(k), mask)
  }

  /** For a partition count `m = 2^e` and `mask = m - 1`, routing is the hash modulo `m`. */
  lemma SlotIsModulo<K>(hash: K -> int32, e: nat, k: K)
    ensures Slot(hash, Pow2(e) - 1, k) == hash(k) % Pow2(e)
  {
    BitAndLowMask(hash(k), e);
  }

  /** Every key is stored in the partition it is routed to. */
  ghost predicate Homed<K, V>(parts: seq<map<K, V>>, hash: K -> int32, mask: nat) {
    forall j, k :: 0 <= j < |parts| && k in parts[j] ==> Slot(hash, mask, k) == j
  }

  // ---------------------------------------------------------------- whole-cache views

  /** `map.get(k)`: the value, or null. */
  function Lookup<K, V>(m: map<K, V>, k: K): Option<V> {
    if k in m then Some(m[k]) else None
  }

  /** All partitions merged into one map. */
  ghost function Union<K, V>(parts: seq<map<K, V>>): map<K, V> {
    if parts == [] then map[] else Union(parts[..|parts| - 1]) + parts[|parts| - 1]
  }

  /** The sum of the partitions' sizes. */
  function SumSizes<K, V>(parts: seq<map<K, V>>): nat {
    if parts == [] then 0 else SumSizes(parts[..|parts| - 1]) + |parts[|parts| - 1]|
  }

  /** The entry set of one map. */
  ghost function Entries<K, V>(m: map<K, V>): set<(K, V)> {
    set k | k in m :: (k, m[k])
  }

  /** The union of the partitions' entry sets. */
  ghost function UnionEntries<K, V>(parts: seq<map<K, V>>): set<(K, V)> {
    if parts == [] then {} else UnionEntries(parts[..|parts| - 1]) + Entries(parts[|parts| - 1])
  }

  /** With every key in its home partition, the merged map holds `k` exactly as that partition does. */
  lemma {:induction false} UnionLookup<K, V>(parts: seq<map<K, V>>, hash: K -> int32, mask: nat, k: K)
    requires Homed(parts, hash, mask)
    ensures k in Union(parts) <==> Slot(hash, mask, k) < |parts| && k in parts[Slot(hash, mask, k)]
    ensures k in Union(parts) ==> Union(parts)[k] == parts[Slot(hash, mask, k)][k]
  {
    if parts != [] {
      var init := parts[..|parts| - 1];
      assert Homed(init, hash, mask) by {
        forall j, k' | 0 <= j < |init| && k' in init[j]
          ensures Slot(hash, mask, k') == j
        {
          assert init[j] == parts[j];
        }
      }
      UnionLookup(init, hash, mask, k);
    }
  }

  lemma MapsEqual<K, V>(got: map<K, V>, want: map<K, V>)
    requires forall k :: k in got ==> k in want && got[k] == want[k]
    requires forall k :: k in want ==> k in got
    ensures got == want
  {
  }

  /** Storing `s` in its home partition stores it in the merged map and keeps every key homed. */
  lemma UnionPut<K, V>(parts: seq<map<K, V>>, hash: K -> int32, mask: nat, s: K, v: V)
    requires Homed(parts, hash, mask) && Slot(hash, mask, s) < |parts|
    ensures var i := Slot(hash, mask, s);
      Homed(parts[i := parts[i][s := v]], hash, mask) &&
      Union(parts[i := parts[i][s := v]]) == Union(parts)[s := v]
  {
    var i := Slot(hash, mask, s);
    var after := parts[i := parts[i][s := v]];
    assert Homed(after, hash, mask);
    var got, want := Union(after), Union(parts)[s := v];
    forall k | k in got
      ensures k in want && got[k] == want[k]
    {
      UnionLookup(parts, hash, mask, k);
      UnionLookup(after, hash, mask, k);
    }
    forall k | k in want
      ensures k in got
    {
      UnionLookup(parts, hash, mask, k);
      UnionLookup(after, hash, mask, k);
    }
    MapsEqual(got, want);
  }

  /** Deleting `s` from its home partition deletes it from the merged map and keeps every key homed. */
  lemma UnionRemove<K, V>(parts: seq<map<K, V>>, hash: K -> int32, mask: nat, s: K)
    requires Homed(parts, hash, mask) && Slot(hash, mask, s) < |parts|
    ensures var i := Slot(hash, mask, s);
      Homed(parts[i := parts[i] - {s}], hash, mask) &&
      Union(parts[i := parts[i] - {s}]) == Union(parts) - {s}
  {
    var i := Slot(hash, mask, s);
    var after := parts[i := parts[i] - {s}];
    assert Homed(after, hash, mask);
    var got, want := Union(after), Union(parts) - {s};
    forall k | k in got
      ensures k in want && got[k] == want[k]
    {
      UnionLookup(parts, hash, mask, k);
      UnionLookup(after, hash, mask, k);
    }
    forall k | k in want
      ensures k in got
    {
      UnionLookup(parts, hash, mask, k);
      UnionLookup(after, hash, mask, k);
    }
    MapsEqual(got, want);
  }

  /** Homed partitions hold disjoint key sets, so the merged map's size is the sum of their sizes. */
  lemma {:induction false} UnionSize<K, V>(parts: seq<map<K, V>>, hash: K -> int32, mask: nat)
    requires Homed(parts, hash, mask)
    ensures |Union(parts)| == SumSizes(parts)
  {
    if parts != [] {
      var n := |parts| - 1;
      var init := parts[..n];
      assert Homed(init, hash, mask) by {
        forall j, k' | 0 <= j < |init| && k' in init[j]
          ensures Slot(hash, mask, k') == j
        {
          assert init[j] == parts[j];
        }
      }
      UnionSize(init, hash, mask);
      var u := Union(init);
      assert u.Keys !! parts[n].Keys by {
        forall k | k in u && k in parts[n]
          ensures false
        {
          UnionLookup(init, hash, mask, k);
        }
      }
      assert |(u + parts[n]).Keys| == |u.Keys| + |parts[n].Keys| by {
        assert (u + parts[n]).Keys == u.Keys + parts[n].Keys;
      }
    }
  }

  /** Homed partitions: the union of their entry sets is the entry set of the merged map. */
  lemma {:induction false} UnionEntriesOfUnion<K, V>(parts: seq<map<K, V>>, hash: K -> int32, mask: nat)
    requires Homed(parts, hash, mask)
    ensures UnionEntries(parts) == Entries(Union(parts))
  {
    if parts != [] {
      var n := |parts| - 1;
      var init := parts[..n];
      assert Homed(init, hash, mask) by {
        forall j, k' | 0 <= j < |init| && k' in init[j]
          ensures Slot(hash, mask, k') == j
        {
          assert init[j] == parts[j];
        }
      }
      UnionEntriesOfUnion(init, hash, mask);
      var u := Union(init);
      forall e | e in Entries(u + parts[n])
        ensures e in Entries(u) + Entries(parts[n])
      {
      }
      forall e | e in Entries(u) + Entries(parts[n])
        ensures e in Entries(u + parts[n])
      {
        if e in Entries(u) && e.0 in parts[n] {
          UnionLookup(init, hash, mask, e.0);
        }
      }
    }
  }

  // ---------------------------------------------------------------- the cache

  /** Which sub-cache class the constructor chose: `HashARC`, or `ComparableARC` with its comparator. */
  datatype PartitionKind<!K> = Hashed | Ordered(compare: (K, K) -> int)

  /**
   * `ConcurrentARC<K, V>`: a fixed array of partitions and the mask that routes
   * a key's hash code to one of them. `hash` is the keys' `hashCode()`.
   */
  class ConcurrentArc<K(==), V(==)> {
    const hash: K -> int32
    const kind: PartitionKind<K>
    /** The capacity every partition was created with: `cacheSize / m`. */
    const partitionCapacity: int
    const mask: nat
    const arc: array<map<K, V>>

    ghost predicate Valid()
      reads arc
    {
      && IsPowerOfTwo(arc.Length)
      && arc.Length <= MaxPartitions
      && mask == arc.Length - 1
      && Homed(arc[..], hash, mask)
    }

    /** The cache seen as one map: all partitions merged. */
    ghost function Contents(): map<K, V>
      reads arc
    {
      Union(arc[..])
    }

    /** `ConcurrentARC(cacheSize, partitions)`, with `HashARC` partitions. */
    constructor (cacheSize: int32, partitions: int32, hash: K -> int32)
      ensures Valid() && fresh(arc)
      ensures this.hash == hash && kind == Hashed
      ensures partitions <= MaxPartitions ==> partitions <= arc.Length
      ensures partitions > MaxPartitions ==> arc.Length == MaxPartitions
      ensures forall k: nat :: Min(partitions, MaxPartitions) <= Pow2(k) ==> arc.Length <= Pow2(k)
      ensures partitionCapacity == JavaDiv(cacheSize, arc.Length)
      ensures forall j :: 0 <= j < arc.Length ==> arc[j] == map[]
      ensures Contents() == map[]
    {
      var m := PartitionCount(partitions);
      var a := new map<K, V>[m];
      for i := 0 to m
        invariant forall j :: 0 <= j < i ==> a[j] == map[]
      {
        a[i] := map[];
      }
      this.hash := hash;
      kind := Hashed;
      partitionCapacity := JavaDiv(cacheSize, m);
      arc := a;
      mask := m - 1;
      new;
      EmptyPartitionsEmptyCache();
    }

    /** `ConcurrentARC(cacheSize, partitions, comparator)`, with `ComparableARC` partitions. */
    constructor WithComparator(cacheSize: int32, partitions: int32, hash: K -> int32, comparator: (K, K) -> int)
      ensures Valid() && fresh(arc)
      ensures this.hash == hash && kind == Ordered(comparator)
      ensures partitions <= MaxPartitions ==> partitions <= arc.Length
      ensures partitions > MaxPartitions ==> arc.Length == MaxPartitions
      ensures forall k: nat :: Min(partitions, MaxPartitions) <= Pow2(k) ==> arc.Length <= Pow2(k)
      ensures partitionCapacity == JavaDiv(cacheSize, arc.Length)
      ensures forall j :: 0 <= j < arc.Length ==> arc[j] == map[]
      ensures Contents() == map[]
    {
      var m := PartitionCount(partitions);
      var a := new map<K, V>[m];
      for i := 0 to m
        invariant forall j :: 0 <= j < i ==> a[j] == map[]
      {
        a[i] := map[];
      }
      this.hash := hash;
      kind := Ordered(comparator);
      partitionCapacity := JavaDiv(cacheSize, m);
      arc := a;
      mask := m - 1;
      new;
      EmptyPartitionsEmptyCache();
    }

    /** With all partitions empty, so is the cache. */
    lemma EmptyPartitionsEmptyCache()
      requires Homed(arc[..], hash, mask)
      requires forall j :: 0 <= j < arc.Length ==> arc[j] == map[]
      ensures Contents() == map[]
    {
      forall k | k in Contents()
        ensures false
      {
        UnionLookup(arc[..], hash, mask, k);
      }
    }

    /** `insert(s, v)`: store `v` under `s` in `s`'s partition and nowhere else. */
    method Insert(s: K, v: V)
      requires Valid()
      modifies arc
      ensures Valid()
      ensures arc[..] == old(arc[..])[Slot(hash, mask, s) := old(arc[Slot(hash, mask, s)])[s := v]]
      ensures Contents() == old(Contents())[s := v]
    {
      var i := Slot(hash, mask, s);
      UnionPut(arc[..], hash, mask, s, v);
      arc[i] := arc[i][s := v];
    }

    /** `put(s, v)`: as `insert`, returning the value `s` had before, if any. */
    method Put(s: K, v: V) returns (prev: Option<V>)
      requires Valid()
      modifies arc
      ensures Valid()
      ensures arc[..] == old(arc[..])[Slot(hash, mask, s) := old(arc[Slot(hash, mask, s)])[s := v]]
      ensures prev == Lookup(old(arc[Slot(hash, mask, s)]), s)
      ensures prev == Lookup(old(Contents()), s)
      ensures Contents() == old(Contents())[s := v]
    {
      var i := Slot(hash, mask, s);
      UnionLookup(arc[..], hash, mask, s);
      UnionPut(arc[..], hash, mask, s, v);
      prev := Lookup(arc[i], s);
      arc[i] := arc[i][s := v];
    }

    /** `get(s)`: the answer of `s`'s partition, which is the cache's value for `s`. */
    method Get(s: K) returns (r: Option<V>)
      requires Valid()
      ensures r == Lookup(arc[Slot(hash, mask, s)], s)
      ensures r == Lookup(Contents(), s)
    {
      UnionLookup(arc[..], hash, mask, s);
      var i := Slot(hash, mask, s);
      r := Lookup(arc[i], s);
    }

    /** `containsKey(s)`: the answer of `s`'s partition, which is whether the cache holds `s`. */
    method ContainsKey(s: K) returns (b: bool)
      requires Valid()
      ensures b == (s in arc[Slot(hash, mask, s)])
      ensures b == (s in Contents())
    {
      UnionLookup(arc[..], hash, mask, s);
      var i := Slot(hash, mask, s);
      b := s in arc[i];
    }

    /** `remove(s)`: delete `s` from its partition, returning its old value, if any. */
    method Remove(s: K) returns (prev: Option<V>)
      requires Valid()
      modifies arc
      ensures Valid()
      ensures arc[..] == old(arc[..])[Slot(hash, mask, s) := old(arc[Slot(hash, mask, s)]) - {s}]
      ensures prev == Lookup(old(Contents()), s)
      ensures Contents() == old(Contents()) - {s}
    {
      var i := Slot(hash, mask, s);
      UnionLookup(arc[..], hash, mask, s);
      UnionRemove(arc[..], hash, mask, s);
      prev := Lookup(arc[i], s);
      arc[i] := arc[i] - {s};
    }

    /** `clear()`: empty every partition. */
    method Clear()
      requires Valid()
      modifies arc
      ensures Valid()
      ensures forall j :: 0 <= j < arc.Length ==> arc[j] == map[]
      ensures Contents() == map[]
    {
      for i := 0 to arc.Length
        invariant forall j :: 0 <= j < i ==> arc[j] == map[]
        invariant forall j :: i <= j < arc.Length ==> arc[j] == old(arc[j])
      {
        arc[i] := map[];
      }
      EmptyPartitionsEmptyCache();
    }

    /**
     * `size()`: the partition sizes added up in an `int`, which is the number
     * of keys in the cache as long as that number fits an `int`.
     */
    method Size() returns (n: int32)
      requires Valid()
      ensures n == Wrap32(SumSizes(arc[..]))
      ensures |Contents()| < 0x8000_0000 ==> n == |Contents()|
    {
      n := 0;
      for i := 0 to arc.Length
        invariant n == Wrap32(SumSizes(arc[..i]))
      {
        assert arc[..i + 1][..i] == arc[..i];
        Wrap32Add(SumSizes(arc[..i]), |arc[i]|);
        n := Wrap32(n + |arc[i]|);
      }
      assert arc[..arc.Length] == arc[..];
      UnionSize(arc[..], hash, mask);
    }

    /** `entrySet()`: every partition's entries added to one set, which is the cache's entry set. */
    method EntrySet() returns (m: set<(K, V)>)
      requires Valid()
      ensures m == UnionEntries(arc[..])
      ensures m == Entries(Contents())
    {
      m := {};
      for i := 0 to arc.Length
        invariant m == UnionEntries(arc[..i])
      {
        var a := arc[i];
        ghost var before := m;
        var todo := a.Keys;
        while todo != {}
          invariant todo <= a.Keys
          invariant m == before + (set k | k in a && k !in todo :: (k, a[k]))
          decreases todo
        {
          var k :| k in todo;
          m := m + {(k, a[k])};
          todo := todo - {k};
        }
        assert arc[..i + 1][..i] == arc[..i];
      }
      assert arc[..arc.Length] == arc[..];
      UnionEntriesOfUnion(arc[..], hash, mask);
    }
  }
}
