/** HashMap.h: an open-addressing hash map with linear probing and backward-shift deletion. */
module HashMaps {
  import opened Word64
  import opened ProbeTable

  /** More entries than this do not fit in memory: doubling the table stays below 2^63 buckets. */
  const MAX_ENTRIES: nat := 0x2000_0000_0000_0000

  class HashMap<K(==), V> {
    const hasher: K -> Word
    /** The value a default-constructed bucket carries. */
    const blank: V
    var emptyKey: K
    var buckets: seq<Bucket<K, V>>
    var size: nat

    ghost predicate Valid()
      reads this
    {
      && IsTableSize(|buckets|)
      && Unique(buckets, emptyKey)
      && Reachable(buckets, emptyKey, Ideal(hasher, |buckets|))
      && size == Count(buckets, emptyKey)
      && 2 * size <= |buckets|
      && size <= MAX_ENTRIES
    }

    /** The finite map this table stands for. */
    ghost function View(): map<K, V>
      reads this
    {
      Contents(buckets, emptyKey)
    }

    static ghost function Ideal(hasher: K -> Word, n: nat): K -> nat {
      k => if IsTableSize(n) then KeyToIdx(hasher, n, k) else 0
    }

    /** The number of buckets is rounded up to a power of two. */
    constructor (hasher: K -> Word, bucketCount: nat, emptyKey: K, blank: V)
      requires bucketCount <= TOP_BIT
      ensures Valid() && View() == map[] && size == 0
      ensures this.emptyKey == emptyKey && this.hasher == hasher && this.blank == blank
      ensures bucketCount <= |buckets| && (|buckets| > 1 ==> |buckets| < 2 * bucketCount)
    {
      var pow2 := RoundUp(bucketCount);
      this.hasher := hasher;
      this.blank := blank;
      this.emptyKey := emptyKey;
      this.buckets := seq(pow2, _ => Bucket(emptyKey, blank));
      this.size := 0;
      new;
      StartsEmpty();
    }

    /** A table of another size with the entries of `other`, filled through Emplace. */
    constructor Copy(other: HashMap<K, V>, bucketCount: nat)
      requires other.Valid() && bucketCount <= TOP_BIT
      ensures Valid() && View() == other.View() && size == other.size
      ensures emptyKey == other.emptyKey && hasher == other.hasher && blank == other.blank
      ensures bucketCount <= |buckets|
      ensures 2 * other.size <= bucketCount ==> |buckets| > 1 ==> |buckets| < 2 * bucketCount
      decreases if 2 * other.size <= bucketCount then 1 else 2, 0
    {
      var pow2 := RoundUp(bucketCount);
      hasher := other.hasher;
      blank := other.blank;
      emptyKey := other.emptyKey;
      var free := Bucket(other.emptyKey, other.blank);
      buckets := seq(pow2, _ => free);
      size := 0;
      new;
      StartsEmpty();
      InsertAll(other);
    }

    /** The loop of the copy constructor: inserts every entry of `other` into this empty table. */
    method InsertAll(other: HashMap<K, V>)
      requires Valid() && other.Valid() && other != this && View() == map[] && size == 0
      requires emptyKey == other.emptyKey
      modifies this
      ensures Valid() && emptyKey == other.emptyKey && View() == other.View() && size == other.size
      ensures old(|buckets|) <= |buckets|
      ensures 2 * other.size <= old(|buckets|) ==> |buckets| == old(|buckets|)
      decreases if 2 * other.size <= |buckets| then 0 else 1, 4
    {
      hide Valid, Unique, Reachable, Holds, Contents;
      ghost var theirs := other.buckets;
      Parts();
      other.Parts();
      var it := other.AdvancePastEmpty(0);
      CopyStarts(theirs, emptyKey, it);
      while it < |other.buckets|
        invariant 0 <= it <= |theirs| && (it < |theirs| ==> theirs[it].first != emptyKey)
        invariant Valid() && Holds(theirs[..it], emptyKey, View()) && size == Count(theirs[..it], emptyKey)
        invariant emptyKey == other.emptyKey && other.buckets == theirs
        invariant size <= other.size
        invariant 2 * other.size <= old(|buckets|) ==> |buckets| == old(|buckets|)
        invariant old(|buckets|) <= |buckets|
      {
        assert size < other.size by { CopyContinues(theirs, emptyKey, it, View()); }
        Insert(other.buckets, it);
        var next := other.AdvancePastEmpty(it + 1);
        SkipFree(theirs, emptyKey, it + 1, next, View());
        it := next;
      }
      assert theirs[..it] == theirs;
      HeldIsContents(theirs, emptyKey, View());
    }

    lemma Parts()
      requires Valid()
      ensures Unique(buckets, emptyKey) && size == Count(buckets, emptyKey) && size <= MAX_ENTRIES
    {
    }

    static method RoundUp(bucketCount: nat) returns (pow2: nat)
      requires bucketCount <= TOP_BIT
      ensures IsTableSize(pow2) && bucketCount <= pow2
      ensures pow2 > 1 ==> pow2 < 2 * bucketCount
    {
      pow2 := 1;
      assert Pow2(0) == 1;
      while pow2 < bucketCount
        invariant IsTableSize(pow2)
        invariant pow2 > 1 ==> pow2 < 2 * bucketCount
        decreases bucketCount - pow2
      {
        DoubleIsPow2(pow2);
        DoubleFits(pow2);
        pow2 := 2 * pow2;
      }
    }

    lemma StartsEmpty()
      requires IsTableSize(|buckets|) && size == 0
      requires forall i :: 0 <= i < |buckets| ==> buckets[i].first == emptyKey
      ensures Valid() && View() == map[]
    {
      CountOfFree(buckets, emptyKey);
      HeldIsContents(buckets, emptyKey, map[]);
    }

    // ---- iteration ----

    method AdvancePastEmpty(idx: nat) returns (next: nat)
      requires idx <= |buckets|
      ensures idx <= next <= |buckets|
      ensures forall i :: idx <= i < next ==> buckets[i].first == emptyKey
      ensures next < |buckets| ==> buckets[next].first != emptyKey
    {
      next := idx;
      while next < |buckets| && buckets[next].first == emptyKey
        invariant idx <= next <= |buckets|
        invariant forall i :: idx <= i < next ==> buckets[i].first == emptyKey
      {
        next := next + 1;
      }
    }

    // ---- lookup ----

    /** The probe loop of find and emplace: the first bucket that holds the key or is free. */
    method Probe(key: K) returns (idx: nat)
      requires Valid() && key != emptyKey
      ensures idx < |buckets|
      ensures if key in View() then buckets[idx] == Bucket(key, View()[key]) else buckets[idx].first == emptyKey
      ensures var home := Ideal(hasher, |buckets|)(key);
        home < |buckets| && Scanned(buckets, emptyKey, key, home, Dist(|buckets|, home, idx))
    {
      var home := KeyToIdx(hasher, |buckets|, key);
      idx := home;
      ghost var free := FreeBucketExists(buckets, emptyKey);
      ghost var steps := 0;
      while buckets[idx].first != key && buckets[idx].first != emptyKey
        invariant idx < |buckets| && Dist(|buckets|, home, idx) == steps <= Dist(|buckets|, home, free)
        invariant Scanned(buckets, emptyKey, key, home, steps)
        decreases |buckets| - steps
      {
        ScanOn(buckets, emptyKey, key, home, idx);
        idx := ProbeNext(|buckets|, idx);
        steps := steps + 1;
      }
      ContentsHold(buckets, emptyKey);
      if buckets[idx].first != key {
        MissIsAbsent(buckets, emptyKey, Ideal(hasher, |buckets|), key, idx);
      }
    }

    /** The bucket of the key, or the end of the table. */
    method Find(key: K) returns (it: nat)
      requires Valid() && key != emptyKey
      ensures key in View() ==> it < |buckets| && buckets[it] == Bucket(key, View()[key])
      ensures key !in View() ==> it == |buckets|
    {
      it := Probe(key);
      if buckets[it].first != key {
        it := |buckets|;
      }
    }

    // ---- modifiers ----

    predicate NeedsGrowth(count: nat)
      reads this
    {
      count * 2 > |buckets|
    }

    /** Adds the key only when it is absent; an entry that is there keeps its value. */
    method Emplace(key: K, value: V) returns (it: nat, inserted: bool)
      requires Valid() && key != emptyKey && size < MAX_ENTRIES
      modifies this
      ensures Valid() && emptyKey == old(emptyKey)
      ensures inserted <==> key !in old(View())
      ensures View() == if inserted then old(View())[key := value] else old(View())
      ensures size == old(size) + if inserted then 1 else 0
      ensures it < |buckets| && buckets[it] == Bucket(key, View()[key])
      ensures |buckets| == if 2 * (old(size) + 1) > old(|buckets|) then 2 * old(|buckets|) else old(|buckets|)
      decreases if NeedsGrowth(size + 1) then 1 else 0, 2
    {
      Reserve(size + 1);
      it := Probe(key);
      inserted := buckets[it].first == emptyKey;
      if inserted {
        Fill(it, key, value);
      }
    }

    /** Fills the free bucket that ends the probe of an absent key. */
    method Fill(idx: nat, key: K, value: V)
      requires Valid() && key != emptyKey && size < MAX_ENTRIES && 2 * (size + 1) <= |buckets|
      requires idx < |buckets| && buckets[idx].first == emptyKey
      requires var home := Ideal(hasher, |buckets|)(key);
        home < |buckets| && Scanned(buckets, emptyKey, key, home, Dist(|buckets|, home, idx))
      modifies this
      ensures Valid() && emptyKey == old(emptyKey)
      ensures buckets == old(buckets)[idx := Bucket(key, value)] && size == old(size) + 1
      ensures key !in old(View()) && View() == old(View())[key := value]
    {
      InsertAtFree(buckets, emptyKey, Ideal(hasher, |buckets|), Bucket(key, value), idx);
      buckets := buckets[idx := Bucket(key, value)];
      size := size + 1;
    }

    /** Inserts the entry that follows a copied prefix of another table. */
    method Insert(theirs: seq<Bucket<K, V>>, it: nat)
      requires Valid() && Unique(theirs, emptyKey) && Count(theirs, emptyKey) <= MAX_ENTRIES
      requires it < |theirs| && theirs[it].first != emptyKey
      requires Holds(theirs[..it], emptyKey, View()) && size == Count(theirs[..it], emptyKey)
      modifies this
      ensures Valid() && emptyKey == old(emptyKey)
      ensures Holds(theirs[..it + 1], emptyKey, View()) && size == Count(theirs[..it + 1], emptyKey)
      ensures size <= Count(theirs, emptyKey)
      ensures |buckets| == if old(NeedsGrowth(size + 1)) then 2 * old(|buckets|) else old(|buckets|)
      decreases if NeedsGrowth(size + 1) then 1 else 0, 3
    {
      CopyContinues(theirs, emptyKey, it, View());
      var _, _ := Emplace(theirs[it].first, theirs[it].second);
    }

    method Swap(other: HashMap<K, V>)
      modifies this, other
      ensures buckets == old(other.buckets) && size == old(other.size) && emptyKey == old(other.emptyKey)
      ensures other.buckets == old(buckets) && other.size == old(size) && other.emptyKey == old(emptyKey)
    {
      buckets, other.buckets := other.buckets, buckets;
      size, other.size := other.size, size;
      emptyKey, other.emptyKey := other.emptyKey, emptyKey;
    }

    /** Doubles the table once, if `count` entries would load it beyond one half. */
    method Reserve(count: nat)
      requires Valid() && (NeedsGrowth(count) ==> 2 * |buckets| <= TOP_BIT)
      modifies this
      ensures Valid() && View() == old(View()) && size == old(size) && emptyKey == old(emptyKey)
      ensures |buckets| == if 2 * count > old(|buckets|) then 2 * old(|buckets|) else old(|buckets|)
      decreases if NeedsGrowth(count) then 1 else 0, 1
    {
      if count * 2 > |buckets| {
        var other := new HashMap.Copy(this, 2 * |buckets|);
        DoubleIsPow2(|buckets|);
        SamePow2(2 * |buckets|, |other.buckets|);
        Swap(other);
      }
    }

    /** A table of at least `count` buckets, and of at least twice the entries. */
    method Rehash(count: nat)
      requires Valid() && count <= TOP_BIT
      modifies this
      ensures Valid() && View() == old(View()) && size == old(size) && emptyKey == old(emptyKey)
      ensures var asked := if count < 2 * size then 2 * size else count;
        asked <= |buckets| && (|buckets| > 1 ==> |buckets| < 2 * asked)
    {
      var other := new HashMap.Copy(this, if count < 2 * size then 2 * size else count);
      Swap(other);
    }

    /** Removes the entry at `it` and moves later entries of its probe sequences back. */
    method Erase(it: nat)
      requires Valid() && it < |buckets| && buckets[it].first != emptyKey
      modifies this
      ensures Valid() && View() == old(View()) - {old(buckets[it].first)} && size == old(size) - 1
      ensures emptyKey == old(emptyKey) && |buckets| == old(|buckets|)
    {
      hide Unique, Reachable, Shifting, Holds;
      ghost var ideal := Ideal(hasher, |buckets|);
      ghost var m := View() - {buckets[it].first};
      var bucket := it;
      ghost var free := StartErase(it);
      var idx := ProbeNext(|buckets|, it);
      while buckets[idx].first != emptyKey
        invariant emptyKey == old(emptyKey) && size == old(size) && |buckets| == old(|buckets|)
        invariant Vacating(buckets, emptyKey, ideal, m, size - 1, bucket, idx, free)
        decreases Dist(|buckets|, idx, free)
      {
        var home := KeyToIdx(hasher, |buckets|, buckets[idx].first);
        if Diff(|buckets|, bucket, home) < Diff(|buckets|, idx, home) {
          VacateMoves(buckets, emptyKey, ideal, m, size - 1, bucket, idx, free);
          buckets := buckets[bucket := buckets[idx]];
          bucket := idx;
        } else {
          VacateSkips(buckets, emptyKey, ideal, m, size - 1, bucket, idx, free);
        }
        idx := ProbeNext(|buckets|, idx);
      }
      Vacate(bucket, idx, free, m);
    }

    lemma StartErase(it: nat) returns (free: nat)
      requires Valid() && it < |buckets| && buckets[it].first != emptyKey
      ensures Vacating(buckets, emptyKey, Ideal(hasher, |buckets|), View() - {buckets[it].first}, size - 1,
                       it, Next(|buckets|, it), free)
    {
      ContentsHold(buckets, emptyKey);
      free := FreeBucketExists(buckets, emptyKey);
      VacateStarts(buckets, emptyKey, Ideal(hasher, |buckets|), View(), it, free);
    }

    /** Frees the bucket that the shifting has left behind. */
    method Vacate(bucket: nat, ghost idx: nat, ghost free: nat, ghost m: map<K, V>)
      requires IsTableSize(|buckets|) && 2 * size <= |buckets| && 1 <= size <= MAX_ENTRIES
      requires Vacating(buckets, emptyKey, Ideal(hasher, |buckets|), m, size - 1, bucket, idx, free)
      requires buckets[idx].first == emptyKey
      modifies this
      ensures Valid() && View() == m && size == old(size) - 1
      ensures emptyKey == old(emptyKey) && |buckets| == old(|buckets|)
    {
      VacateEnds(buckets, emptyKey, Ideal(hasher, |buckets|), m, size - 1, bucket, idx, free);
      buckets := buckets[bucket := buckets[bucket].(first := emptyKey)];
      size := size - 1;
    }
  }

  lemma DoubleFits(n: nat)
    requires IsPow2(n) && n < TOP_BIT
    ensures 2 * n <= TOP_BIT
  {
    var k: nat :| n == Pow2(k);
    assert TOP_BIT == Pow2(63) by { TopBitIsPow2(); }
    if k >= 63 {
      Pow2Monotone(63, k);
      assert false;
    }
    Pow2Monotone(k + 1, 63);
  }

  lemma SamePow2(m: nat, n: nat)
    requires IsPow2(m) && IsPow2(n) && m <= n < 2 * m
    ensures m == n
  {
    var j: nat :| m == Pow2(j);
    var k: nat :| n == Pow2(k);
    if j < k {
      Pow2Monotone(j + 1, k);
    } else {
      Pow2Monotone(k, j);
    }
  }

  lemma {:induction false} Pow2Monotone(j: nat, k: nat)
    requires j <= k
    ensures Pow2(j) <= Pow2(k)
  {
    Pow2Positive(j);
    if j < k { Pow2Monotone(j, k - 1); }
  }

  lemma TopBitIsPow2()
    ensures Pow2(63) == TOP_BIT
  {
    assert Pow2(16) == 0x1_0000;
    Pow2Sum(16, 16);
    Pow2Sum(32, 16);
    assert Pow2(15) == 0x8000;
    Pow2Sum(48, 15);
  }

  lemma {:induction false} Pow2Sum(j: nat, k: nat)
    ensures Pow2(j + k) == Pow2(j) * Pow2(k)
  {
    if k > 0 {
      Pow2Sum(j, k - 1);
      assert Pow2(j + k) == 2 * Pow2(j + (k - 1));
    }
  }
}
