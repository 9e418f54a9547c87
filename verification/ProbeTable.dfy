/**
 The bucket array of an open-addressing table with linear probing, as a value.
 A bucket whose key equals the reserved empty key is free.
 */
module ProbeTable {
  import opened Word64

  datatype Bucket<K, V> = Bucket(first: K, second: V)

  // ---- index helpers, in machine arithmetic ----

  ghost predicate IsTableSize(n: nat) {
    IsPow2(n) && 1 <= n <= TOP_BIT
  }

  function KeyToIdx<K>(hasher: K -> Word, n: nat, key: K): (idx: nat)
    requires IsTableSize(n)
    ensures idx < n
  {
    ghost var k: nat :| n == Pow2(k);
    AndMask(hasher(key), k);
    And(hasher(key), n - 1)
  }

  lemma KeyToIdxIsRemainder<K>(hasher: K -> Word, n: nat, key: K)
    requires IsTableSize(n)
    ensures KeyToIdx(hasher, n, key) == hasher(key) % n
  {
    var k: nat :| n == Pow2(k);
    AndMask(hasher(key), k);
  }

  function ProbeNext(n: nat, idx: nat): (next: nat)
    requires IsTableSize(n) && idx < n
    ensures next == Next(n, idx)
  {
    ghost var k: nat :| n == Pow2(k);
    AndMask(Add(idx, 1), k);
    NextWraps(n, idx);
    And(Add(idx, 1), n - 1)
  }

  lemma NextWraps(n: nat, idx: nat)
    requires 1 <= n <= TOP_BIT && idx < n
    ensures Add(idx, 1) % n == Next(n, idx)
  {
    DivModUnique(idx + 1, MODULUS, 0, idx + 1);
    if idx + 1 == n {
      DivModUnique(idx + 1, n, 1, 0);
    } else {
      DivModUnique(idx + 1, n, 0, idx + 1);
    }
  }

  /** How far the probe sequence that starts at b has to go to meet a. */
  function Diff(n: nat, a: nat, b: nat): (d: nat)
    requires IsTableSize(n) && a < n && b < n
    ensures d == Dist(n, b, a)
  {
    ghost var k: nat :| n == Pow2(k);
    AndMask(Add(n, Sub(a, b)), k);
    DiffWraps(n, a, b);
    And(Add(n, Sub(a, b)), n - 1)
  }

  /** The subtraction may wrap below zero; adding the table size and masking repairs it. */
  lemma DiffWraps(n: nat, a: nat, b: nat)
    requires 1 <= n <= TOP_BIT && a < n && b < n
    ensures Add(n, Sub(a, b)) % n == Dist(n, b, a)
  {
    if a >= b {
      assert Sub(a, b) == a - b;
      assert Add(n, Sub(a, b)) == n + (a - b);
      DivModUnique(n + (a - b), n, 1, a - b);
    } else {
      DivModUnique(a - b, MODULUS, -1, MODULUS + a - b);
      assert Sub(a, b) == MODULUS + a - b;
      DivModUnique(n + (MODULUS + a - b), MODULUS, 1, n + a - b);
      assert Add(n, Sub(a, b)) == n + a - b;
      DivModUnique(n + a - b, n, 0, n + a - b);
    }
  }

  /** Steps from index `from` to index `to` around a ring of n. */
  function Dist(n: int, from: int, to: int): (d: int)
    ensures 0 <= from < n && 0 <= to < n ==> 0 <= d < n
  {
    if from <= to then to - from else to - from + n
  }

  function Next(n: nat, idx: nat): nat {
    if idx + 1 == n then 0 else idx + 1
  }

  // ---- the table invariant ----

  ghost predicate Unique<K, V>(b: seq<Bucket<K, V>>, e: K) {
    forall i, j :: 0 <= i < |b| && 0 <= j < |b| && b[i].first != e && b[i].first == b[j].first ==> i == j
  }

  /** No free bucket lies between an entry's ideal index and the entry. */
  ghost predicate Reachable<K, V>(b: seq<Bucket<K, V>>, e: K, ideal: K -> nat) {
    && InRange(b, e, ideal)
    && (forall i, j :: 0 <= i < |b| && 0 <= j < |b| && b[i].first != e
          && Dist(|b|, ideal(b[i].first), j) < Dist(|b|, ideal(b[i].first), i)
          ==> b[j].first != e)
  }

  ghost predicate InRange<K, V>(b: seq<Bucket<K, V>>, e: K, ideal: K -> nat) {
    forall i :: 0 <= i < |b| && b[i].first != e ==> ideal(b[i].first) < |b|
  }

  /** The number of occupied buckets. */
  function Count<K(==), V>(b: seq<Bucket<K, V>>, e: K): (c: nat)
    ensures c <= |b|
  {
    if b == [] then 0
    else Count(b[..|b| - 1], e) + if b[|b| - 1].first != e then 1 else 0
  }

  lemma {:induction false} CountUpdate<K, V>(b: seq<Bucket<K, V>>, e: K, i: nat, x: Bucket<K, V>)
    requires i < |b|
    ensures Count(b[i := x], e)
         == Count(b, e) - (if b[i].first != e then 1 else 0) + (if x.first != e then 1 else 0)
  {
    var n := |b| - 1;
    if i == n {
      assert b[i := x][..n] == b[..n];
    } else {
      assert b[i := x][..n] == b[..n][i := x];
      CountUpdate(b[..n], e, i, x);
    }
  }

  /** A table that is not full has a free bucket; a probe that starts anywhere can meet one. */
  lemma {:induction false} FreeBucketExists<K, V>(b: seq<Bucket<K, V>>, e: K) returns (i: nat)
    requires Count(b, e) < |b|
    ensures i < |b| && b[i].first == e
  {
    var n := |b| - 1;
    if b[n].first == e {
      i := n;
    } else {
      i := FreeBucketExists(b[..n], e);
    }
  }

  lemma {:induction false} CountOfFree<K, V>(b: seq<Bucket<K, V>>, e: K)
    requires forall i :: 0 <= i < |b| ==> b[i].first == e
    ensures Count(b, e) == 0
  {
    if b != [] { CountOfFree(b[..|b| - 1], e); }
  }

  // ---- the finite map a table stands for ----

  ghost function Keys<K, V>(b: seq<Bucket<K, V>>, e: K): set<K> {
    set i | 0 <= i < |b| && b[i].first != e :: b[i].first
  }

  ghost function IndexOf<K, V>(b: seq<Bucket<K, V>>, k: K): (i: nat)
    requires exists i :: 0 <= i < |b| && b[i].first == k
    ensures i < |b| && b[i].first == k
  {
    var i :| 0 <= i < |b| && b[i].first == k;
    i
  }

  ghost function Contents<K, V>(b: seq<Bucket<K, V>>, e: K): map<K, V> {
    map k | k in Keys(b, e) :: b[IndexOf(b, k)].second
  }

  /** m is the map that the table holds, bucket by bucket. */
  ghost predicate Holds<K, V>(b: seq<Bucket<K, V>>, e: K, m: map<K, V>) {
    && (forall i :: 0 <= i < |b| && b[i].first != e ==> b[i].first in m && m[b[i].first] == b[i].second)
    && (forall k :: k in m ==> HasKey(b, e, k))
  }

  ghost predicate HasKey<K, V>(b: seq<Bucket<K, V>>, e: K, k: K) {
    k != e && exists i :: 0 <= i < |b| && b[i].first == k
  }

  lemma ContentsHold<K, V>(b: seq<Bucket<K, V>>, e: K)
    requires Unique(b, e)
    ensures Holds(b, e, Contents(b, e))
  {
  }

  lemma HeldIsContents<K, V>(b: seq<Bucket<K, V>>, e: K, m: map<K, V>)
    requires Holds(b, e, m)
    ensures Unique(b, e) ==> Contents(b, e) == m
  {
    if Unique(b, e) {
      var c := Contents(b, e);
      assert c.Keys == m.Keys;
      forall k | k in c
        ensures c[k] == m[k]
      {
        var i :| 0 <= i < |b| && b[i].first == k;
      }
    }
  }

  // ---- copying a table bucket by bucket ----

  lemma SkipFree<K, V>(b: seq<Bucket<K, V>>, e: K, from: nat, to: nat, m: map<K, V>)
    requires from <= to <= |b| && (forall i :: from <= i < to ==> b[i].first == e)
    requires Holds(b[..from], e, m)
    ensures Holds(b[..to], e, m) && Count(b[..to], e) == Count(b[..from], e)
  {
    if from < to {
      SkipFree(b, e, from, to - 1, m);
      assert b[..to][..to - 1] == b[..to - 1];
      forall k | k in m
        ensures HasKey(b[..to], e, k)
      {
        assert HasKey(b[..to - 1], e, k);
        var i :| 0 <= i < to - 1 && b[..to - 1][i].first == k;
        assert b[..to][i].first == k;
      }
    }
  }

  /** The entry after a prefix is new to the prefix's map, and extends it. */
  lemma FreshEntry<K, V>(b: seq<Bucket<K, V>>, e: K, it: nat, m: map<K, V>)
    requires Unique(b, e) && it < |b| && b[it].first != e && Holds(b[..it], e, m)
    ensures b[it].first !in m
    ensures Holds(b[..it + 1], e, m[b[it].first := b[it].second])
    ensures Count(b[..it + 1], e) == Count(b[..it], e) + 1
  {
    var next := b[..it + 1];
    assert next[..it] == b[..it];
    assert !HasKey(b[..it], e, b[it].first);
    forall k | k in m[b[it].first := b[it].second]
      ensures HasKey(next, e, k)
    {
      if k == b[it].first {
        assert next[it].first == k;
      } else {
        assert HasKey(b[..it], e, k);
        var i :| 0 <= i < it && b[..it][i].first == k;
        assert next[i].first == k;
      }
    }
  }

  lemma CopyStarts<K, V>(b: seq<Bucket<K, V>>, e: K, it: nat)
    requires it <= |b| && (forall i :: 0 <= i < it ==> b[i].first == e)
    ensures Holds(b[..it], e, map[]) && Count(b[..it], e) == 0
  {
    assert b[..0] == [];
    SkipFree(b, e, 0, it, map[]);
  }

  lemma CopyContinues<K, V>(b: seq<Bucket<K, V>>, e: K, it: nat, m: map<K, V>)
    requires Unique(b, e) && it < |b| && b[it].first != e && Holds(b[..it], e, m)
    ensures b[it].first !in m
    ensures Holds(b[..it + 1], e, m[b[it].first := b[it].second])
    ensures Count(b[..it + 1], e) == Count(b[..it], e) + 1 <= Count(b, e)
  {
    FreshEntry(b, e, it, m);
    CountPrefix(b, e, it + 1);
  }

  lemma {:induction false} CountPrefix<K, V>(b: seq<Bucket<K, V>>, e: K, n: nat)
    requires n <= |b|
    ensures Count(b[..n], e) <= Count(b, e)
  {
    if n < |b| {
      CountPrefix(b[..|b| - 1], e, n);
      assert b[..|b| - 1][..n] == b[..n];
    } else {
      assert b[..n] == b;
    }
  }

  // ---- the steps of find, emplace and erase ----

  /** The first `steps` buckets of the probe sequence from `home` are occupied by other keys. */
  ghost predicate Scanned<K, V>(b: seq<Bucket<K, V>>, e: K, key: K, home: nat, steps: nat) {
    forall j :: 0 <= j < |b| && Dist(|b|, home, j) < steps ==> b[j].first != e && b[j].first != key
  }

  lemma ScanOn<K, V>(b: seq<Bucket<K, V>>, e: K, key: K, home: nat, idx: nat)
    requires home < |b| && idx < |b| && Scanned(b, e, key, home, Dist(|b|, home, idx))
    requires b[idx].first != e && b[idx].first != key
    ensures Scanned(b, e, key, home, Dist(|b|, home, idx) + 1)
    ensures forall free :: 0 <= free < |b| && b[free].first == e ==> Dist(|b|, home, idx) < Dist(|b|, home, free)
    ensures Dist(|b|, home, idx) + 1 < |b| ==>
              Dist(|b|, home, Next(|b|, idx)) == Dist(|b|, home, idx) + 1
  {
  }

  /** A probe that met a free bucket without meeting the key proves the key absent. */
  lemma MissIsAbsent<K, V>(b: seq<Bucket<K, V>>, e: K, ideal: K -> nat, key: K, idx: nat)
    requires Reachable(b, e, ideal)
    requires key != e && ideal(key) < |b| && idx < |b| && b[idx].first == e
    requires Scanned(b, e, key, ideal(key), Dist(|b|, ideal(key), idx))
    ensures !HasKey(b, e, key)
  {
  }

  lemma InsertReaches<K, V>(b: seq<Bucket<K, V>>, e: K, ideal: K -> nat, x: Bucket<K, V>, idx: nat)
    requires Unique(b, e) && Reachable(b, e, ideal)
    requires x.first != e && ideal(x.first) < |b| && idx < |b| && b[idx].first == e && !HasKey(b, e, x.first)
    requires Scanned(b, e, x.first, ideal(x.first), Dist(|b|, ideal(x.first), idx))
    ensures Unique(b[idx := x], e) && Reachable(b[idx := x], e, ideal)
  {
  }

  lemma InsertHolds<K, V>(b: seq<Bucket<K, V>>, e: K, x: Bucket<K, V>, idx: nat, m: map<K, V>)
    requires Holds(b, e, m) && x.first != e && x.first !in m
    requires idx < |b| && b[idx].first == e
    ensures Holds(b[idx := x], e, m[x.first := x.second])
    ensures Count(b[idx := x], e) == Count(b, e) + 1
  {
    var b' := b[idx := x];
    CountUpdate(b, e, idx, x);
    forall k | k in m[x.first := x.second]
      ensures HasKey(b', e, k)
    {
      if k == x.first {
        assert b'[idx].first == k;
      } else {
        var i :| 0 <= i < |b| && b[i].first == k;
        assert b'[i].first == k;
      }
    }
  }

  /** Filling the free bucket that ends the probe of an absent key. */
  lemma InsertAtFree<K, V>(b: seq<Bucket<K, V>>, e: K, ideal: K -> nat, x: Bucket<K, V>, idx: nat)
    requires Unique(b, e) && Reachable(b, e, ideal)
    requires x.first != e && ideal(x.first) < |b| && idx < |b| && b[idx].first == e
    requires Scanned(b, e, x.first, ideal(x.first), Dist(|b|, ideal(x.first), idx))
    ensures x.first !in Contents(b, e)
    ensures Unique(b[idx := x], e) && Reachable(b[idx := x], e, ideal)
    ensures Contents(b[idx := x], e) == Contents(b, e)[x.first := x.second]
    ensures Count(b[idx := x], e) == Count(b, e) + 1
  {
    ContentsHold(b, e);
    MissIsAbsent(b, e, ideal, x.first, idx);
    InsertReaches(b, e, ideal, x, idx);
    InsertHolds(b, e, x, idx, Contents(b, e));
    HeldIsContents(b[idx := x], e, Contents(b, e)[x.first := x.second]);
  }

  /**
   The invariant of the backward shift. Bucket `hole` is the one being vacated: taken as free it
   leaves a table c; taken as filled it interrupts no probe sequence. Entries between the hole and
   `idx` have been examined and do not need the hole.
   */
  ghost predicate Shifting<K, V>(c: seq<Bucket<K, V>>, e: K, ideal: K -> nat, hole: nat, idx: nat) {
    && hole < |c| && idx < |c|
    && c[hole].first == e
    && Unique(c, e) && InRange(c, e, ideal)
    && (forall i, j :: 0 <= i < |c| && 0 <= j < |c| && c[i].first != e && j != hole
          && Dist(|c|, ideal(c[i].first), j) < Dist(|c|, ideal(c[i].first), i)
          ==> c[j].first != e)
    && (forall j :: 0 <= j < |c| && 0 < Dist(|c|, hole, j) < Dist(|c|, hole, idx) ==>
          && c[j].first != e
          && !(Dist(|c|, ideal(c[j].first), hole) < Dist(|c|, ideal(c[j].first), j)))
  }

  lemma ShiftStarts<K, V>(b: seq<Bucket<K, V>>, e: K, ideal: K -> nat, hole: nat)
    requires Unique(b, e) && Reachable(b, e, ideal)
    requires |b| > 1 && hole < |b| && b[hole].first != e
    ensures Shifting(b[hole := b[hole].(first := e)], e, ideal, hole, Next(|b|, hole))
  {
  }

  lemma RemoveHolds<K, V>(b: seq<Bucket<K, V>>, e: K, hole: nat, m: map<K, V>)
    requires Unique(b, e) && Holds(b, e, m) && hole < |b| && b[hole].first != e
    ensures Holds(b[hole := b[hole].(first := e)], e, m - {b[hole].first})
    ensures Count(b[hole := b[hole].(first := e)], e) == Count(b, e) - 1
  {
    var c := b[hole := b[hole].(first := e)];
    CountUpdate(b, e, hole, b[hole].(first := e));
    forall k | k in m - {b[hole].first}
      ensures HasKey(c, e, k)
    {
      assert HasKey(b, e, k);
      var i :| 0 <= i < |b| && b[i].first == k;
      assert c[i].first == k;
    }
  }

  /** The entry at idx does not need the hole: go on to the next bucket. */
  lemma ShiftSkips<K, V>(c: seq<Bucket<K, V>>, e: K, ideal: K -> nat, hole: nat, idx: nat, free: nat)
    requires Shifting(c, e, ideal, hole, idx) && idx != hole && c[idx].first != e
    requires !(Dist(|c|, ideal(c[idx].first), hole) < Dist(|c|, ideal(c[idx].first), idx))
    requires free < |c| && free != hole && c[free].first == e
    ensures Next(|c|, idx) != hole && Shifting(c, e, ideal, hole, Next(|c|, idx))
  {
    // Going once round the table would have met the free bucket.
    assert !(Dist(|c|, hole, free) < Dist(|c|, hole, idx));
  }

  ghost function Moved<K, V>(c: seq<Bucket<K, V>>, e: K, hole: nat, idx: nat): seq<Bucket<K, V>>
    requires hole < |c| && idx < |c|
  {
    c[hole := c[idx]][idx := c[idx].(first := e)]
  }

  /** The entry at idx is moved into the hole, and its bucket becomes the hole. */
  lemma ShiftMoves<K, V>(c: seq<Bucket<K, V>>, e: K, ideal: K -> nat, hole: nat, idx: nat)
    requires Shifting(c, e, ideal, hole, idx) && idx != hole && c[idx].first != e
    requires Dist(|c|, ideal(c[idx].first), hole) < Dist(|c|, ideal(c[idx].first), idx)
    ensures Shifting(Moved(c, e, hole, idx), e, ideal, idx, Next(|c|, idx))
  {
    var c' := Moved(c, e, hole, idx);
    forall i, j | 0 <= i < |c| && 0 <= j < |c| && c'[i].first != e && c'[i].first == c'[j].first
      ensures i == j
    {
      var i0, j0 := if i == hole then idx else i, if j == hole then idx else j;
      assert c[i0].first == c[j0].first;
    }
    forall i, j | 0 <= i < |c| && 0 <= j < |c| && c'[i].first != e && j != idx
      && Dist(|c|, ideal(c'[i].first), j) < Dist(|c|, ideal(c'[i].first), i)
      ensures c'[j].first != e
    {
      var i0 := if i == hole then idx else i;
      assert c[i0].first == c'[i].first;
    }
  }

  lemma MoveHolds<K, V>(c: seq<Bucket<K, V>>, e: K, hole: nat, idx: nat, m: map<K, V>)
    requires Holds(c, e, m) && hole < |c| && idx < |c| && hole != idx
    requires c[hole].first == e && c[idx].first != e
    ensures Holds(Moved(c, e, hole, idx), e, m)
    ensures Count(Moved(c, e, hole, idx), e) == Count(c, e)
  {
    var c' := Moved(c, e, hole, idx);
    assert Count(c', e) == Count(c, e) by {
      CountUpdate(c, e, hole, c[idx]);
      CountUpdate(c[hole := c[idx]], e, idx, c[idx].(first := e));
    }
    forall i | 0 <= i < |c'| && c'[i].first != e
      ensures c'[i].first in m && m[c'[i].first] == c'[i].second
    {
      assert c'[i] == c[if i == hole then idx else i];
    }
    forall k | k in m
      ensures HasKey(c', e, k)
    {
      assert HasKey(c, e, k);
      var i :| 0 <= i < |c| && c[i].first == k;
      assert c'[if i == idx then hole else i].first == k;
    }
  }

  /** At a free bucket every entry that follows the hole has been examined. */
  lemma ShiftEnds<K, V>(c: seq<Bucket<K, V>>, e: K, ideal: K -> nat, hole: nat, idx: nat)
    requires Shifting(c, e, ideal, hole, idx) && idx != hole && c[idx].first == e
    ensures Reachable(c, e, ideal)
  {
    forall i | 0 <= i < |c| && c[i].first != e
      ensures !(Dist(|c|, ideal(c[i].first), hole) < Dist(|c|, ideal(c[i].first), i))
    {
      // An entry that needed the hole would have been examined, or would have idx in its way.
      assert !(Dist(|c|, ideal(c[i].first), idx) < Dist(|c|, ideal(c[i].first), i));
    }
  }

  // ---- the erase loop ----

  ghost function Hollow<K, V>(b: seq<Bucket<K, V>>, e: K, hole: nat): seq<Bucket<K, V>>
    requires hole < |b|
  {
    b[hole := b[hole].(first := e)]
  }

  /**
   The state of the erase loop over the buckets as they are, with the stale entry still in the hole.
   Taken as free, the hole leaves a table of `n` entries that holds m; `free` is a bucket that was
   free from the start and ends the loop.
   */
  ghost predicate Vacating<K, V>(b: seq<Bucket<K, V>>, e: K, ideal: K -> nat, m: map<K, V>, n: int,
                                 hole: nat, idx: nat, free: nat) {
    && hole < |b| && idx < |b| && free < |b| && idx != hole && free != hole
    && b[hole].first != e && b[free].first == e
    && Shifting(Hollow(b, e, hole), e, ideal, hole, idx)
    && Holds(Hollow(b, e, hole), e, m)
    && Count(Hollow(b, e, hole), e) == n
  }

  lemma VacateStarts<K, V>(b: seq<Bucket<K, V>>, e: K, ideal: K -> nat, m: map<K, V>, hole: nat, free: nat)
    requires Unique(b, e) && Reachable(b, e, ideal) && Holds(b, e, m)
    requires hole < |b| && b[hole].first != e && free < |b| && b[free].first == e
    ensures Vacating(b, e, ideal, m - {b[hole].first}, Count(b, e) - 1, hole, Next(|b|, hole), free)
  {
    RemoveHolds(b, e, hole, m);
    ShiftStarts(b, e, ideal, hole);
  }

  /** One turn of the loop that moves the entry at idx back, as it is closer to its ideal index there. */
  lemma VacateMoves<K, V>(b: seq<Bucket<K, V>>, e: K, ideal: K -> nat, m: map<K, V>, n: int,
                          hole: nat, idx: nat, free: nat)
    requires Vacating(b, e, ideal, m, n, hole, idx, free) && b[idx].first != e
    requires Dist(|b|, ideal(b[idx].first), hole) < Dist(|b|, ideal(b[idx].first), idx)
    ensures Vacating(b[hole := b[idx]], e, ideal, m, n, idx, Next(|b|, idx), free)
    ensures Dist(|b|, Next(|b|, idx), free) < Dist(|b|, idx, free)
  {
    hide Shifting, Holds, Count;
    var c := Hollow(b, e, hole);
    assert c[idx] == b[idx];
    assert Hollow(b[hole := b[idx]], e, idx) == Moved(c, e, hole, idx);
    ShiftMoves(c, e, ideal, hole, idx);
    MoveHolds(c, e, hole, idx, m);
  }

  /** One turn of the loop that leaves the entry at idx where it is. */
  lemma VacateSkips<K, V>(b: seq<Bucket<K, V>>, e: K, ideal: K -> nat, m: map<K, V>, n: int,
                          hole: nat, idx: nat, free: nat)
    requires Vacating(b, e, ideal, m, n, hole, idx, free) && b[idx].first != e
    requires !(Dist(|b|, ideal(b[idx].first), hole) < Dist(|b|, ideal(b[idx].first), idx))
    ensures Vacating(b, e, ideal, m, n, hole, Next(|b|, idx), free)
    ensures Dist(|b|, Next(|b|, idx), free) < Dist(|b|, idx, free)
  {
    var c := Hollow(b, e, hole);
    assert c[idx] == b[idx] && c[free] == b[free];
    ShiftSkips(c, e, ideal, hole, idx, free);
  }

  lemma VacateEnds<K, V>(b: seq<Bucket<K, V>>, e: K, ideal: K -> nat, m: map<K, V>, n: int,
                         hole: nat, idx: nat, free: nat)
    requires Vacating(b, e, ideal, m, n, hole, idx, free) && b[idx].first == e
    ensures var c := Hollow(b, e, hole);
      Unique(c, e) && Reachable(c, e, ideal) && Contents(c, e) == m && Count(c, e) == n
  {
    var c := Hollow(b, e, hole);
    ShiftEnds(c, e, ideal, hole, idx);
    HeldIsContents(c, e, m);
  }
}
