/** A side of Depth refines a map from price to (total quantity, order count). */
module DepthRefinement {
  import opened Ladder
  import opened DepthSide

  /** The refined map; the levels of a map carry their own price. */
  type Sheet = map<int, Level>

  ghost predicate HasRow(rows: seq<Row>, p: int) {
    exists i :: 0 <= i < |rows| && rows[i].price == p
  }

  // ---- the shape every operation keeps, whatever its arguments ----

  /** Filled slots come first, empty ones show nothing, and only excess levels are flagged. */
  ghost predicate Shape(h: Half) {
    && |h.rows| >= 1
    && (forall i, j :: 0 <= i < j < |h.rows| && h.rows[i].Empty() ==> h.rows[j].Empty())
    && (forall i :: 0 <= i < |h.rows| ==> !h.rows[i].isExcess)
    && (forall i :: 0 <= i < |h.rows| && h.rows[i].Empty() ==> h.rows[i].qty == 0 && h.rows[i].count == 0)
    && (forall p :: p in h.excess ==> h.excess[p].isExcess && h.excess[p].price == p && p != INVALID_LEVEL_PRICE)
  }

  /** The slots are the best prices in strict order; the excess levels hold exactly the rest. */
  ghost predicate Rep(h: Half, m: Sheet, isBuy: bool) {
    && Shape(h)
    && Sorted(h.rows, isBuy)
    && Below(h, isBuy)
    && Agrees(h.rows, m)
    && (forall p :: p in h.excess ==> p in m && m[p] == h.excess[p].Shown())
    && Covered(h, m)
  }

  /** There are excess levels only when the slots are full, and they are worse than every slot. */
  ghost predicate Below(h: Half, isBuy: bool) {
    |h.rows| >= 1 && forall p :: p in h.excess ==> !Last(h).Empty() && Better(isBuy, Last(h).price, p)
  }

  ghost predicate Agrees(rows: seq<Row>, m: Sheet) {
    forall i :: 0 <= i < |rows| && !rows[i].Empty() ==>
      rows[i].price in m && m[rows[i].price] == rows[i].Shown()
  }

  ghost predicate Covered(h: Half, m: Sheet) {
    forall p :: p in m ==> p != INVALID_LEVEL_PRICE && (p in h.excess || HasRow(h.rows, p))
  }

  function Last(h: Half): Row
    requires |h.rows| >= 1
  {
    h.rows[|h.rows| - 1]
  }

  ghost predicate Sorted(rows: seq<Row>, isBuy: bool) {
    forall i, j :: 0 <= i < j < |rows| && !rows[j].Empty() ==> Better(isBuy, rows[i].price, rows[j].price)
  }

  ghost predicate Present(h: Half, price: int) {
    price in h.excess || HasRow(h.rows, price)
  }

  // ---- the operations on the sheet ----

  function Touched(m: Sheet, p: int): Sheet {
    if p in m then m else m[p := Level(p, 0, 0)]
  }

  function Added(m: Sheet, p: int, q: int): Sheet {
    var l := Touched(m, p)[p];
    m[p := Level(p, l.qty + q, l.count + 1)]
  }

  function Changed(m: Sheet, p: int, delta: int): Sheet
    requires p in m
  {
    m[p := Level(p, m[p].qty + delta, m[p].count)]
  }

  function Closed(m: Sheet, p: int, q: int): Sheet
    requires p in m
  {
    if m[p].count == 1 then m - {p}
    else m[p := Level(p, if m[p].qty >= q then m[p].qty - q else m[p].qty, m[p].count - 1)]
  }

  function Replaced(m: Sheet, oldPrice: int, newPrice: int, oldQty: int, newQty: int): Sheet
    requires oldPrice in m
  {
    if oldPrice == newPrice then Changed(m, oldPrice, newQty - oldQty)
    else Closed(Added(m, newPrice, newQty), oldPrice, oldQty)
  }

  // ---- pieces ----

  lemma PutRep(h: Half, m: Sheet, isBuy: bool, ref: Ref, r: Row)
    requires Rep(h, m, isBuy) && In(h, ref) && !Get(h, ref).Empty()
    requires r.price == Get(h, ref).price && r.isExcess == Get(h, ref).isExcess
    ensures Rep(Put(h, ref, r), m[r.price := r.Shown()], isBuy)
  {
    PutKeepsShape(h, isBuy, ref, r);
    PutAgrees(h, m, ref, r);
    assert r.price != INVALID_LEVEL_PRICE && (ref.Spilled? ==> ref.price == r.price);
    hide Shape, Sorted, Below, Agrees, Covered, Put, Get;
    PutCovers(h, m, ref, r);
  }

  lemma PutKeepsShape(h: Half, isBuy: bool, ref: Ref, r: Row)
    requires Shape(h) && Sorted(h.rows, isBuy) && Below(h, isBuy) && In(h, ref) && !Get(h, ref).Empty()
    requires r.price == Get(h, ref).price && r.isExcess == Get(h, ref).isExcess
    ensures Shape(Put(h, ref, r)) && Sorted(Put(h, ref, r).rows, isBuy) && Below(Put(h, ref, r), isBuy)
  {
    var h' := Put(h, ref, r);
    assert |h'.rows| == |h.rows| && forall i :: 0 <= i < |h.rows| ==> h'.rows[i].price == h.rows[i].price;
    assert h'.excess.Keys == h.excess.Keys;
    assert Shape(h');
    hide Shape;
  }

  lemma PutAgrees(h: Half, m: Sheet, ref: Ref, r: Row)
    requires Shape(h) && Agrees(h.rows, m) && In(h, ref) && !Get(h, ref).Empty() && r.price == Get(h, ref).price
    requires forall i, j :: 0 <= i < j < |h.rows| && !h.rows[j].Empty() ==> h.rows[i].price != h.rows[j].price
    requires forall p :: p in h.excess ==> p in m && m[p] == h.excess[p].Shown() && !HasRow(h.rows, p)
    ensures var h', m' := Put(h, ref, r), m[r.price := r.Shown()];
      Agrees(h'.rows, m') && forall p :: p in h'.excess ==> p in m' && m'[p] == h'.excess[p].Shown()
  {
  }

  lemma PutCovers(h: Half, m: Sheet, ref: Ref, r: Row)
    requires Covered(h, m) && In(h, ref) && r.price == Get(h, ref).price && r.price != INVALID_LEVEL_PRICE
    requires ref.Spilled? ==> ref.price == r.price
    ensures Covered(Put(h, ref, r), m[r.price := r.Shown()])
  {
    var h', m' := Put(h, ref, r), m[r.price := r.Shown()];
    forall p | p in m'
      ensures p in h'.excess || HasRow(h'.rows, p)
    {
      if p == r.price && ref.Slot? {
        assert h'.rows[ref.i].price == p;
      } else if p !in h.excess {
        assert HasRow(h.rows, p);
        var i :| 0 <= i < |h.rows| && h.rows[i].price == p;
        assert h'.rows[i].price == p;
      }
    }
  }

  lemma FillRep(h: Half, m: Sheet, isBuy: bool, k: nat, p: int)
    requires Rep(h, m, isBuy) && p !in m && p != INVALID_LEVEL_PRICE
    requires k < |h.rows| && h.rows[k].Empty()
    requires forall j :: 0 <= j < k ==> !h.rows[j].Empty() && Better(isBuy, h.rows[j].price, p)
    ensures Rep(h.(rows := h.rows[k := h.rows[k].Init(p, false)]), m[p := Level(p, 0, 0)], isBuy)
  {
    var h', m' := h.(rows := h.rows[k := h.rows[k].Init(p, false)]), m[p := Level(p, 0, 0)];
    assert Last(h).Empty();
    forall q | q in m'
      ensures HasRow(h'.rows, q)
    {
      if q == p {
        assert h'.rows[k].price == q;
      } else {
        assert HasRow(h.rows, q);
        var i :| 0 <= i < |h.rows| && h.rows[i].price == q;
        assert h'.rows[i].price == q;
      }
    }
  }

  lemma OverflowRep(h: Half, m: Sheet, isBuy: bool, p: int)
    requires Rep(h, m, isBuy) && p !in m && p != INVALID_LEVEL_PRICE
    requires !Last(h).Empty() && Better(isBuy, Last(h).price, p)
    ensures Rep(h.(excess := h.excess[p := NEW_ROW.Init(p, true)]), m[p := Level(p, 0, 0)], isBuy)
  {
    var h' := h.(excess := h.excess[p := NEW_ROW.Init(p, true)]);
    assert Shape(h') && Below(h', isBuy);
    hide Shape, Below, Sorted;
  }

  /** After an insertion: the new level at k, and below it each slot shows what was above. */
  ghost predicate Lowered(rows: seq<Row>, rows': seq<Row>, k: nat, p: int) {
    && |rows'| == |rows| && k < |rows|
    && (forall j :: 0 <= j < k ==> rows'[j] == rows[j])
    && rows'[k].Shown() == Level(p, 0, 0)
    && (forall j :: k <= j < |rows| ==> !rows'[j].isExcess)
    && (forall j :: k < j < |rows| ==> rows'[j].Shown() == rows[j - 1].Shown())
  }

  lemma InsertLowers(h: Half, k: nat, p: int, change: int)
    requires Shape(h) && k < |h.rows|
    ensures Lowered(h.rows, Lower(h.rows, k, p, change), k, p)
  {
    var rows' := Lower(h.rows, k, p, change);
    forall j | k < j < |h.rows|
      ensures rows'[j].Shown() == h.rows[j - 1].Shown() && !rows'[j].isExcess
    {
      assert rows'[j] == MovedDown(h.rows[j], h.rows[j - 1], change);
    }
    assert rows'[k] == h.rows[k].Init(p, false);
    assert forall j :: 0 <= j < k ==> rows'[j] == LowerAt(h.rows, k, p, change, j);
  }

  lemma LoweredIsSorted(rows: seq<Row>, rows': seq<Row>, k: nat, p: int, isBuy: bool)
    requires Lowered(rows, rows', k, p) && Sorted(rows, isBuy)
    requires Better(isBuy, p, rows[k].price)
    requires forall j :: 0 <= j < k ==> Better(isBuy, rows[j].price, p)
    ensures Sorted(rows', isBuy)
  {
    forall i, j | 0 <= i < j < |rows'| && !rows'[j].Empty()
      ensures Better(isBuy, rows'[i].price, rows'[j].price)
    {
      if j > k {
        assert rows'[j].Shown() == rows[j - 1].Shown();
        if i > k {
          assert rows'[i].Shown() == rows[i - 1].Shown();
        }
      }
    }
  }

  lemma LoweredHasShape(h: Half, rows': seq<Row>, k: nat, p: int)
    requires Shape(h) && Lowered(h.rows, rows', k, p) && p != INVALID_LEVEL_PRICE
    requires forall j :: 0 <= j < k ==> !h.rows[j].Empty()
    ensures Shape(h.(rows := rows'))
  {
    forall i, j | 0 <= i < j < |rows'| && rows'[i].Empty()
      ensures rows'[j].Empty()
    {
      assert i > k;
      assert rows'[i].Shown() == h.rows[i - 1].Shown() && rows'[j].Shown() == h.rows[j - 1].Shown();
    }
    forall i | 0 <= i < |rows'| && rows'[i].Empty()
      ensures rows'[i].qty == 0 && rows'[i].count == 0
    {
      assert i > k;
      assert rows'[i].Shown() == h.rows[i - 1].Shown();
    }
  }

  lemma LoweredCovers(rows: seq<Row>, rows': seq<Row>, k: nat, p: int, q: int)
    requires Lowered(rows, rows', k, p)
    requires q == p || (HasRow(rows, q) && rows[|rows| - 1].price != q)
    ensures HasRow(rows', q)
  {
    if q == p {
      assert rows'[k].price == q;
    } else {
      var i :| 0 <= i < |rows| && rows[i].price == q;
      if i < k {
        assert rows'[i].price == q;
      } else {
        assert rows'[i + 1].Shown() == rows[i].Shown();
        assert rows'[i + 1].price == q;
      }
    }
  }

  lemma SpillRep(h: Half, m: Sheet, isBuy: bool)
    requires Rep(h, m, isBuy)
    ensures var e := Spill(h.excess, Last(h));
      && (forall q :: q in e <==> q in h.excess || (!Last(h).Empty() && q == Last(h).price))
      && (forall q :: q in e ==> q in m && m[q] == e[q].Shown())
      && (forall q :: q in e ==> e[q].isExcess && e[q].price == q && q != INVALID_LEVEL_PRICE)
  {
  }

  lemma InsertRep(h: Half, m: Sheet, isBuy: bool, k: nat, p: int, change: int)
    requires Rep(h, m, isBuy) && p !in m && p != INVALID_LEVEL_PRICE
    requires k < |h.rows| && !h.rows[k].Empty() && Better(isBuy, p, h.rows[k].price)
    requires forall j :: 0 <= j < k ==> !h.rows[j].Empty() && Better(isBuy, h.rows[j].price, p)
    ensures Rep(InsertBefore(h, k, p, change), m[p := Level(p, 0, 0)], isBuy)
  {
    var h', m' := InsertBefore(h, k, p, change), m[p := Level(p, 0, 0)];
    assert h'.excess == Spill(h.excess, Last(h));
    hide InsertBefore, Spill, Lower, Lowered, Sorted, Covered, Agrees;
    InsertLowers(h, k, p, change);
    SpillRep(h, m, isBuy);
    LoweredIsSorted(h.rows, h'.rows, k, p, isBuy);
    LoweredHasShape(h, h'.rows, k, p);
    InsertCovers(h, m, h'.rows, k, p);
    InsertAgrees(h, m, isBuy, h'.rows, k, p);
  }

  lemma InsertCovers(h: Half, m: Sheet, rows': seq<Row>, k: nat, p: int)
    requires Shape(h) && Covered(h, m) && p !in m && p != INVALID_LEVEL_PRICE && Lowered(h.rows, rows', k, p)
    ensures Covered(Half(rows', Spill(h.excess, Last(h))), m[p := Level(p, 0, 0)])
  {
    hide Lowered, HasRow;
    var e := Spill(h.excess, Last(h));
    forall q | q in m || q == p
      ensures q in e || HasRow(rows', q)
    {
      if q !in e {
        LoweredCovers(h.rows, rows', k, p, q);
      }
    }
  }

  lemma InsertAgrees(h: Half, m: Sheet, isBuy: bool, rows': seq<Row>, k: nat, p: int)
    requires Rep(h, m, isBuy) && p !in m && p != INVALID_LEVEL_PRICE && Lowered(h.rows, rows', k, p)
    requires !h.rows[k].Empty() && Better(isBuy, p, h.rows[k].price)
    requires forall j :: 0 <= j < k ==> !h.rows[j].Empty() && Better(isBuy, h.rows[j].price, p)
    ensures Agrees(rows', m[p := Level(p, 0, 0)])
    ensures var last := rows'[|rows'| - 1];
      && (!Last(h).Empty() ==> !last.Empty() && Better(isBuy, last.price, Last(h).price))
      && (forall q :: q in h.excess ==> !last.Empty() && Better(isBuy, last.price, q))
  {
    hide HasRow, Covered;
    var n := |h.rows|;
    assert rows'[n - 1].Shown() == if k == n - 1 then Level(p, 0, 0) else h.rows[n - 2].Shown();
    forall i | 0 <= i < n && !rows'[i].Empty()
      ensures var m' := m[p := Level(p, 0, 0)]; rows'[i].price in m' && m'[rows'[i].price] == rows'[i].Shown()
    {
      assert rows'[i].Shown() ==
        if i < k then h.rows[i].Shown() else if i == k then Level(p, 0, 0) else h.rows[i - 1].Shown();
    }
  }

  /** After an erasure: from k on each slot shows what was below, and the last one shows `next`. */
  ghost predicate Raised(rows: seq<Row>, rows': seq<Row>, k: nat, next: Level) {
    && |rows'| == |rows| && k < |rows|
    && (forall j :: 0 <= j < k ==> rows'[j] == rows[j])
    && (forall j :: k <= j < |rows| ==> !rows'[j].isExcess)
    && (forall j :: k <= j < |rows| - 1 ==> rows'[j].Shown() == rows[j + 1].Shown())
    && rows'[|rows| - 1].Shown() == next
  }

  ghost function NextUp(h: Half, isBuy: bool): Level {
    if h.excess == map[] then Level(INVALID_LEVEL_PRICE, 0, 0)
    else h.excess[BestExcess(h.excess, isBuy)].Shown()
  }

  lemma EraseRaises(h: Half, m: Sheet, isBuy: bool, k: nat, change: int)
    requires Rep(h, m, isBuy) && k < |h.rows| && !h.rows[k].Empty()
    ensures Raised(h.rows, EraseSlot(h, k, isBuy, change).rows, k, NextUp(h, isBuy))
    ensures EraseSlot(h, k, isBuy, change).excess
         == if h.excess == map[] then h.excess else h.excess - {BestExcess(h.excess, isBuy)}
  {
    var n := |h.rows|;
    var refill := k == n - 1 || !Last(h).Empty();
    var last := if refill then Refilled(Last(h), h.excess, isBuy, change) else Last(h);
    if h.excess != map[] {
      var b := Member(h.excess.Keys);
      assert !Last(h).Empty();
    }
    assert EraseSlot(h, k, isBuy, change).rows == Raise(h.rows, k, change, last);
    assert last.Shown() == NextUp(h, isBuy) && !last.isExcess;
    RaiseRaises(h, k, change, last);
  }

  lemma RaiseRaises(h: Half, k: nat, change: int, last: Row)
    requires Shape(h) && k < |h.rows| && !last.isExcess
    ensures Raised(h.rows, Raise(h.rows, k, change, last), k, last.Shown())
  {
    var n, rows' := |h.rows|, Raise(h.rows, k, change, last);
    forall j | k <= j < n - 1
      ensures rows'[j].Shown() == h.rows[j + 1].Shown() && !rows'[j].isExcess
    {
      assert rows'[j] == RaiseAt(h.rows, k, change, last, j);
    }
    assert forall j :: 0 <= j < k ==> rows'[j] == RaiseAt(h.rows, k, change, last, j);
    assert rows'[n - 1] == RaiseAt(h.rows, k, change, last, n - 1);
  }

  lemma RaisedIsSorted(rows: seq<Row>, rows': seq<Row>, k: nat, next: Level, isBuy: bool)
    requires Raised(rows, rows', k, next) && Sorted(rows, isBuy)
    requires next.price != INVALID_LEVEL_PRICE ==>
               forall i :: 0 <= i < |rows| ==> Better(isBuy, rows[i].price, next.price)
    ensures Sorted(rows', isBuy)
  {
    var n := |rows|;
    forall i, j | 0 <= i < j < n && !rows'[j].Empty()
      ensures Better(isBuy, rows'[i].price, rows'[j].price)
    {
      assert rows'[i].Shown().price == if i < k then rows[i].price else rows[i + 1].price;
    }
  }

  lemma RaisedHasShape(h: Half, rows': seq<Row>, k: nat, next: Level)
    requires Shape(h) && Raised(h.rows, rows', k, next)
    requires next.price != INVALID_LEVEL_PRICE ==> !Last(h).Empty()
    requires next.price == INVALID_LEVEL_PRICE ==> next.qty == 0 && next.count == 0
    ensures Shape(h.(rows := rows'))
  {
    var n := |h.rows|;
    forall i, j | 0 <= i < j < n && rows'[i].Empty()
      ensures rows'[j].Empty()
    {
      assert rows'[i].Shown().price == if i < k then h.rows[i].price else h.rows[i + 1].price;
      assert rows'[j].Shown().price ==
        if j < k then h.rows[j].price else if j == n - 1 then next.price else h.rows[j + 1].price;
    }
    forall i | 0 <= i < n && rows'[i].Empty()
      ensures rows'[i].qty == 0 && rows'[i].count == 0
    {
      assert rows'[i].Shown() ==
        if i < k then h.rows[i].Shown() else if i == n - 1 then next else h.rows[i + 1].Shown();
    }
  }

  lemma RaisedCovers(rows: seq<Row>, rows': seq<Row>, k: nat, next: Level, q: int)
    requires Raised(rows, rows', k, next)
    requires q == next.price || (HasRow(rows, q) && rows[k].price != q)
    ensures HasRow(rows', q)
  {
    if q == next.price {
      assert rows'[|rows| - 1].Shown().price == q;
      assert rows'[|rows| - 1].price == q;
    } else {
      var i :| 0 <= i < |rows| && rows[i].price == q;
      if i < k {
        assert rows'[i].price == q;
      } else {
        assert rows'[i - 1].Shown() == rows[i].Shown();
        assert rows'[i - 1].price == q;
      }
    }
  }

  lemma EraseRep(h: Half, m: Sheet, isBuy: bool, k: nat, change: int)
    requires Rep(h, m, isBuy) && k < |h.rows| && !h.rows[k].Empty()
    ensures Rep(EraseSlot(h, k, isBuy, change), m - {h.rows[k].price}, isBuy)
  {
    hide EraseSlot, Covered, Raised, Agrees;
    var h', next := EraseSlot(h, k, isBuy, change), NextUp(h, isBuy);
    EraseRaises(h, m, isBuy, k, change);
    NextIsWorse(h, m, isBuy);
    RaisedIsSorted(h.rows, h'.rows, k, next, isBuy);
    RaisedHasShape(h, h'.rows, k, next);
    EraseCovers(h, m, isBuy, h'.rows, k);
    EraseAgrees(h, m, isBuy, h'.rows, k);
  }

  lemma NextIsWorse(h: Half, m: Sheet, isBuy: bool)
    requires Rep(h, m, isBuy)
    ensures var next := NextUp(h, isBuy);
      if h.excess == map[] then next == Level(INVALID_LEVEL_PRICE, 0, 0)
      else
        && next.price == BestExcess(h.excess, isBuy) && next.price in m && m[next.price] == next
        && next.price != INVALID_LEVEL_PRICE
        && !Last(h).Empty()
        && (forall i :: 0 <= i < |h.rows| ==> Better(isBuy, h.rows[i].price, next.price))
        && (forall p :: p in h.excess && p != next.price ==> Better(isBuy, next.price, p))
  {
    hide Covered, Agrees;
    if h.excess != map[] {
      var b := BestExcess(h.excess, isBuy);
      assert forall i :: 0 <= i < |h.rows| - 1 ==> Better(isBuy, h.rows[i].price, Last(h).price);
    }
  }

  lemma EraseCovers(h: Half, m: Sheet, isBuy: bool, rows': seq<Row>, k: nat)
    requires Shape(h) && Covered(h, m) && k < |h.rows| && Raised(h.rows, rows', k, NextUp(h, isBuy))
    ensures Covered(Half(rows', if h.excess == map[] then h.excess else h.excess - {BestExcess(h.excess, isBuy)}),
                    m - {h.rows[k].price})
  {
    hide Raised, HasRow;
    var e := if h.excess == map[] then h.excess else h.excess - {BestExcess(h.excess, isBuy)};
    forall q | q in m && q != h.rows[k].price
      ensures q in e || HasRow(rows', q)
    {
      if q !in e {
        RaisedCovers(h.rows, rows', k, NextUp(h, isBuy), q);
      }
    }
  }

  lemma EraseAgrees(h: Half, m: Sheet, isBuy: bool, rows': seq<Row>, k: nat)
    requires Rep(h, m, isBuy) && Raised(h.rows, rows', k, NextUp(h, isBuy)) && !h.rows[k].Empty()
    ensures Agrees(rows', m - {h.rows[k].price})
    ensures h.rows[k].price !in h.excess
    ensures |rows'| == |h.rows| && rows'[|rows'| - 1].Shown() == NextUp(h, isBuy)
  {
    hide Covered;
    var n, next, m' := |h.rows|, NextUp(h, isBuy), m - {h.rows[k].price};
    NextIsWorse(h, m, isBuy);
    forall i | 0 <= i < n && !rows'[i].Empty()
      ensures rows'[i].price in m' && m'[rows'[i].price] == rows'[i].Shown()
    {
      assert rows'[i].Shown() ==
        if i < k then h.rows[i].Shown() else if i == n - 1 then next else h.rows[i + 1].Shown();
    }
  }

  lemma DropRep(h: Half, m: Sheet, isBuy: bool, p: int)
    requires Rep(h, m, isBuy) && p in h.excess
    ensures Rep(h.(excess := h.excess - {p}), m - {p}, isBuy)
  {
    forall q | q in m - {p}
      ensures q in h.excess - {p} || HasRow(h.rows, q)
    {
    }
    forall i | 0 <= i < |h.rows| && !h.rows[i].Empty()
      ensures h.rows[i].price != p
    {
    }
  }
}
