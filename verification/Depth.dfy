/** Depth.hpp and DepthLevel.hpp: the levels of both sides, updated in place. */
module Depths {
  import opened DepthSide
  import R = DepthRuns
  import C = DepthChanges

  class DepthLevel {
    var price: int
    var totalQty: int
    var ordersCount: int
    var isExcess: bool
    var lastChange: int

    function Value(): Row
      reads this
    {
      Row(price, totalQty, ordersCount, isExcess, lastChange)
    }

    constructor ()
      ensures Value() == NEW_ROW
    {
      price, totalQty, ordersCount, isExcess, lastChange := INVALID_LEVEL_PRICE, 0, 0, false, 0;
    }

    /** operator= */
    method Assign(rhs: DepthLevel)
      modifies this
      ensures Value() == old(Value()).Assign(old(rhs.Value()))
      ensures totalQty == old(rhs.totalQty) && ordersCount == old(rhs.ordersCount) && price == old(rhs.price)
      ensures isExcess == old(isExcess)
      ensures lastChange == if old(rhs.price) != 0 then old(rhs.lastChange) else old(lastChange)
    {
      totalQty := rhs.totalQty;
      ordersCount := rhs.ordersCount;
      price := rhs.price;
      if rhs.price != INVALID_LEVEL_PRICE {
        lastChange := rhs.lastChange;
      }
    }

    method Init(price: int, isExcess: bool)
      modifies this
      ensures Value() == old(Value()).Init(price, isExcess)
    {
      this.price := price;
      totalQty := 0;
      ordersCount := 0;
      this.isExcess := isExcess;
    }

    method AddOrder(qty: int)
      modifies this
      ensures Value() == old(Value()).AddOrder(qty)
    {
      ordersCount := ordersCount + 1;
      totalQty := totalQty + qty;
    }

    method IncreaseQty(qty: int)
      modifies this
      ensures Value() == old(Value()).(qty := old(totalQty) + qty)
    {
      totalQty := totalQty + qty;
    }

    method DecreaseQty(qty: int)
      modifies this
      ensures Value() == old(Value()).(qty := old(totalQty) - qty)
    {
      totalQty := totalQty - qty;
    }

    /** Throws on a level without orders; tells whether the last order was closed. */
    method CloseOrder(qty: int) returns (threw: bool, emptyLevel: bool)
      modifies this
      ensures threw <==> old(ordersCount) == 0
      ensures emptyLevel <==> old(ordersCount) == 1
      ensures Value() == if threw then old(Value())
                         else if emptyLevel then old(Value()).(qty := 0, count := 0)
                         else old(Value()).CloseOrder(qty)
      ensures old(ordersCount) != 0 && old(ordersCount) != 1 ==>
        && ordersCount == old(ordersCount) - 1
        && totalQty == if old(totalQty) >= qty then old(totalQty) - qty else old(totalQty)
    {
      threw, emptyLevel := false, false;
      if ordersCount == 0 {
        return true, false;
      }
      if ordersCount == 1 {
        ordersCount := 0;
        totalQty := 0;
        emptyLevel := true;
      } else {
        ordersCount := ordersCount - 1;
        if totalQty >= qty {
          totalQty := totalQty - qty;
        }
      }
    }

    method LastChange(change: int)
      modifies this
      ensures Value() == old(Value()).Stamp(change)
    {
      lastChange := change;
    }
  }

  class Depth {
    const size: nat
    /** How many slots of a side a search visits; the source stops one short of the size. */
    const scan: nat
    /** The bid slots and then the ask slots. */
    const levels: seq<DepthLevel>
    var bidsExcess: map<int, DepthLevel>
    var asksExcess: map<int, DepthLevel>
    var lastChanged: int
    var lastPublished: int

    ghost predicate Valid()
      reads this, levels, bidsExcess.Values, asksExcess.Values
    {
      && size >= 1 && size - 1 <= scan <= size && |levels| == 2 * size
      && Distinct(levels, bidsExcess, asksExcess)
      && (forall i :: 0 <= i < |levels| ==> !levels[i].isExcess)
      && (forall p :: p in bidsExcess ==> bidsExcess[p].isExcess && bidsExcess[p].price == p)
      && (forall p :: p in asksExcess ==> asksExcess[p].isExcess && asksExcess[p].price == p)
    }

    static ghost predicate Distinct(levels: seq<DepthLevel>, bids: map<int, DepthLevel>, asks: map<int, DepthLevel>) {
      && (forall i, j :: 0 <= i < |levels| && 0 <= j < |levels| && i != j ==> levels[i] != levels[j])
      && (forall p, i :: p in bids && 0 <= i < |levels| ==> bids[p] != levels[i])
      && (forall p, i :: p in asks && 0 <= i < |levels| ==> asks[p] != levels[i])
      && (forall p, q :: p in bids && q in bids && p != q ==> bids[p] != bids[q])
      && (forall p, q :: p in asks && q in asks && p != q ==> asks[p] != asks[q])
      && (forall p, q :: p in bids && q in asks ==> bids[p] != asks[q])
    }

    function First(isBid: bool): nat {
      if isBid then 0 else size
    }

    function Excess(isBid: bool): map<int, DepthLevel>
      reads this
    {
      if isBid then bidsExcess else asksExcess
    }

    static ghost function Rows(ls: seq<DepthLevel>, from: nat, n: nat): (rows: seq<Row>)
      requires from + n <= |ls|
      reads ls
      ensures |rows| == n && forall i :: 0 <= i < n ==> rows[i] == ls[from + i].Value()
    {
      if n == 0 then [] else Rows(ls, from, n - 1) + [ls[from + n - 1].Value()]
    }

    static ghost function ExcessValues(m: map<int, DepthLevel>): map<int, Row>
      reads m.Values
    {
      map p | p in m :: m[p].Value()
    }

    ghost function Side(isBid: bool): Half
      requires |levels| == 2 * size
      reads this, levels, bidsExcess.Values, asksExcess.Values
    {
      Half(Rows(levels, First(isBid), size), ExcessValues(Excess(isBid)))
    }

    ghost function Snapshot(): R.Book
      requires |levels| == 2 * size
      reads this, levels, bidsExcess.Values, asksExcess.Values
    {
      R.Book(Side(true), Side(false), lastChanged, lastPublished)
    }

    /** The slot, or excess level, that a reference of the search stands for. */
    ghost predicate Points(level: DepthLevel?, at: int, ref: Ref, isBid: bool)
      reads this
    {
      match ref
      case Slot(i) => i < size && First(isBid) + i < |levels| && at == First(isBid) + i && level == levels[at]
      case Spilled(p) => p in Excess(isBid) && level == Excess(isBid)[p] && at == -1
      case Nowhere => level == null
    }

    method InsertLevelBefore(level: nat, isBid: bool, price: int)
      requires Valid() && First(isBid) <= level < First(isBid) + size
      modifies this, levels
      ensures Valid() && Grown(old(bidsExcess), old(asksExcess))
      ensures Side(isBid) == InsertBefore(old(Side(isBid)), level - First(isBid), price, old(lastChanged) + 1)
      ensures lastChanged == old(lastChanged) + 1 && lastPublished == old(lastPublished)
      ensures Side(!isBid) == old(Side(!isBid))
    {
      hide Valid, Rows, ExcessValues, Spill, Lower;
      SpillLast(isBid);
      ShiftDown(level, isBid, price);
    }

    /** Excess levels are only ever added as new objects. */
    twostate predicate Grown(bids: map<int, DepthLevel>, asks: map<int, DepthLevel>)
      reads this`bidsExcess, this`asksExcess
    {
      && (forall p :: p in bidsExcess ==> (p in bids && bidsExcess[p] == bids[p]) || fresh(bidsExcess[p]))
      && (forall p :: p in asksExcess ==> (p in asks && asksExcess[p] == asks[p]) || fresh(asksExcess[p]))
    }

    /** An excess level for a slot that is pushed out: the flag is set first and survives the assignment. */
    method CopyOut(slot: DepthLevel) returns (excessLevel: DepthLevel)
      ensures fresh(excessLevel) && excessLevel.Value() == NEW_ROW.Init(0, true).Assign(slot.Value())
    {
      excessLevel := new DepthLevel();
      excessLevel.Init(0, true);
      excessLevel.Assign(slot);
    }

    /** Inserts a level into the excess map, where there is none at its price. */
    method InsertExcess(isBid: bool, p: int, x: DepthLevel)
      requires Valid() && x !in levels && x !in bidsExcess.Values && x !in asksExcess.Values
      requires x.isExcess && x.price == p && p !in Excess(isBid)
      modifies this`bidsExcess, this`asksExcess
      ensures Valid() && Side(!isBid) == old(Side(!isBid))
      ensures Side(isBid) == old(Side(isBid)).(excess := old(Side(isBid)).excess[p := x.Value()])
      ensures Excess(isBid) == old(Excess(isBid))[p := x] && Excess(!isBid) == old(Excess(!isBid))
    {
      hide Distinct, Rows;
      DistinctWith(levels, bidsExcess, asksExcess, p, x);
      if isBid {
        bidsExcess := bidsExcess[p := x];
      } else {
        asksExcess := asksExcess[p := x];
      }
    }

    twostate lemma ValuesGrown()
      requires Grown(old(bidsExcess), old(asksExcess))
      ensures forall x :: x in bidsExcess.Values ==> x in old(bidsExcess.Values) || fresh(x)
      ensures forall x :: x in asksExcess.Values ==> x in old(asksExcess.Values) || fresh(x)
    {
      forall x | x in bidsExcess.Values
        ensures x in old(bidsExcess.Values) || fresh(x)
      {
        var p := KeyOf(bidsExcess, x);
      }
      forall x | x in asksExcess.Values
        ensures x in old(asksExcess.Values) || fresh(x)
      {
        var p := KeyOf(asksExcess, x);
      }
    }

    method SpillLast(isBid: bool)
      requires Valid()
      modifies this`bidsExcess, this`asksExcess
      ensures Valid() && Grown(old(bidsExcess), old(asksExcess))
      ensures Side(isBid).rows == old(Side(isBid)).rows && Side(!isBid) == old(Side(!isBid))
      ensures Side(isBid).excess == Spill(old(Side(isBid)).excess, levels[First(isBid) + size - 1].Value())
    {
      hide Distinct, Rows;
      var lastLevel := First(isBid) + size - 1;
      if levels[lastLevel].price != INVALID_LEVEL_PRICE {
        var excessLevel := CopyOut(levels[lastLevel]);
        if levels[lastLevel].price !in Excess(isBid) {
          InsertExcess(isBid, levels[lastLevel].price, excessLevel);
        }
      }
    }

    static lemma DistinctWith(levels: seq<DepthLevel>, bids: map<int, DepthLevel>, asks: map<int, DepthLevel>,
                              p: int, x: DepthLevel)
      requires Distinct(levels, bids, asks)
      requires x !in levels && x !in bids.Values && x !in asks.Values
      ensures Distinct(levels, bids[p := x], asks) && Distinct(levels, bids, asks[p := x])
    {
    }

    method ShiftDown(level: nat, isBid: bool, price: int)
      requires Valid() && First(isBid) <= level < First(isBid) + size
      modifies this, levels
      ensures Valid() && lastChanged == old(lastChanged) + 1
      ensures bidsExcess == old(bidsExcess) && asksExcess == old(asksExcess) && lastPublished == old(lastPublished)
      ensures Side(isBid).rows == Lower(old(Side(isBid)).rows, level - First(isBid), price, lastChanged)
      ensures Side(isBid).excess == old(Side(isBid)).excess && Side(!isBid) == old(Side(!isBid))
    {
      var lastLevel := First(isBid) + size - 1;
      lastChanged := lastChanged + 1;
      MoveDown(level, lastLevel, price, lastChanged);
      RowsStay(!isBid);
      ExcessStays();
      ShiftedRows(level, isBid, price);
    }

    twostate lemma ShiftedRows(new level: nat, new isBid: bool, new price: int)
      requires |levels| == 2 * size
      requires First(isBid) <= level
      requires level < First(isBid) + size
      requires forall i :: First(isBid) <= i < First(isBid) + size ==>
        i < level ==> levels[i].Value() == old(levels[i].Value())
      requires levels[level].Value() == old(levels[level].Value()).Init(price, false)
      requires forall i :: level < i < First(isBid) + size ==>
        levels[i].Value() == MovedDown(old(levels[i].Value()), old(levels[i - 1].Value()), lastChanged)
      ensures Side(isBid).rows == Lower(old(Side(isBid)).rows, level - First(isBid), price, lastChanged)
    {
      var f, was := First(isBid), old(Side(isBid)).rows;
      var rows := Lower(was, level - f, price, lastChanged);
      forall j | 0 <= j < size
        ensures levels[f + j].Value() == rows[j]
      {
        assert rows[j] == LowerAt(was, level - f, price, lastChanged, j);
        assert was[j] == old(levels[f + j].Value());
        if j > 0 {
          assert was[j - 1] == old(levels[f + j - 1].Value());
        }
      }
      RowsAre(levels, f, size, rows);
    }

    static lemma RowsAre(ls: seq<DepthLevel>, from: nat, n: nat, rows: seq<Row>)
      requires from + n <= |ls| && |rows| == n
      requires forall i :: 0 <= i < n ==> ls[from + i].Value() == rows[i]
      ensures Rows(ls, from, n) == rows
    {
    }

    twostate lemma RowsStay(isBid: bool)
      requires |levels| == 2 * size
      requires forall i :: First(isBid) <= i < First(isBid) + size ==> levels[i].Value() == old(levels[i].Value())
      ensures Side(isBid).rows == old(Side(isBid)).rows
    {
      var f := First(isBid);
      forall i | 0 <= i < size
        ensures levels[f + i].Value() == old(Side(isBid)).rows[i]
      {
        assert old(Side(isBid)).rows[i] == old(levels[f + i].Value());
      }
      RowsAre(levels, f, size, old(Side(isBid)).rows);
    }

    static twostate lemma MapStays(m: map<int, DepthLevel>)
      requires forall p :: p in m ==> m[p].Value() == old(m[p].Value())
      ensures ExcessValues(m) == old(ExcessValues(m))
    {
      var a, b := ExcessValues(m), old(ExcessValues(m));
      assert a.Keys == b.Keys;
      forall p | p in m
        ensures a[p] == b[p]
      {
        assert a[p] == m[p].Value() && b[p] == old(m[p].Value());
      }
    }

    twostate lemma ExcessStays()
      requires |levels| == 2 * size
      requires bidsExcess == old(bidsExcess)
      requires asksExcess == old(asksExcess)
      requires forall p :: p in bidsExcess ==> bidsExcess[p].Value() == old(bidsExcess[p].Value())
      requires forall p :: p in asksExcess ==> asksExcess[p].Value() == old(asksExcess[p].Value())
      ensures forall isBid :: Side(isBid).excess == old(Side(isBid)).excess
    {
      MapStays(bidsExcess);
      MapStays(asksExcess);
    }

    method MoveDown(level: nat, lastLevel: nat, price: int, change: int)
      requires Valid() && level <= lastLevel < |levels|
      modifies levels
      ensures Valid()
      ensures forall j :: 0 <= j < |levels| && !(level <= j <= lastLevel) ==>
        levels[j].Value() == old(levels[j].Value())
      ensures levels[level].Value() == old(levels[level].Value()).Init(price, false)
      ensures forall j :: level < j <= lastLevel ==>
                levels[j].Value() == MovedDown(old(levels[j].Value()), old(levels[j - 1].Value()), change)
    {
      CopyDown(levels, level, lastLevel, price, change);
    }

    /** Slots that are different objects, where only one of them has changed. */
    static twostate predicate OnlySlot(levels: seq<DepthLevel>, k: nat)
      requires k < |levels|
      reads levels
    {
      && levels[k].isExcess == old(levels[k].isExcess)
      && forall j :: 0 <= j < |levels| && j != k ==> levels[j].Value() == old(levels[j].Value())
    }

    /** One turn of the loop: a slot takes over the one above it. */
    static method CopyBelow(levels: seq<DepthLevel>, k: nat, change: int)
      requires k + 1 < |levels|
      requires forall i, j :: 0 <= i < |levels| && 0 <= j < |levels| && i != j ==> levels[i] != levels[j]
      modifies levels[k + 1]
      ensures levels[k + 1].Value() == MovedDown(old(levels[k + 1].Value()), old(levels[k].Value()), change)
      ensures OnlySlot(levels, k + 1)
    {
      levels[k + 1].Assign(levels[k]);
      if levels[k].price != INVALID_LEVEL_PRICE {
        levels[k + 1].LastChange(change);
      }
    }

    /** The loop from the last slot up to the new one. */
    static method CopyDown(levels: seq<DepthLevel>, level: nat, lastLevel: nat, price: int, change: int)
      requires level <= lastLevel < |levels|
      requires forall i, j :: 0 <= i < |levels| && 0 <= j < |levels| && i != j ==> levels[i] != levels[j]
      requires !levels[level].isExcess
      modifies levels
      ensures forall j :: 0 <= j < |levels| && j != level ==> levels[j].isExcess == old(levels[j].isExcess)
      ensures forall j :: 0 <= j < |levels| && !(level <= j <= lastLevel) ==>
        levels[j].Value() == old(levels[j].Value())
      ensures levels[level].Value() == old(levels[level].Value()).Init(price, false)
      ensures forall j :: level < j <= lastLevel ==>
                levels[j].Value() == MovedDown(old(levels[j].Value()), old(levels[j - 1].Value()), change)
    {
      var currLevel := lastLevel - 1;
      while currLevel >= level
        invariant level - 1 <= currLevel < lastLevel
        invariant forall j :: 0 <= j < |levels| ==> levels[j].isExcess == old(levels[j].isExcess)
        invariant forall j :: 0 <= j < |levels| && !(currLevel + 1 < j <= lastLevel) ==>
          levels[j].Value() == old(levels[j].Value())
        invariant forall j :: currLevel + 1 < j <= lastLevel ==>
                    levels[j].Value() == MovedDown(old(levels[j].Value()), old(levels[j - 1].Value()), change)
      {
        hide MovedDown;
        CopyBelow(levels, currLevel, change);
        currLevel := currLevel - 1;
      }
      levels[level].Init(price, false);
    }

    method EraseLevel(level: DepthLevel, at: int, isBid: bool, ghost ref: Ref)
      requires Valid() && Points(level, at, ref, isBid)
      modifies this, levels
      ensures Valid() && Grown(old(bidsExcess), old(asksExcess))
      ensures In(old(Side(isBid)), ref)
      ensures var d := Erase(old(Side(isBid)), old(lastChanged), ref, isBid);
        Side(isBid) == d.h && lastChanged == d.changed && lastPublished == old(lastPublished)
      ensures Side(!isBid) == old(Side(!isBid))
    {
      PointsAtValue(level, at, ref, isBid);
      hide Valid, Side, EraseSlot;
      if level.isExcess {
        EraseExcess(isBid, level.price);
      } else {
        EraseFromSlots(at, isBid);
      }
    }

    method EraseFromSlots(at: int, isBid: bool)
      requires Valid() && First(isBid) <= at < First(isBid) + size
      modifies this, levels
      ensures Valid() && Grown(old(bidsExcess), old(asksExcess))
      ensures lastChanged == old(lastChanged) + 1 && lastPublished == old(lastPublished)
      ensures Side(isBid) == EraseSlot(old(Side(isBid)), at - First(isBid), isBid, lastChanged)
      ensures Side(!isBid) == old(Side(!isBid))
    {
      hide Distinct, Raise, Rows, ExcessValues, Refilled, BestExcess, MovedUp;
      ghost var was := Side(isBid);
      var lastSideLevel := First(isBid) + size - 1;
      ghost var refill := at - First(isBid) == size - 1 || !was.rows[size - 1].Empty();
      ghost var last :=
        if refill then Refilled(was.rows[size - 1], was.excess, isBid, lastChanged + 1) else was.rows[size - 1];
      RaiseSlots(at, isBid);
      assert levels[lastSideLevel].Value() == was.rows[size - 1] || at == lastSideLevel;
      if at == lastSideLevel || levels[lastSideLevel].price != INVALID_LEVEL_PRICE {
        Refill(isBid);
      }
      RaisedRows(at, isBid, last);
    }

    method RaiseSlots(at: int, isBid: bool)
      requires Valid() && First(isBid) <= at < First(isBid) + size
      modifies this, levels
      ensures Valid() && lastChanged == old(lastChanged) + 1 && lastPublished == old(lastPublished)
      ensures bidsExcess == old(bidsExcess) && asksExcess == old(asksExcess)
      ensures Side(isBid).excess == old(Side(isBid)).excess && Side(!isBid) == old(Side(!isBid))
      ensures forall i :: First(isBid) <= i < at || i == First(isBid) + size - 1 ==>
        levels[i].Value() == old(levels[i].Value())
      ensures forall i :: at <= i < First(isBid) + size - 1 ==>
        levels[i].Value() == MovedUp(old(levels[i].Value()), old(levels[i + 1].Value()), lastChanged, i == at)
    {
      var lastSideLevel := First(isBid) + size - 1;
      lastChanged := lastChanged + 1;
      MoveUp(at, lastSideLevel, lastChanged);
      RowsStay(!isBid);
      ExcessStays();
    }

    twostate lemma RaisedRows(new at: int, new isBid: bool, new last: Row)
      requires |levels| == 2 * size
      requires First(isBid) <= at
      requires at < First(isBid) + size
      requires forall i :: First(isBid) <= i < First(isBid) + size ==>
        i < at ==> levels[i].Value() == old(levels[i].Value())
      requires levels[First(isBid) + size - 1].Value() == last
      requires forall i :: at <= i < First(isBid) + size - 1 ==>
        levels[i].Value() == MovedUp(old(levels[i].Value()), old(levels[i + 1].Value()), lastChanged, i == at)
      ensures Side(isBid).rows == Raise(old(Side(isBid)).rows, at - First(isBid), lastChanged, last)
    {
      var f, was := First(isBid), old(Side(isBid)).rows;
      var rows := Raise(was, at - f, lastChanged, last);
      forall j | 0 <= j < size
        ensures levels[f + j].Value() == rows[j]
      {
        assert rows[j] == RaiseAt(was, at - f, lastChanged, last, j);
        assert was[j] == old(levels[f + j].Value());
        if j < size - 1 {
          assert was[j + 1] == old(levels[f + j + 1].Value());
        }
      }
      RowsAre(levels, f, size, rows);
    }

    method EraseExcess(isBid: bool, p: int)
      requires Valid()
      modifies this`bidsExcess, this`asksExcess
      ensures Valid() && Grown(old(bidsExcess), old(asksExcess))
      ensures Side(isBid) == old(Side(isBid)).(excess := old(Side(isBid)).excess - {p})
      ensures Side(!isBid) == old(Side(!isBid))
    {
      hide Rows, Distinct;
      DistinctWithout(levels, bidsExcess, asksExcess, p);
      if isBid {
        bidsExcess := bidsExcess - {p};
      } else {
        asksExcess := asksExcess - {p};
      }
    }

    static lemma DistinctWithout(levels: seq<DepthLevel>, bids: map<int, DepthLevel>, asks: map<int, DepthLevel>,
                                 p: int)
      requires Distinct(levels, bids, asks)
      ensures Distinct(levels, bids - {p}, asks) && Distinct(levels, bids, asks - {p})
    {
    }

    /** The loop from the erased slot down to the last one, which is left as it was. */
    method MoveUp(level: nat, lastLevel: nat, change: int)
      requires Valid() && level <= lastLevel < |levels|
      modifies levels
      ensures Valid()
      ensures forall j :: 0 <= j < |levels| && !(level <= j < lastLevel) ==> levels[j].Value() == old(levels[j].Value())
      ensures forall j :: level <= j < lastLevel ==>
                levels[j].Value() == MovedUp(old(levels[j].Value()), old(levels[j + 1].Value()), change, j == level)
    {
      var currLevel := level;
      while currLevel < lastLevel
        invariant level <= currLevel <= lastLevel
        invariant forall j :: 0 <= j < |levels| ==> !levels[j].isExcess
        invariant forall j :: 0 <= j < |levels| && !(level <= j < currLevel) ==>
          levels[j].Value() == old(levels[j].Value())
        invariant forall j :: level <= j < currLevel ==>
                    levels[j].Value() == MovedUp(old(levels[j].Value()), old(levels[j + 1].Value()), change, j == level)
      {
        if levels[currLevel].price != INVALID_LEVEL_PRICE || currLevel == level {
          levels[currLevel].Assign(levels[currLevel + 1]);
          levels[currLevel].LastChange(change);
        }
        currLevel := currLevel + 1;
      }
    }

    method Refill(isBid: bool)
      requires Valid()
      modifies this, levels[First(isBid) + size - 1]
      ensures lastChanged == old(lastChanged) && lastPublished == old(lastPublished)
      ensures Valid() && Grown(old(bidsExcess), old(asksExcess))
      ensures levels[First(isBid) + size - 1].Value()
           == Refilled(old(levels[First(isBid) + size - 1].Value()), old(Side(isBid)).excess, isBid, lastChanged)
      ensures forall i :: 0 <= i < |levels| && i != First(isBid) + size - 1 ==>
        levels[i].Value() == old(levels[i].Value())
      ensures Side(isBid).excess == if old(Side(isBid)).excess == map[] then map[]
                                    else old(Side(isBid)).excess - {BestExcess(old(Side(isBid)).excess, isBid)}
      ensures Side(!isBid) == old(Side(!isBid))
    {
      var lastSideLevel := First(isBid) + size - 1;
      var excess := Excess(isBid);
      assert Side(isBid).excess.Keys == excess.Keys;
      if excess != map[] {
        KeysOfSome(excess);
        TakeBack(isBid, BestPrice(excess.Keys, isBid));
      } else {
        levels[lastSideLevel].Init(INVALID_LEVEL_PRICE, false);
        LastSlotAlone(isBid);
        StampLast(isBid);
      }
      StampLast(isBid);
    }

    method StampLast(isBid: bool)
      requires Valid()
      modifies levels[First(isBid) + size - 1]
      ensures Valid() && Side(isBid).excess == old(Side(isBid)).excess && Side(!isBid) == old(Side(!isBid))
      ensures levels[First(isBid) + size - 1].Value() == old(levels[First(isBid) + size - 1].Value()).Stamp(lastChanged)
    {
      levels[First(isBid) + size - 1].LastChange(lastChanged);
      LastSlotAlone(isBid);
    }

    /** The last slot takes over an excess level. */
    method TakeBack(isBid: bool, p: int)
      requires Valid() && p in Excess(isBid)
      modifies this, levels[First(isBid) + size - 1]
      ensures lastChanged == old(lastChanged) && lastPublished == old(lastPublished)
      ensures Valid() && Grown(old(bidsExcess), old(asksExcess))
      ensures levels[First(isBid) + size - 1].Value()
           == old(levels[First(isBid) + size - 1].Value()).Assign(old(Side(isBid)).excess[p])
      ensures Side(isBid).excess == old(Side(isBid)).excess - {p} && Side(!isBid) == old(Side(!isBid))
    {
      levels[First(isBid) + size - 1].Assign(Excess(isBid)[p]);
      LastSlotAlone(isBid);
      assert Valid();
      hide Distinct;
      EraseExcess(isBid, p);
    }

    /** A write to the last slot of a side touches no other level. */
    twostate lemma LastSlotAlone(isBid: bool)
      requires |levels| == 2 * size
      requires size >= 1
      requires bidsExcess == old(bidsExcess)
      requires asksExcess == old(asksExcess)
      requires forall i :: 0 <= i < |levels| && i != First(isBid) + size - 1 ==>
        levels[i].Value() == old(levels[i].Value())
      requires forall p :: p in bidsExcess ==> bidsExcess[p].Value() == old(bidsExcess[p].Value())
      requires forall p :: p in asksExcess ==> asksExcess[p].Value() == old(asksExcess[p].Value())
      ensures forall b :: Side(b).excess == old(Side(b)).excess
      ensures Side(!isBid) == old(Side(!isBid))
    {
      ExcessStays();
      forall i | First(!isBid) <= i < First(!isBid) + size
        ensures levels[i].Value() == old(levels[i].Value())
      {
      }
      RowsStay(!isBid);
    }

    /** Finds or creates the level of a price; the level is null when there is none to be found. */
    method FindLevel(price: int, isBid: bool, shouldCreate: bool)
      returns (level: DepthLevel?, at: int, ghost ref: Ref)
      requires Valid()
      modifies this, levels
      ensures Valid() && Grown(old(bidsExcess), old(asksExcess)) && Points(level, at, ref, isBid)
      ensures Found(Side(isBid), lastChanged, ref)
           == Find(old(Side(isBid)), old(lastChanged), price, isBid, shouldCreate, scan)
      ensures Side(!isBid) == old(Side(!isBid)) && lastPublished == old(lastPublished)
      ensures level == null <==> ref == Nowhere
      ensures !shouldCreate ==> bidsExcess == old(bidsExcess) && asksExcess == old(asksExcess)
      ensures level != null ==>
        level in levels || level in old(bidsExcess.Values) || level in old(asksExcess.Values) || fresh(level)
    {
      hide Distinct, Rows, ExcessValues, Search, Stops, InsertBefore;
      var levelIt, end := SearchSlots(price, isBid, shouldCreate);
      if levelIt == end {
        level, at, ref := FindExcess(price, isBid, shouldCreate, levelIt);
      } else {
        level, at, ref := levels[levelIt], levelIt, Slot(levelIt - First(isBid));
        if levels[levelIt].price != price {
          if levels[levelIt].price == INVALID_LEVEL_PRICE {
            InitSlot(levelIt, isBid, price);
          } else {
            InsertLevelBefore(levelIt, isBid, price);
          }
        }
      }
    }

    /** A new excess level without orders. */
    method CreateExcess(price: int, isBid: bool) returns (newLevel: DepthLevel)
      requires Valid() && price !in Excess(isBid)
      modifies this`bidsExcess, this`asksExcess
      ensures Valid() && Grown(old(bidsExcess), old(asksExcess)) && fresh(newLevel)
      ensures price in Excess(isBid) && Excess(isBid)[price] == newLevel
      ensures Side(isBid)
           == old(Side(isBid)).(excess := old(Side(isBid)).excess[price := NEW_ROW.Init(price, true)])
      ensures Side(!isBid) == old(Side(!isBid))
    {
      hide Distinct, Rows, ExcessValues;
      newLevel := new DepthLevel();
      newLevel.Init(price, true);
      InsertExcess(isBid, price, newLevel);
    }

    /** No slot was found: the level may be among the excess levels; if not, the pointer stays at the end. */
    method FindExcess(price: int, isBid: bool, shouldCreate: bool, end: nat)
      returns (level: DepthLevel?, at: int, ghost ref: Ref)
      requires Valid() && end == First(isBid) + scan
      modifies this`bidsExcess, this`asksExcess
      ensures Valid() && Grown(old(bidsExcess), old(asksExcess)) && Points(level, at, ref, isBid)
      ensures ref == if price in old(Side(isBid)).excess || shouldCreate then Spilled(price)
                     else if scan < size then Slot(scan) else Nowhere
      ensures Side(isBid) ==
        if price in old(Side(isBid)).excess || !shouldCreate then old(Side(isBid))
        else old(Side(isBid)).(excess := old(Side(isBid)).excess[price := NEW_ROW.Init(price, true)])
      ensures Side(!isBid) == old(Side(!isBid))
      ensures !shouldCreate ==> bidsExcess == old(bidsExcess) && asksExcess == old(asksExcess)
    {
      assert Side(isBid).excess.Keys == Excess(isBid).Keys;
      hide Distinct, Rows, ExcessValues;
      if price in Excess(isBid) {
        level, at, ref := Excess(isBid)[price], -1, Spilled(price);
      } else if shouldCreate {
        level := CreateExcess(price, isBid);
        at, ref := -1, Spilled(price);
      } else if scan < size {
        level, at, ref := levels[end], end, Slot(scan);
      } else {
        level, at, ref := null, -1, Nowhere;
      }
    }

    /** The linear search; it ends at `end` when no slot stops it. */
    method SearchSlots(price: int, isBid: bool, shouldCreate: bool) returns (levelIt: nat, end: nat)
      requires Valid()
      ensures end == First(isBid) + scan && First(isBid) <= levelIt <= end
      ensures levelIt - First(isBid) == Search(Side(isBid).rows, 0, scan, price, isBid, shouldCreate)
      ensures levelIt < end ==> StopsAt(levelIt, price, isBid, shouldCreate)
      ensures levelIt < end ==> Side(isBid).rows[levelIt - First(isBid)] == levels[levelIt].Value()
    {
      hide Distinct;
      var begin := First(isBid);
      end := begin + scan;
      levelIt := begin;
      ghost var rows := Side(isBid).rows;
      while levelIt != end && !StopsAt(levelIt, price, isBid, shouldCreate)
        invariant begin <= levelIt <= end
        invariant forall j :: 0 <= j < levelIt - begin ==> !Stops(rows[j], price, isBid, shouldCreate)
        decreases end - levelIt
      {
        assert rows[levelIt - begin] == levels[levelIt].Value();
        levelIt := levelIt + 1;
      }
      SearchIs(rows, 0, scan, price, isBid, shouldCreate, levelIt - begin);
    }

    /** The tests of one turn of the search loop. */
    predicate StopsAt(levelIt: nat, price: int, isBid: bool, shouldCreate: bool)
      requires levelIt < |levels|
      reads levels[levelIt]
    {
      var p := levels[levelIt].price;
      || p == price
      || (shouldCreate && p == INVALID_LEVEL_PRICE)
      || (isBid && shouldCreate && p < price)
      || (!isBid && shouldCreate && p > price)
    }

    method InitSlot(level: nat, isBid: bool, price: int)
      requires Valid() && First(isBid) <= level < First(isBid) + size
      modifies levels[level]
      ensures Valid() && Side(!isBid) == old(Side(!isBid)) && Side(isBid).excess == old(Side(isBid)).excess
      ensures var k := level - First(isBid);
        Side(isBid).rows == old(Side(isBid)).rows[k := old(Side(isBid)).rows[k].Init(price, false)]
    {
      levels[level].Init(price, false);
      SlotAlone(level);
    }

    /** A write to one slot touches no other slot of its side. */
    twostate lemma SlotOfSide(new level: nat, new isBid: bool)
      requires |levels| == 2 * size
      requires First(isBid) <= level
      requires level < First(isBid) + size
      requires forall i :: 0 <= i < |levels| && i != level ==> levels[i].Value() == old(levels[i].Value())
      ensures Side(isBid).rows == old(Side(isBid)).rows[level - First(isBid) := levels[level].Value()]
    {
      var f, was := First(isBid), old(Side(isBid)).rows;
      var rows := was[level - f := levels[level].Value()];
      forall j | 0 <= j < size
        ensures levels[f + j].Value() == rows[j]
      {
        assert was[j] == old(levels[f + j].Value());
      }
      RowsAre(levels, f, size, rows);
    }

    /** A write to one slot touches no other level. */
    twostate lemma SlotAlone(new level: nat)
      requires |levels| == 2 * size
      requires level < |levels|
      requires bidsExcess == old(bidsExcess)
      requires asksExcess == old(asksExcess)
      requires forall i :: 0 <= i < |levels| && i != level ==> levels[i].Value() == old(levels[i].Value())
      requires forall p :: p in bidsExcess ==> bidsExcess[p].Value() == old(bidsExcess[p].Value())
      requires forall p :: p in asksExcess ==> asksExcess[p].Value() == old(asksExcess[p].Value())
      ensures forall b :: Side(b).excess == old(Side(b)).excess
      ensures forall b :: First(b) <= level < First(b) + size ==>
        && Side(b).rows == old(Side(b)).rows[level - First(b) := levels[level].Value()]
        && Side(!b) == old(Side(!b))
    {
      hide Rows, ExcessValues;
      ExcessStays();
      var isBid := level < size;
      SlotOfSide(level, isBid);
      RowsStay(!isBid);
    }

    lemma PointsAtValue(level: DepthLevel, at: int, ref: Ref, isBid: bool)
      requires Valid() && Points(level, at, ref, isBid)
      ensures In(Side(isBid), ref) && Get(Side(isBid), ref) == level.Value()
      ensures level.isExcess == ref.Spilled? && (ref.Spilled? ==> level.price == ref.price)
    {
    }

    /** A write to the level found touches no other level. */
    twostate lemma LevelAlone(new level: DepthLevel, new at: int, new ref: Ref, new isBid: bool)
      requires old(Valid())
      requires Points(level, at, ref, isBid)
      requires level.isExcess == ref.Spilled?
      requires ref.Spilled? ==> level.price == ref.price
      requires bidsExcess == old(bidsExcess)
      requires asksExcess == old(asksExcess)
      requires forall i :: 0 <= i < |levels| && levels[i] != level ==> levels[i].Value() == old(levels[i].Value())
      requires forall p :: p in bidsExcess && bidsExcess[p] != level ==>
        bidsExcess[p].Value() == old(bidsExcess[p].Value())
      requires forall p :: p in asksExcess && asksExcess[p] != level ==>
        asksExcess[p].Value() == old(asksExcess[p].Value())
      ensures In(old(Side(isBid)), ref) && Side(isBid) == Put(old(Side(isBid)), ref, level.Value())
      ensures Side(!isBid) == old(Side(!isBid))
      ensures Valid()
    {
      ValidAgain(level);
      match ref
      case Slot(i) =>
        SlotAlone(at);
      case Spilled(p) =>
        RowsStay(isBid);
        RowsStay(!isBid);
        MapStays(Excess(!isBid));
        ExcessAlone(level, p, isBid);
    }

    twostate lemma ValidAgain(new level: DepthLevel)
      requires old(Valid())
      requires bidsExcess == old(bidsExcess)
      requires asksExcess == old(asksExcess)
      requires forall i :: 0 <= i < |levels| && levels[i] != level ==> levels[i].Value() == old(levels[i].Value())
      requires forall p :: p in bidsExcess && bidsExcess[p] != level ==>
        bidsExcess[p].Value() == old(bidsExcess[p].Value())
      requires forall p :: p in asksExcess && asksExcess[p] != level ==>
        asksExcess[p].Value() == old(asksExcess[p].Value())
      requires forall i :: 0 <= i < |levels| && levels[i] == level ==> !level.isExcess
      requires forall p :: p in bidsExcess && bidsExcess[p] == level ==> level.isExcess && level.price == p
      requires forall p :: p in asksExcess && asksExcess[p] == level ==> level.isExcess && level.price == p
      ensures Valid()
    {
      hide Distinct;
      forall i | 0 <= i < |levels|
        ensures !levels[i].isExcess
      {
        assert levels[i] != level ==> levels[i].Value() == old(levels[i].Value());
      }
      forall p | p in bidsExcess
        ensures bidsExcess[p].isExcess && bidsExcess[p].price == p
      {
        assert bidsExcess[p] != level ==> bidsExcess[p].Value() == old(bidsExcess[p].Value());
      }
      forall p | p in asksExcess
        ensures asksExcess[p].isExcess && asksExcess[p].price == p
      {
        assert asksExcess[p] != level ==> asksExcess[p].Value() == old(asksExcess[p].Value());
      }
    }

    twostate lemma ExcessAlone(new level: DepthLevel, new p: int, new isBid: bool)
      requires Valid()
      requires p in Excess(isBid) && level == Excess(isBid)[p]
      requires Excess(isBid) == old(Excess(isBid))
      requires forall q :: q in Excess(isBid) && q != p ==> Excess(isBid)[q].Value() == old(Excess(isBid)[q].Value())
      ensures Side(isBid).excess == old(Side(isBid)).excess[p := level.Value()]
    {
      var a, b := ExcessValues(Excess(isBid)), old(ExcessValues(Excess(isBid)));
      assert a.Keys == b.Keys;
      forall q | q in Excess(isBid)
        ensures a[q] == b[p := level.Value()][q]
      {
        if q != p {
          assert a[q] == Excess(isBid)[q].Value() && b[q] == old(Excess(isBid)[q].Value());
        }
      }
    }

    // ---- the calls ----

    constructor (size: nat, scan: nat)
      requires size >= 1 && size - 1 <= scan <= size
      ensures Valid() && this.size == size && this.scan == scan
      ensures Snapshot() == R.EmptyBook(size)
    {
      this.size, this.scan := size, scan;
      var ls := NewLevels(2 * size);
      levels := ls;
      bidsExcess, asksExcess := map[], map[];
      lastChanged, lastPublished := 0, 0;
      new;
      RowsAre(levels, 0, size, R.EmptyHalf(size).rows);
      RowsAre(levels, size, size, R.EmptyHalf(size).rows);
    }

    static method NewLevels(n: nat) returns (ls: seq<DepthLevel>)
      ensures |ls| == n && fresh(ls)
      ensures forall i, j :: 0 <= i < n && 0 <= j < n && i != j ==> ls[i] != ls[j]
      ensures forall i :: 0 <= i < n ==> ls[i].Value() == NEW_ROW
    {
      ls := [];
      while |ls| < n
        invariant |ls| <= n && fresh(ls)
        invariant forall i, j :: 0 <= i < |ls| && 0 <= j < |ls| && i != j ==> ls[i] != ls[j]
        invariant forall i :: 0 <= i < |ls| ==> ls[i].Value() == NEW_ROW
      {
        var l := new DepthLevel();
        ls := ls + [l];
      }
    }

    method AddOrder(price: int, qty: int, isBid: bool)
      requires Valid()
      modifies this, levels, bidsExcess.Values, asksExcess.Values
      ensures Valid() && Grown(old(bidsExcess), old(asksExcess))
      ensures var d := Add(old(Side(isBid)), old(lastChanged), price, qty, isBid, scan);
        Side(isBid) == d.h && lastChanged == d.changed
      ensures Side(!isBid) == old(Side(!isBid)) && lastPublished == old(lastPublished)
    {
      hide Find, Valid, Distinct, ExcessValues, Rows, Put, Side, Points, Grown;
      var level, at, ref := FindLevel(price, isBid, true);
      if level != null {
        AddAt(level, at, isBid, ref, qty);
      }
    }

    method AddAt(level: DepthLevel, at: int, isBid: bool, ghost ref: Ref, qty: int)
      requires Valid() && Points(level, at, ref, isBid)
      modifies this`lastChanged, level
      ensures Valid() && In(old(Side(isBid)), ref)
      ensures var r := Get(old(Side(isBid)), ref).AddOrder(qty);
        && lastChanged == old(lastChanged) + (if r.isExcess then 0 else 1)
        && Side(isBid) == Put(old(Side(isBid)), ref, if r.isExcess then r else r.Stamp(lastChanged))
      ensures Side(!isBid) == old(Side(!isBid))
    {
      hide Distinct, ExcessValues, Rows;
      PointsAtValue(level, at, ref, isBid);
      level.AddOrder(qty);
      if !level.isExcess {
        // Depth changes are to be published.
        lastChanged := lastChanged + 1;
        level.LastChange(lastChanged);
      }
      LevelAlone(level, at, ref, isBid);
    }

    method ReplaceOrder(oldPrice: int, newPrice: int, oldQty: int, newQty: int, isBid: bool)
      returns (threw: bool, erased: bool)
      requires Valid()
      modifies this, levels, bidsExcess.Values, asksExcess.Values
      ensures Valid() && Grown(old(bidsExcess), old(asksExcess))
      ensures var d := Replace(old(Side(isBid)), old(lastChanged), oldPrice, newPrice, oldQty, newQty, isBid, scan);
        Side(isBid) == d.h && lastChanged == d.changed
      ensures Side(!isBid) == old(Side(!isBid)) && lastPublished == old(lastPublished)
      ensures var h := Add(old(Side(isBid)), old(lastChanged), newPrice, newQty, isBid, scan).h;
        && (threw <==> oldPrice != newPrice && CloseThrows(h, oldPrice, isBid, scan))
        && (erased <==> oldPrice != newPrice && CloseErases(h, oldPrice, isBid, scan))
    {
      hide Valid, Side, Add, Close, ChangeQty, CloseThrows, CloseErases;
      threw, erased := false, false;
      if oldPrice == newPrice {
        var delta := newQty - oldQty;
        ChangeQtyOrder(newPrice, delta, isBid);
      } else {
        AddOrder(newPrice, newQty, isBid);
        ValuesGrown();
        threw, erased := CloseOrder(oldPrice, oldQty, isBid);
      }
    }

    /** A search that creates nothing. */
    method LookUp(price: int, isBid: bool) returns (level: DepthLevel?, at: int, ghost ref: Ref)
      requires Valid()
      modifies this, levels
      ensures Valid() && Points(level, at, ref, isBid)
      ensures bidsExcess == old(bidsExcess) && asksExcess == old(asksExcess)
      ensures ref == Find(Side(isBid), old(lastChanged), price, isBid, false, scan).ref
      ensures ref == Find(Side(isBid), 0, price, isBid, false, scan).ref
      ensures Side(isBid) == old(Side(isBid)) && Side(!isBid) == old(Side(!isBid))
      ensures lastChanged == old(lastChanged) && lastPublished == old(lastPublished)
      ensures if level == null then ref == Nowhere
              else In(Side(isBid), ref) && Get(Side(isBid), ref) == level.Value()
      ensures level != null ==>
        level in levels || level in old(bidsExcess.Values) || level in old(asksExcess.Values) || fresh(level)
    {
      SearchChangesNothing(Side(isBid), lastChanged, price, isBid, scan);
      hide Find, Valid, Distinct, ExcessValues, Rows, Side;
      level, at, ref := FindLevel(price, isBid, false);
      if level != null {
        PointsAtValue(level, at, ref, isBid);
      }
    }

    method ChangeQtyOrder(price: int, delta: int, isBid: bool)
      requires Valid()
      modifies this, levels, bidsExcess.Values, asksExcess.Values
      ensures Valid() && Grown(old(bidsExcess), old(asksExcess))
      ensures var d := ChangeQty(old(Side(isBid)), old(lastChanged), price, delta, isBid, scan);
        Side(isBid) == d.h && lastChanged == d.changed
      ensures Side(!isBid) == old(Side(!isBid)) && lastPublished == old(lastPublished)
    {
      hide Find, Valid, Distinct, ExcessValues, Rows, Put, Side, Points;
      var level, at, ref := LookUp(price, isBid);
      if level != null && delta != 0 {
        ChangeAt(level, at, isBid, ref, delta);
      }
    }

    method ChangeAt(level: DepthLevel, at: int, isBid: bool, ghost ref: Ref, delta: int)
      requires Valid() && Points(level, at, ref, isBid)
      modifies this`lastChanged, level
      ensures Valid() && In(old(Side(isBid)), ref) && lastChanged == old(lastChanged) + 1
      ensures var r := Get(old(Side(isBid)), ref);
        Side(isBid) == Put(old(Side(isBid)), ref, r.(qty := r.qty + delta).Stamp(lastChanged))
      ensures Side(!isBid) == old(Side(!isBid))
    {
      hide Distinct, ExcessValues, Rows;
      PointsAtValue(level, at, ref, isBid);
      if delta > 0 {
        level.IncreaseQty(delta);
      } else {
        level.DecreaseQty(-delta);
      }
      lastChanged := lastChanged + 1;
      level.LastChange(lastChanged);
      LevelAlone(level, at, ref, isBid);
    }

    method CloseOrder(price: int, openQty: int, isBid: bool) returns (threw: bool, erased: bool)
      requires Valid()
      modifies this, levels, bidsExcess.Values, asksExcess.Values
      ensures Valid() && Grown(old(bidsExcess), old(asksExcess))
      ensures threw <==> CloseThrows(old(Side(isBid)), price, isBid, scan)
      ensures erased <==> CloseErases(old(Side(isBid)), price, isBid, scan)
      ensures var d := Close(old(Side(isBid)), old(lastChanged), price, openQty, isBid, scan);
        Side(isBid) == d.h && lastChanged == d.changed
      ensures Side(!isBid) == old(Side(!isBid)) && lastPublished == old(lastPublished)
    {
      hide Find, Valid, Distinct, ExcessValues, Rows, Put, Erase, Side, Points;
      threw, erased := false, false;
      var level, at, ref := LookUp(price, isBid);
      if level != null {
        threw, erased := CloseAt(level, at, isBid, ref, openQty);
        if erased {
          EraseLevel(level, at, isBid, ref);
        }
      }
    }

    /** What happens before a level that lost its last order is erased. */
    method CloseAt(level: DepthLevel, at: int, isBid: bool, ghost ref: Ref, openQty: int)
      returns (threw: bool, last: bool)
      requires Valid() && Points(level, at, ref, isBid)
      modifies this`lastChanged, level
      ensures Valid() && In(old(Side(isBid)), ref) && Points(level, at, ref, isBid)
      ensures var r := Get(old(Side(isBid)), ref);
        && (threw <==> r.count == 0) && (last <==> r.count == 1)
        && lastChanged == old(lastChanged) + (if threw || last then 0 else 1)
        && Side(isBid) ==
           if threw then old(Side(isBid))
           else Put(old(Side(isBid)), ref,
                    if last then r.(qty := 0, count := 0) else r.CloseOrder(openQty).Stamp(lastChanged))
      ensures Side(!isBid) == old(Side(!isBid))
    {
      hide Distinct, ExcessValues, Rows;
      PointsAtValue(level, at, ref, isBid);
      threw, last := level.CloseOrder(openQty);
      if !threw && !last {
        lastChanged := lastChanged + 1;
        level.LastChange(lastChanged);
      }
      LevelAlone(level, at, ref, isBid);
      if threw {
        PutBack(old(Side(isBid)), ref);
      }
    }

    method IsChanged() returns (changed: bool)
      requires Valid()
      ensures changed <==> C.HasNews(Snapshot())
      ensures lastPublished == lastChanged ==> !changed
    {
      changed := lastChanged > lastPublished;
    }

    method Published()
      requires Valid()
      modifies this`lastPublished
      ensures Valid() && Snapshot() == R.Do(old(Snapshot()), R.PublishCall, scan)
      ensures lastPublished == lastChanged && !C.HasNews(Snapshot())
    {
      lastPublished := lastChanged;
    }
  }

  lemma PutBack(h: Half, ref: Ref)
    requires In(h, ref)
    ensures Put(h, ref, Get(h, ref)) == h
  {
  }

  lemma KeyOf<K, V>(m: map<K, V>, v: V) returns (k: K)
    requires v in m.Values
    ensures k in m && m[k] == v
  {
    k :| k in m && m[k] == v;
  }

  /** A search that creates nothing leaves the side as it is. */
  lemma SearchChangesNothing(h: Half, changed: int, price: int, isBuy: bool, scan: nat)
    requires scan <= |h.rows|
    ensures Find(h, changed, price, isBuy, false, scan).h == h
    ensures Find(h, changed, price, isBuy, false, scan).changed == changed
    ensures Find(h, changed, price, isBuy, false, scan).ref == Find(h, 0, price, isBuy, false, scan).ref
  {
  }

  lemma {:induction false} SearchIs(rows: seq<Row>, i: nat, scan: nat, price: int, isBuy: bool, create: bool, k: nat)
    requires i <= k <= scan <= |rows|
    requires forall j :: i <= j < k ==> !Stops(rows[j], price, isBuy, create)
    requires k < scan ==> Stops(rows[k], price, isBuy, create)
    ensures Search(rows, i, scan, price, isBuy, create) == k
    decreases k - i
  {
    if i < k { SearchIs(rows, i + 1, scan, price, isBuy, create, k); }
  }
}
