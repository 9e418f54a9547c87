/**
 One side of Depth as a value: the visible slots, best price first, and the levels that did not fit.
 `scan` is the number of slots that a search visits before it turns to the excess levels. The
 source visits all but the last slot; a search that visits all of them is the intended one.
 */
module DepthSide {
  import opened Ladder

  const INVALID_LEVEL_PRICE := 0

  /** A DepthLevel: its price, totals, excess flag and change stamp. */
  datatype Row = Row(price: int, qty: int, count: int, isExcess: bool, stamp: int) {
    predicate Empty() {
      price == INVALID_LEVEL_PRICE
    }

    /** What a client sees of the level. */
    function Shown(): Level {
      Level(price, qty, count)
    }

    function Init(price: int, isExcess: bool): Row {
      Row(price, 0, 0, isExcess, stamp)
    }

    /** The assignment operator: the flag stays, and an empty source leaves the stamp alone. */
    function Assign(rhs: Row): Row {
      Row(rhs.price, rhs.qty, rhs.count, isExcess, if rhs.Empty() then stamp else rhs.stamp)
    }

    function Stamp(change: int): Row {
      this.(stamp := change)
    }

    function AddOrder(q: int): Row {
      this.(qty := qty + q, count := count + 1)
    }

    /** Closing an order of several; a quantity above the total is not deducted. */
    function CloseOrder(q: int): Row {
      this.(qty := if qty >= q then qty - q else qty, count := count - 1)
    }
  }

  const NEW_ROW := Row(INVALID_LEVEL_PRICE, 0, 0, false, 0)

  datatype Half = Half(rows: seq<Row>, excess: map<int, Row>)

  /** What a pointer to a level can point at. */
  datatype Ref = Slot(i: nat) | Spilled(price: int) | Nowhere

  datatype Found = Found(h: Half, changed: int, ref: Ref)

  predicate In(h: Half, ref: Ref) {
    match ref
    case Slot(i) => i < |h.rows|
    case Spilled(p) => p in h.excess
    case Nowhere => false
  }

  function Get(h: Half, ref: Ref): Row
    requires In(h, ref)
  {
    match ref
    case Slot(i) => h.rows[i]
    case Spilled(p) => h.excess[p]
  }

  function Put(h: Half, ref: Ref, r: Row): Half
    requires In(h, ref)
  {
    match ref
    case Slot(i) => h.(rows := h.rows[i := r])
    case Spilled(p) => h.(excess := h.excess[p := r])
  }

  // ---- the search ----

  predicate Stops(r: Row, price: int, isBuy: bool, create: bool) {
    r.price == price || (create && (r.Empty() || Better(isBuy, price, r.price)))
  }

  /** The first slot from i on, before `scan`, at which the search stops. */
  function Search(rows: seq<Row>, i: nat, scan: nat, price: int, isBuy: bool, create: bool): (k: nat)
    requires i <= scan <= |rows|
    ensures i <= k <= scan
    ensures forall j :: i <= j < k ==> !Stops(rows[j], price, isBuy, create)
    ensures k < scan ==> Stops(rows[k], price, isBuy, create)
    decreases scan - i
  {
    if i == scan || Stops(rows[i], price, isBuy, create) then i
    else Search(rows, i + 1, scan, price, isBuy, create)
  }

  function Find(h: Half, changed: int, price: int, isBuy: bool, create: bool, scan: nat): (f: Found)
    requires scan <= |h.rows|
    ensures |f.h.rows| == |h.rows|
  {
    var k := Search(h.rows, 0, scan, price, isBuy, create);
    if k < scan then
      if h.rows[k].price == price then Found(h, changed, Slot(k))
      else if h.rows[k].Empty() then
        Found(h.(rows := h.rows[k := h.rows[k].Init(price, false)]), changed, Slot(k))
      else Found(InsertBefore(h, k, price, changed + 1), changed + 1, Slot(k))
    else if price in h.excess then Found(h, changed, Spilled(price))
    else if create then
      Found(h.(excess := h.excess[price := NEW_ROW.Init(price, true)]), changed, Spilled(price))
    // The pointer is left at the end of the scan, which may still be a slot.
    else Found(h, changed, if scan < |h.rows| then Slot(scan) else Nowhere)
  }

  // ---- shifting ----

  /** The rows below slot k move down by one; the last one goes to the excess levels. */
  function InsertBefore(h: Half, k: nat, price: int, change: int): Half
    requires k < |h.rows|
  {
    Half(Lower(h.rows, k, price, change), Spill(h.excess, h.rows[|h.rows| - 1]))
  }

  function Lower(rows: seq<Row>, k: nat, price: int, change: int): (rows': seq<Row>)
    requires k < |rows|
    ensures |rows'| == |rows|
  {
    seq(|rows|, j requires 0 <= j < |rows| => LowerAt(rows, k, price, change, j))
  }

  function LowerAt(rows: seq<Row>, k: nat, price: int, change: int, j: nat): Row
    requires k < |rows| && j < |rows|
  {
    if j < k then rows[j]
    else if j == k then rows[k].Init(price, false)
    else MovedDown(rows[j], rows[j - 1], change)
  }

  function MovedDown(r: Row, above: Row, change: int): Row {
    if above.Empty() then r.Assign(above) else r.Assign(above).Stamp(change)
  }

  /** An excess level that is there already is not overwritten. */
  function Spill(excess: map<int, Row>, last: Row): map<int, Row> {
    if last.Empty() || last.price in excess then excess
    else excess[last.price := NEW_ROW.Init(0, true).Assign(last)]
  }

  lemma KeysOfSome<K, V>(m: map<K, V>)
    requires m != map[]
    ensures m.Keys != {}
  {
  }

  function BestExcess(excess: map<int, Row>, isBuy: bool): (p: int)
    requires excess != map[]
    ensures p in excess && forall q :: q in excess ==> !Better(isBuy, q, p)
  {
    assert excess.Keys != {} by { KeysOfSome(excess); }
    BestPrice(excess.Keys, isBuy)
  }

  /** The first key of a map ordered from the best price to the worst. */
  function BestPrice(prices: set<int>, isBuy: bool): (p: int)
    requires prices != {}
    ensures p in prices && forall q :: q in prices ==> !Better(isBuy, q, p)
  {
    var prios := set q | q in prices :: Prio(isBuy, q);
    assert prios != {} by {
      var q := Member(prices);
      assert Prio(isBuy, q) in prios;
    }
    assert forall q :: q in prices ==> Prio(isBuy, q) in prios;
    Prio(isBuy, Least(prios))
  }

  /** The rows below slot k move up by one; the last slot is refilled from the best excess level. */
  function EraseSlot(h: Half, k: nat, isBuy: bool, change: int): Half
    requires k < |h.rows|
  {
    var last := h.rows[|h.rows| - 1];
    var refill := k == |h.rows| - 1 || !last.Empty();
    Half(Raise(h.rows, k, change, if refill then Refilled(last, h.excess, isBuy, change) else last),
         if refill && h.excess != map[] then h.excess - {BestExcess(h.excess, isBuy)} else h.excess)
  }

  function Refilled(last: Row, excess: map<int, Row>, isBuy: bool, change: int): Row {
    if excess == map[] then last.Init(INVALID_LEVEL_PRICE, false).Stamp(change)
    else last.Assign(excess[BestExcess(excess, isBuy)]).Stamp(change)
  }

  function Raise(rows: seq<Row>, k: nat, change: int, last: Row): (rows': seq<Row>)
    requires k < |rows|
    ensures |rows'| == |rows|
  {
    seq(|rows|, j requires 0 <= j < |rows| => RaiseAt(rows, k, change, last, j))
  }

  function RaiseAt(rows: seq<Row>, k: nat, change: int, last: Row, j: nat): Row
    requires k < |rows| && j < |rows|
  {
    if j < k then rows[j]
    else if j == |rows| - 1 then last
    else MovedUp(rows[j], rows[j + 1], change, j == k)
  }

  function MovedUp(r: Row, below: Row, change: int, erased: bool): Row {
    if erased || !r.Empty() then r.Assign(below).Stamp(change) else r
  }

  // ---- the operations of one side ----

  /** The side and the change counter after an operation. */
  datatype Done = Done(h: Half, changed: int)

  function Add(h: Half, changed: int, price: int, qty: int, isBuy: bool, scan: nat): (d: Done)
    requires scan <= |h.rows|
    ensures |d.h.rows| == |h.rows|
  {
    var f := Find(h, changed, price, isBuy, true, scan);
    if !In(f.h, f.ref) then Done(f.h, f.changed)
    else
      var r := Get(f.h, f.ref).AddOrder(qty);
      if r.isExcess then Done(Put(f.h, f.ref, r), f.changed)
      else Done(Put(f.h, f.ref, r.Stamp(f.changed + 1)), f.changed + 1)
  }

  function ChangeQty(h: Half, changed: int, price: int, delta: int, isBuy: bool, scan: nat): (d: Done)
    requires scan <= |h.rows|
    ensures |d.h.rows| == |h.rows|
  {
    var ref := Find(h, changed, price, isBuy, false, scan).ref;
    if !In(h, ref) || delta == 0 then Done(h, changed)
    else
      var r := Get(h, ref);
      Done(Put(h, ref, r.(qty := r.qty + delta).Stamp(changed + 1)), changed + 1)
  }

  /** Closing throws when the level it comes to has no orders. */
  predicate CloseThrows(h: Half, price: int, isBuy: bool, scan: nat)
    requires scan <= |h.rows|
  {
    var ref := Find(h, 0, price, isBuy, false, scan).ref;
    In(h, ref) && Get(h, ref).count == 0
  }

  /** True if the last order of a level is closed. */
  predicate CloseErases(h: Half, price: int, isBuy: bool, scan: nat)
    requires scan <= |h.rows|
  {
    var ref := Find(h, 0, price, isBuy, false, scan).ref;
    In(h, ref) && Get(h, ref).count == 1
  }

  function Close(h: Half, changed: int, price: int, qty: int, isBuy: bool, scan: nat): (d: Done)
    requires scan <= |h.rows|
    ensures |d.h.rows| == |h.rows|
  {
    var ref := Find(h, changed, price, isBuy, false, scan).ref;
    if !In(h, ref) || Get(h, ref).count == 0 then Done(h, changed)
    else if Get(h, ref).count == 1 then
      Erase(Put(h, ref, Get(h, ref).(qty := 0, count := 0)), changed, ref, isBuy)
    else
      Done(Put(h, ref, Get(h, ref).CloseOrder(qty).Stamp(changed + 1)), changed + 1)
  }

  function Erase(h: Half, changed: int, ref: Ref, isBuy: bool): (d: Done)
    requires In(h, ref)
    ensures |d.h.rows| == |h.rows|
  {
    var r := Get(h, ref);
    if r.isExcess then Done(h.(excess := h.excess - {r.price}), changed)
    else
      match ref
      case Slot(k) => Done(EraseSlot(h, k, isBuy, changed + 1), changed + 1)
      case Spilled(_) => Done(h, changed)
  }

  function Replace(h: Half, changed: int, oldPrice: int, newPrice: int, oldQty: int, newQty: int,
                   isBuy: bool, scan: nat): (d: Done)
    requires scan <= |h.rows|
    ensures |d.h.rows| == |h.rows|
  {
    if oldPrice == newPrice then ChangeQty(h, changed, newPrice, newQty - oldQty, isBuy, scan)
    else
      var d := Add(h, changed, newPrice, newQty, isBuy, scan);
      Close(d.h, d.changed, oldPrice, oldQty, isBuy, scan)
  }
}
