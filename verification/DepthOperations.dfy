/** The operations of a side of Depth, against the refined map, for the full and for the short search. */
module DepthOperations {
  import opened Ladder
  import opened DepthSide
  import opened DepthRefinement

  // ---- the search over all slots ----

  lemma FindFinds(h: Half, m: Sheet, changed: int, price: int, isBuy: bool)
    requires Rep(h, m, isBuy) && price != INVALID_LEVEL_PRICE
    ensures var f := Find(h, changed, price, isBuy, false, |h.rows|);
      && f.h == h && f.changed == changed
      && if price in m then In(h, f.ref) && Get(h, f.ref).price == price else f.ref == Nowhere
  {
    var k := Search(h.rows, 0, |h.rows|, price, isBuy, false);
    if price in m && price !in h.excess {
      assert HasRow(h.rows, price);
      var i :| 0 <= i < |h.rows| && h.rows[i].price == price;
      assert Stops(h.rows[i], price, isBuy, false);
    }
  }

  lemma FindCreates(h: Half, m: Sheet, changed: int, price: int, isBuy: bool)
    requires Rep(h, m, isBuy) && price != INVALID_LEVEL_PRICE
    ensures var f := Find(h, changed, price, isBuy, true, |h.rows|);
      && In(f.h, f.ref) && Get(f.h, f.ref).price == price
      && Rep(f.h, Touched(m, price), isBuy)
      && |f.h.rows| == |h.rows|
  {
    var n := |h.rows|;
    var k := Search(h.rows, 0, n, price, isBuy, true);
    BeforeStop(h, isBuy, price, k);
    if k < n {
      if h.rows[k].price != price {
        SearchedIsNew(h, m, isBuy, price, k);
        if h.rows[k].Empty() {
          FillRep(h, m, isBuy, k, price);
        } else {
          InsertRep(h, m, isBuy, k, price, changed + 1);
        }
      }
    } else if price !in h.excess {
      SearchedIsNew(h, m, isBuy, price, k);
      OverflowRep(h, m, isBuy, price);
    }
  }

  /** The slots that a creating search passes over are filled with better prices. */
  lemma BeforeStop(h: Half, isBuy: bool, price: int, k: nat)
    requires k <= |h.rows| && forall j :: 0 <= j < k ==> !Stops(h.rows[j], price, isBuy, true)
    ensures forall j :: 0 <= j < k ==> !h.rows[j].Empty() && Better(isBuy, h.rows[j].price, price)
  {
  }

  lemma SearchedIsNew(h: Half, m: Sheet, isBuy: bool, price: int, k: nat)
    requires Rep(h, m, isBuy) && price != INVALID_LEVEL_PRICE && k <= |h.rows|
    requires forall j :: 0 <= j < k ==> !Stops(h.rows[j], price, isBuy, true)
    requires if k < |h.rows| then h.rows[k].price != price && Stops(h.rows[k], price, isBuy, true)
             else price !in h.excess
    ensures price !in m
  {
    assert price !in h.excess by {
      assert k < |h.rows| - 1 ==> !Last(h).Empty() ==> Better(isBuy, h.rows[k].price, Last(h).price);
    }
    assert !HasRow(h.rows, price);
  }

  // ---- each operation refines its counterpart on the map ----

  lemma AddRep(h: Half, m: Sheet, changed: int, price: int, qty: int, isBuy: bool)
    requires Rep(h, m, isBuy) && price != INVALID_LEVEL_PRICE
    ensures Rep(Add(h, changed, price, qty, isBuy, |h.rows|).h, Added(m, price, qty), isBuy)
    ensures |Add(h, changed, price, qty, isBuy, |h.rows|).h.rows| == |h.rows|
  {
    hide Rep, Shape;
    FindCreates(h, m, changed, price, isBuy);
    var f := Find(h, changed, price, isBuy, true, |h.rows|);
    PutFound(f.h, Touched(m, price), isBuy, f.ref, Get(f.h, f.ref).AddOrder(qty));
    PutFound(f.h, Touched(m, price), isBuy, f.ref, Get(f.h, f.ref).AddOrder(qty).Stamp(f.changed + 1));
    FoundRow(f.h, Touched(m, price), isBuy, f.ref);
    assert Touched(m, price)[price := Added(m, price, qty)[price]] == Added(m, price, qty);
  }

  /** A found row shows what the map says of its price. */
  lemma FoundRow(h: Half, m: Sheet, isBuy: bool, ref: Ref)
    requires Rep(h, m, isBuy) && In(h, ref) && !Get(h, ref).Empty()
    ensures Get(h, ref).price in m && Get(h, ref).Shown() == m[Get(h, ref).price]
    ensures Get(h, ref).isExcess == ref.Spilled?
    ensures ref.Spilled? ==> ref.price == Get(h, ref).price
  {
  }

  lemma PutFound(h: Half, m: Sheet, isBuy: bool, ref: Ref, r: Row)
    requires Rep(h, m, isBuy) && In(h, ref) && !Get(h, ref).Empty()
    requires r.price == Get(h, ref).price && r.isExcess == Get(h, ref).isExcess
    ensures Rep(Put(h, ref, r), m[r.price := r.Shown()], isBuy)
    ensures In(Put(h, ref, r), ref) && Get(Put(h, ref, r), ref) == r
    ensures |Put(h, ref, r).rows| == |h.rows|
  {
    PutRep(h, m, isBuy, ref, r);
  }

  lemma LivePrice(h: Half, m: Sheet, isBuy: bool, price: int)
    requires Rep(h, m, isBuy) && price in m
    ensures price != INVALID_LEVEL_PRICE
  {
  }

  lemma LiveRow(h: Half, m: Sheet, changed: int, price: int, isBuy: bool)
    requires Rep(h, m, isBuy) && price in m
    ensures var ref := Find(h, changed, price, isBuy, false, |h.rows|).ref;
      && In(h, ref) && !Get(h, ref).Empty() && Get(h, ref).price == price && Get(h, ref).Shown() == m[price]
  {
    LivePrice(h, m, isBuy, price);
    hide Rep, Shape, Find;
    FindFinds(h, m, changed, price, isBuy);
    FoundRow(h, m, isBuy, Find(h, changed, price, isBuy, false, |h.rows|).ref);
  }

  lemma ChangeRep(h: Half, m: Sheet, changed: int, price: int, delta: int, isBuy: bool)
    requires Rep(h, m, isBuy) && price in m
    ensures Rep(ChangeQty(h, changed, price, delta, isBuy, |h.rows|).h, Changed(m, price, delta), isBuy)
    ensures |ChangeQty(h, changed, price, delta, isBuy, |h.rows|).h.rows| == |h.rows|
  {
    hide Rep, Shape, Find, Put;
    LiveRow(h, m, changed, price, isBuy);
    if delta == 0 {
      assert Changed(m, price, delta) == m;
    } else {
      var ref := Find(h, changed, price, isBuy, false, |h.rows|).ref;
      var r := Get(h, ref);
      PutFound(h, m, isBuy, ref, r.(qty := r.qty + delta).Stamp(changed + 1));
    }
  }

  /** Closing the last order of a level removes it, wherever it is; closing another one reduces it. */
  lemma CloseRep(h: Half, m: Sheet, changed: int, price: int, qty: int, isBuy: bool)
    requires Rep(h, m, isBuy) && price in m && m[price].count > 0
    ensures !CloseThrows(h, price, isBuy, |h.rows|)
    ensures CloseErases(h, price, isBuy, |h.rows|) <==> m[price].count == 1
    ensures Rep(Close(h, changed, price, qty, isBuy, |h.rows|).h, Closed(m, price, qty), isBuy)
  {
    hide Rep, Shape, Put, Erase, Find;
    assert !CloseThrows(h, price, isBuy, |h.rows|)
        && (CloseErases(h, price, isBuy, |h.rows|) <==> m[price].count == 1) by {
      LiveRow(h, m, 0, price, isBuy);
    }
    LiveRow(h, m, changed, price, isBuy);
    var ref := Find(h, changed, price, isBuy, false, |h.rows|).ref;
    if m[price].count == 1 {
      EraseLastOrder(h, m, changed, isBuy, ref);
    } else {
      PutFound(h, m, isBuy, ref, Get(h, ref).CloseOrder(qty).Stamp(changed + 1));
    }
  }

  lemma EraseLastOrder(h: Half, m: Sheet, changed: int, isBuy: bool, ref: Ref)
    requires Rep(h, m, isBuy) && In(h, ref) && !Get(h, ref).Empty()
    ensures var h' := Put(h, ref, Get(h, ref).(qty := 0, count := 0));
      In(h', ref) && Rep(Erase(h', changed, ref, isBuy).h, m - {Get(h, ref).price}, isBuy)
  {
    hide Rep, Shape, EraseSlot;
    var r := Get(h, ref);
    var r' := r.(qty := 0, count := 0);
    FoundRow(h, m, isBuy, ref);
    PutFound(h, m, isBuy, ref, r');
    var h', m' := Put(h, ref, r'), m[r.price := r'.Shown()];
    assert m' - {r.price} == m - {r.price};
    match ref {
      case Slot(k) => EraseRep(h', m', isBuy, k, changed + 1);
      case Spilled(p) => DropRep(h', m', isBuy, p);
    }
  }

  lemma ReplaceRep(h: Half, m: Sheet, changed: int, oldPrice: int, newPrice: int, oldQty: int, newQty: int, isBuy: bool)
    requires Rep(h, m, isBuy) && oldPrice in m && m[oldPrice].count > 0 && newPrice != INVALID_LEVEL_PRICE
    ensures Rep(Replace(h, changed, oldPrice, newPrice, oldQty, newQty, isBuy, |h.rows|).h,
                Replaced(m, oldPrice, newPrice, oldQty, newQty), isBuy)
  {
    hide Rep, Add, Close, ChangeQty, Find;
    if oldPrice == newPrice {
      ChangeRep(h, m, changed, newPrice, newQty - oldQty, isBuy);
    } else {
      AddRep(h, m, changed, newPrice, newQty, isBuy);
      var d := Add(h, changed, newPrice, newQty, isBuy, |h.rows|);
      CloseRep(d.h, Added(m, newPrice, newQty), d.changed, oldPrice, oldQty, isBuy);
    }
  }

  // ---- the search that stops before the last slot ----

  /** The short search adds rightly when it stops, or when the price does belong to the excess levels. */
  predicate ShortSearchServes(h: Half, price: int, isBuy: bool)
    requires |h.rows| >= 1
  {
    || Search(h.rows, 0, |h.rows| - 1, price, isBuy, true) < |h.rows| - 1
    || price in h.excess
    || (!Last(h).Empty() && Better(isBuy, Last(h).price, price))
  }

  /** On levels that exist, the short search finds what the full search finds. */
  lemma ShortSearchFindsLive(h: Half, m: Sheet, changed: int, price: int, isBuy: bool)
    requires Rep(h, m, isBuy) && price in m
    ensures Find(h, changed, price, isBuy, false, |h.rows| - 1) == Find(h, changed, price, isBuy, false, |h.rows|)
  {
    var n := |h.rows|;
    SearchOneMore(h.rows, 0, price, isBuy, false);
    FindFinds(h, m, changed, price, isBuy);
    if Search(h.rows, 0, n - 1, price, isBuy, false) == n - 1 {
      assert price in h.excess ==> h.rows[n - 1].price != price;
    }
  }

  /** On a price without a level, the full search changes nothing; the short one works on the last slot, any price. */
  lemma ShortSearchHitsLastSlot(h: Half, m: Sheet, changed: int, price: int, delta: int, isBuy: bool)
    requires Rep(h, m, isBuy) && price !in m && price != INVALID_LEVEL_PRICE && delta != 0
    ensures ChangeQty(h, changed, price, delta, isBuy, |h.rows|) == Done(h, changed)
    ensures var n := |h.rows|;
      && ChangeQty(h, changed, price, delta, isBuy, n - 1)
         == Done(h.(rows := h.rows[n - 1 := Last(h).(qty := Last(h).qty + delta, stamp := changed + 1)]), changed + 1)
      && (CloseThrows(h, price, isBuy, n - 1) <==> Last(h).count == 0)
      && (CloseErases(h, price, isBuy, n - 1) <==> Last(h).count == 1)
  {
    var n := |h.rows|;
    FindFinds(h, m, changed, price, isBuy);
    var k := Search(h.rows, 0, n - 1, price, isBuy, false);
    assert k < n - 1 ==> HasRow(h.rows, price);
    assert k == n - 1 && price !in h.excess;
  }

  lemma {:induction false} SearchOneMore(rows: seq<Row>, i: nat, price: int, isBuy: bool, create: bool)
    requires i < |rows|
    ensures var n := |rows|;
      var short, full := Search(rows, i, n - 1, price, isBuy, create), Search(rows, i, n, price, isBuy, create);
      if short < n - 1 then full == short
      else full == if Stops(rows[n - 1], price, isBuy, create) then n - 1 else n
    decreases |rows| - i
  {
    if i < |rows| - 1 && !Stops(rows[i], price, isBuy, create) {
      SearchOneMore(rows, i + 1, price, isBuy, create);
    }
  }

  lemma ShortSearchIsFull(h: Half, m: Sheet, changed: int, price: int, isBuy: bool)
    requires Rep(h, m, isBuy) && price != INVALID_LEVEL_PRICE && ShortSearchServes(h, price, isBuy)
    ensures Find(h, changed, price, isBuy, true, |h.rows| - 1) == Find(h, changed, price, isBuy, true, |h.rows|)
  {
    hide HasRow, Sorted, Covered, Agrees, InsertBefore;
    SearchOneMore(h.rows, 0, price, isBuy, true);
    assert price in h.excess ==> !Stops(Last(h), price, isBuy, true);
  }

  /** Otherwise the new level goes to the excess levels although it belongs to the last slot or above it. */
  lemma ShortAddMisplaces(h: Half, changed: int, price: int, qty: int, isBuy: bool)
    requires Shape(h) && !ShortSearchServes(h, price, isBuy)
    ensures !Below(Add(h, changed, price, qty, isBuy, |h.rows| - 1).h, isBuy)
  {
    var h' := Add(h, changed, price, qty, isBuy, |h.rows| - 1).h;
    assert price in h'.excess && h'.rows == h.rows;
  }

  /** As the source searches, an added order keeps the side right exactly when the short search serves. */
  lemma ShortAddRepIff(h: Half, m: Sheet, changed: int, price: int, qty: int, isBuy: bool)
    requires Rep(h, m, isBuy) && price != INVALID_LEVEL_PRICE
    ensures Rep(Add(h, changed, price, qty, isBuy, |h.rows| - 1).h, Added(m, price, qty), isBuy)
       <==> ShortSearchServes(h, price, isBuy)
  {
    hide Find, Sorted, Covered, Agrees, ShortSearchServes, Below;
    if ShortSearchServes(h, price, isBuy) {
      ShortSearchIsFull(h, m, changed, price, isBuy);
      AddRep(h, m, changed, price, qty, isBuy);
    } else {
      ShortAddMisplaces(h, changed, price, qty, isBuy);
    }
  }

  /** Nine bids fill all slots but the last; the tenth best bid is then hidden among the excess levels. */
  lemma TenthLevelIsHidden(h: Half, price: int)
    requires |h.rows| == DEPTH && h.excess == map[]
    requires forall i :: 0 <= i < 9 ==> h.rows[i] == Row(100 - i, 5, 1, false, i + 1)
    requires h.rows[9] == NEW_ROW && price == 91
    ensures var h' := Add(h, 9, price, 5, true, DEPTH - 1).h;
      h'.rows[9].Empty() && h'.excess == map[91 := Row(91, 5, 1, true, 0)]
  {
    assert forall i :: 0 <= i < 9 ==> !Stops(h.rows[i], price, true, true);
  }

  // ---- replacing with the short search ----

  /**
   The short search replaces rightly when the price stays, when it serves the new price, or when the
   last slot loses its only order to a better price: the new level, put among the excess levels, is then
   fetched back at once.
   */
  predicate ShortReplaceServes(h: Half, oldPrice: int, newPrice: int, isBuy: bool)
    requires |h.rows| >= 1
  {
    || oldPrice == newPrice
    || ShortSearchServes(h, newPrice, isBuy)
    || (SoleOrderOfLast(h, oldPrice) && Better(isBuy, newPrice, oldPrice))
  }

  predicate SoleOrderOfLast(h: Half, price: int)
    requires |h.rows| >= 1
  {
    !Last(h).Empty() && Last(h).price == price && Last(h).count == 1
  }

  /** Where the short search does not serve, the new level goes to the excess levels and nothing else changes. */
  lemma ShortAddSpills(h: Half, changed: int, price: int, qty: int, isBuy: bool)
    requires |h.rows| >= 1 && !ShortSearchServes(h, price, isBuy)
    ensures Add(h, changed, price, qty, isBuy, |h.rows| - 1)
         == Done(h.(excess := h.excess[price := Row(price, qty, 1, true, 0)]), changed)
  {
    var r := NEW_ROW.Init(price, true);
    assert h.excess[price := r][price := r.AddOrder(qty)] == h.excess[price := Row(price, qty, 1, true, 0)];
  }

  lemma ShortReplaceServed(h: Half, m: Sheet, changed: int, oldPrice: int, newPrice: int, oldQty: int, newQty: int,
                           isBuy: bool)
    requires Rep(h, m, isBuy) && oldPrice in m && m[oldPrice].count > 0 && newPrice != INVALID_LEVEL_PRICE
    requires |h.rows| >= 1 && (oldPrice == newPrice || ShortSearchServes(h, newPrice, isBuy))
    ensures Rep(Replace(h, changed, oldPrice, newPrice, oldQty, newQty, isBuy, |h.rows| - 1).h,
                Replaced(m, oldPrice, newPrice, oldQty, newQty), isBuy)
  {
    hide Rep, Shape, Find, ShortSearchServes;
    var n := |h.rows|;
    if oldPrice == newPrice {
      ShortSearchFindsLive(h, m, changed, newPrice, isBuy);
      ChangeRep(h, m, changed, newPrice, newQty - oldQty, isBuy);
    } else {
      ShortSearchIsFull(h, m, changed, newPrice, isBuy);
      AddRep(h, m, changed, newPrice, newQty, isBuy);
      var d, m' := Add(h, changed, newPrice, newQty, isBuy, n), Added(m, newPrice, newQty);
      assert Add(h, changed, newPrice, newQty, isBuy, n - 1) == d;
      ShortSearchFindsLive(d.h, m', d.changed, oldPrice, isBuy);
      CloseRep(d.h, m', d.changed, oldPrice, oldQty, isBuy);
    }
  }

  /** A price that the short search does not serve has no level among the slots before the last one. */
  lemma NotServed(h: Half, price: int, isBuy: bool)
    requires Shape(h) && !ShortSearchServes(h, price, isBuy)
    ensures price !in h.excess && (!Last(h).Empty() ==> !Better(isBuy, Last(h).price, price))
    ensures forall j :: 0 <= j < |h.rows| - 1 ==> !h.rows[j].Empty() && Better(isBuy, h.rows[j].price, price)
  {
    BeforeStop(h, isBuy, price, |h.rows| - 1);
  }

  /** The search for the last slot's level comes to it, whichever way the search goes on. */
  lemma ShortFindsLast(h: Half, changed: int, isBuy: bool)
    requires |h.rows| >= 1 && Last(h).price !in h.excess
    requires forall j :: 0 <= j < |h.rows| - 1 ==> h.rows[j].price != Last(h).price
    ensures Find(h, changed, Last(h).price, isBuy, false, |h.rows| - 1) == Found(h, changed, Slot(|h.rows| - 1))
  {
  }

  lemma ShortReplaceSwaps(h: Half, m: Sheet, changed: int, oldPrice: int, newPrice: int, oldQty: int, newQty: int,
                          isBuy: bool)
    requires Rep(h, m, isBuy) && oldPrice in m && newPrice != INVALID_LEVEL_PRICE
    requires |h.rows| >= 1 && SoleOrderOfLast(h, oldPrice) && Better(isBuy, newPrice, oldPrice)
    requires !ShortSearchServes(h, newPrice, isBuy)
    ensures Rep(Replace(h, changed, oldPrice, newPrice, oldQty, newQty, isBuy, |h.rows| - 1).h,
                Replaced(m, oldPrice, newPrice, oldQty, newQty), isBuy)
  {
    BetterThanLast(h, m, newPrice, isBuy);
    hide Rep, ShortSearchServes, Replace, Better, Replaced;
    ShortReplaceGives(h, changed, newPrice, oldQty, newQty, isBuy);
    var h' := Replace(h, changed, oldPrice, newPrice, oldQty, newQty, isBuy, |h.rows| - 1).h;
    LastReplacedRep(h, m, isBuy, h', Row(newPrice, newQty, 1, true, 0));
    ReplacedByNew(m, oldPrice, newPrice, oldQty, newQty);
  }

  lemma ReplacedByNew(m: Sheet, oldPrice: int, newPrice: int, oldQty: int, newQty: int)
    requires oldPrice in m && newPrice !in m && m[oldPrice].count == 1
    ensures Replaced(m, oldPrice, newPrice, oldQty, newQty) == m[newPrice := Level(newPrice, newQty, 1)] - {oldPrice}
  {
  }

  /** The new level takes the place of the one in the last slot. */
  lemma ShortReplaceGives(h: Half, changed: int, newPrice: int, oldQty: int, newQty: int, isBuy: bool)
    requires |h.rows| >= 1 && Last(h).price !in h.excess && Last(h).count == 1 && !Last(h).isExcess
    requires newPrice !in h.excess && newPrice != INVALID_LEVEL_PRICE && newPrice != Last(h).price
    requires !ShortSearchServes(h, newPrice, isBuy)
    requires forall p :: p in h.excess ==> Better(isBuy, newPrice, p)
    requires forall j :: 0 <= j < |h.rows| - 1 ==> h.rows[j].price != Last(h).price
    ensures var n := |h.rows|;
      var h' := Replace(h, changed, Last(h).price, newPrice, oldQty, newQty, isBuy, n - 1).h;
      && h'.excess == h.excess && |h'.rows| == n
      && (forall j :: 0 <= j < n - 1 ==> h'.rows[j] == h.rows[j])
      && Last(h').Shown() == Level(newPrice, newQty, 1) && !Last(h').isExcess
  {
    ShortAddSpills(h, changed, newPrice, newQty, isBuy);
    hide ShortSearchServes, EraseSlot, Better, Add, Close;
    var x := Row(newPrice, newQty, 1, true, 0);
    CloseLast(h.(excess := h.excess[newPrice := x]), changed, oldQty, isBuy);
    FetchedBack(h, x, changed, isBuy);
  }

  lemma CloseLast(h: Half, changed: int, qty: int, isBuy: bool)
    requires |h.rows| >= 1 && Last(h).price !in h.excess && Last(h).count == 1 && !Last(h).isExcess
    requires forall j :: 0 <= j < |h.rows| - 1 ==> h.rows[j].price != Last(h).price
    ensures var n := |h.rows|;
      var emptied := h.(rows := h.rows[n - 1 := Last(h).(qty := 0, count := 0)]);
      Close(h, changed, Last(h).price, qty, isBuy, n - 1) ==
        Done(EraseSlot(emptied, n - 1, isBuy, changed + 1), changed + 1)
  {
    hide EraseSlot;
    ShortFindsLast(h, changed, isBuy);
    hide Find;
  }

  lemma BetterThanLast(h: Half, m: Sheet, price: int, isBuy: bool)
    requires Rep(h, m, isBuy) && price != INVALID_LEVEL_PRICE && !ShortSearchServes(h, price, isBuy)
    requires !Last(h).Empty() && Better(isBuy, price, Last(h).price)
    ensures price !in h.excess && price !in m && price != Last(h).price
    ensures Last(h).price !in h.excess && Last(h).price in m
    ensures m[Last(h).price] == Last(h).Shown() && !Last(h).isExcess
    ensures forall p :: p in h.excess ==> Better(isBuy, price, p)
    ensures forall j :: 0 <= j < |h.rows| - 1 ==>
      Better(isBuy, h.rows[j].price, price) && h.rows[j].price != Last(h).price
  {
    NotServed(h, price, isBuy);
    assert !HasRow(h.rows, price);
  }

  /** Erasing the last slot brings the best excess level into it. */
  lemma FetchedBack(h: Half, x: Row, changed: int, isBuy: bool)
    requires |h.rows| >= 1 && x.price !in h.excess && x.price != INVALID_LEVEL_PRICE
    requires forall p :: p in h.excess ==> Better(isBuy, x.price, p)
    ensures var n := |h.rows|;
      var h1 := h.(rows := h.rows[n - 1 := Last(h).(qty := 0, count := 0)], excess := h.excess[x.price := x]);
      var h' := EraseSlot(h1, n - 1, isBuy, changed + 1);
      && h'.excess == h.excess && |h'.rows| == n
      && (forall j :: 0 <= j < n - 1 ==> h'.rows[j] == h.rows[j])
      && h'.rows[n - 1].Shown() == x.Shown() && h'.rows[n - 1].isExcess == Last(h).isExcess
  {
    var e := h.excess[x.price := x];
    assert e != map[] by { assert x.price in e; }
    assert BestExcess(e, isBuy) == x.price;
    assert e - {x.price} == h.excess;
  }

  lemma LastReplacedRep(h: Half, m: Sheet, isBuy: bool, h': Half, x: Row)
    requires Rep(h, m, isBuy) && !Last(h).Empty() && x.price != INVALID_LEVEL_PRICE
    requires x.price !in h.excess && x.price !in m && Better(isBuy, x.price, Last(h).price)
    requires forall j :: 0 <= j < |h.rows| - 1 ==> Better(isBuy, h.rows[j].price, x.price)
    requires h'.excess == h.excess && |h'.rows| == |h.rows|
    requires forall j :: 0 <= j < |h.rows| - 1 ==> h'.rows[j] == h.rows[j]
    requires Last(h').Shown() == x.Shown() && !Last(h').isExcess
    ensures Rep(h', m[x.price := x.Shown()] - {Last(h).price}, isBuy)
  {
  }

  /** Otherwise closing leaves the new level in the excess, or fetches it to below a slot it is no worse than. */
  lemma ShortReplaceFails(h: Half, changed: int, oldPrice: int, newPrice: int, oldQty: int, isBuy: bool)
    requires Shape(h) && newPrice in h.excess && Present(h, oldPrice)
    requires oldPrice != newPrice && oldPrice != INVALID_LEVEL_PRICE && !SoleOrderOfLast(h, oldPrice)
    requires Last(h).Empty() || !Better(isBuy, Last(h).price, newPrice)
    ensures var h' := Close(h, changed, oldPrice, oldQty, isBuy, |h.rows| - 1).h;
      !(Below(h', isBuy) && Sorted(h'.rows, isBuy))
  {
    var n := |h.rows|;
    var f := Find(h, changed, oldPrice, isBuy, false, n - 1);
    var h' := Close(h, changed, oldPrice, oldQty, isBuy, n - 1).h;
    match f.ref
    case Slot(k) =>
      assert h.rows[k].price == oldPrice by { ShortFindsPresent(h, changed, oldPrice, isBuy); }
      if h.rows[k].count == 1 {
        ErasedStaysWrong(h.(rows := h.rows[k := h.rows[k].(qty := 0, count := 0)]), k, newPrice, isBuy, changed + 1);
      } else {
        assert newPrice in h'.excess && Last(h').price == Last(h).price;
      }
    case Spilled(p) =>
      assert newPrice in h'.excess && Last(h') == Last(h);
  }

  lemma ShortFindsPresent(h: Half, changed: int, price: int, isBuy: bool)
    requires |h.rows| >= 1 && Present(h, price)
    ensures var ref := Find(h, changed, price, isBuy, false, |h.rows| - 1).ref;
      In(h, ref) && (ref.Slot? ==> h.rows[ref.i].price == price) && (ref.Spilled? ==> ref.price == price)
  {
    var k := Search(h.rows, 0, |h.rows| - 1, price, isBuy, false);
    if k == |h.rows| - 1 && price !in h.excess {
      var i :| 0 <= i < |h.rows| && h.rows[i].price == price;
      assert i == k;
    }
  }

  lemma ErasedStaysWrong(h: Half, k: nat, price: int, isBuy: bool, change: int)
    requires Shape(h) && price in h.excess && k < |h.rows| - 1 && !h.rows[k].Empty()
    requires Last(h).Empty() || !Better(isBuy, Last(h).price, price)
    ensures var h' := EraseSlot(h, k, isBuy, change); !(Below(h', isBuy) && Sorted(h'.rows, isBuy))
  {
    var n, h' := |h.rows|, EraseSlot(h, k, isBuy, change);
    if Last(h).Empty() {
      assert price in h'.excess && Last(h').Empty();
    } else {
      assert h'.rows[n - 2] == RaiseAt(h.rows, k, change, h'.rows[n - 1], n - 2);
      assert h'.rows[n - 2].price == Last(h).price;
      assert Last(h').price == BestExcess(h.excess, isBuy) != INVALID_LEVEL_PRICE;
      assert !Better(isBuy, h'.rows[n - 2].price, Last(h').price);
    }
  }

  /** As the source searches, a replacement of a live order keeps the side right exactly when the search serves it. */
  lemma ShortReplaceRepIff(h: Half, m: Sheet, changed: int, oldPrice: int, newPrice: int, oldQty: int, newQty: int,
                           isBuy: bool)
    requires Rep(h, m, isBuy) && oldPrice in m && m[oldPrice].count > 0 && newPrice != INVALID_LEVEL_PRICE
    requires |h.rows| >= 1
    ensures Rep(Replace(h, changed, oldPrice, newPrice, oldQty, newQty, isBuy, |h.rows| - 1).h,
                Replaced(m, oldPrice, newPrice, oldQty, newQty), isBuy)
       <==> ShortReplaceServes(h, oldPrice, newPrice, isBuy)
  {
    hide ShortSearchServes, SoleOrderOfLast, Rep, Shape, Replace, Replaced;
    if oldPrice == newPrice || ShortSearchServes(h, newPrice, isBuy) {
      ShortReplaceServed(h, m, changed, oldPrice, newPrice, oldQty, newQty, isBuy);
    } else if ShortReplaceServes(h, oldPrice, newPrice, isBuy) {
      ShortReplaceSwaps(h, m, changed, oldPrice, newPrice, oldQty, newQty, isBuy);
    } else {
      ShortReplaceUnserved(h, m, changed, oldPrice, newPrice, oldQty, newQty, isBuy);
    }
  }

  lemma ShortReplaceUnserved(h: Half, m: Sheet, changed: int, oldPrice: int, newPrice: int, oldQty: int, newQty: int,
                             isBuy: bool)
    requires Rep(h, m, isBuy) && oldPrice in m && newPrice != INVALID_LEVEL_PRICE
    requires |h.rows| >= 1 && !ShortReplaceServes(h, oldPrice, newPrice, isBuy)
    ensures !Rep(Replace(h, changed, oldPrice, newPrice, oldQty, newQty, isBuy, |h.rows| - 1).h,
                 Replaced(m, oldPrice, newPrice, oldQty, newQty), isBuy)
  {
    NotServed(h, newPrice, isBuy);
    ShortAddSpills(h, changed, newPrice, newQty, isBuy);
    var h1 := h.(excess := h.excess[newPrice := Row(newPrice, newQty, 1, true, 0)]);
    hide ShortSearchServes, Sorted, Below, Agrees, Add, Close;
    assert Shape(h1) && Present(h1, oldPrice) && oldPrice != INVALID_LEVEL_PRICE && !SoleOrderOfLast(h1, oldPrice);
    hide Covered, Shape, Present;
    ShortReplaceFails(h1, changed, oldPrice, newPrice, oldQty, isBuy);
  }
}
