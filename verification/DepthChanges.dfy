/** Change stamps of Depth: a visible level that differs from its published state carries a late stamp. */
module DepthChanges {
  import opened Ladder
  import opened DepthSide
  import opened DepthRefinement
  import opened DepthOperations
  import opened DepthRuns

  /** The slot is as it was, or carries a stamp issued since. */
  predicate SlotAdvances(r: Row, r': Row, since: int, until: int) {
    (r'.Shown() == r.Shown() && r'.stamp == r.stamp) || since < r'.stamp <= until
  }

  ghost predicate RowsAdvance(rows: seq<Row>, rows': seq<Row>, since: int, until: int) {
    |rows'| == |rows| && forall i :: 0 <= i < |rows| ==> SlotAdvances(rows[i], rows'[i], since, until)
  }

  ghost predicate StampedBy(h: Half, changed: int) {
    && changed >= 0
    && (forall i :: 0 <= i < |h.rows| ==> h.rows[i].stamp <= changed)
    && (forall p :: p in h.excess ==> h.excess[p].stamp <= changed)
  }

  /** What every operation does to a side and to the change counter. */
  ghost predicate Advances(h: Half, changed: int, d: Done) {
    && changed <= d.changed
    && Shape(d.h) && StampedBy(d.h, d.changed)
    && RowsAdvance(h.rows, d.h.rows, changed, d.changed)
  }

  lemma AdvancesTwice(h: Half, changed: int, d: Done, e: Done)
    requires Advances(h, changed, d) && Advances(d.h, d.changed, e)
    ensures Advances(h, changed, e)
  {
    forall i | 0 <= i < |h.rows|
      ensures SlotAdvances(h.rows[i], e.h.rows[i], changed, e.changed)
    {
      assert SlotAdvances(h.rows[i], d.h.rows[i], changed, d.changed);
      assert SlotAdvances(d.h.rows[i], e.h.rows[i], d.changed, e.changed);
    }
  }

  /** Searching either way: all slots, or all but the last. */
  predicate Scans(h: Half, scan: nat) {
    1 <= |h.rows| && |h.rows| - 1 <= scan <= |h.rows|
  }

  // ---- stamping one row ----

  lemma PutAdvances(h: Half, changed: int, ref: Ref, r: Row)
    requires Shape(h) && StampedBy(h, changed) && In(h, ref) && !Get(h, ref).Empty()
    requires r.price == Get(h, ref).price && r.isExcess == Get(h, ref).isExcess
    requires r.stamp == changed + 1 || (ref.Spilled? && r.stamp <= changed)
    ensures Advances(h, changed, Done(Put(h, ref, r), changed + 1))
    ensures ref.Spilled? && r.stamp <= changed ==> Advances(h, changed, Done(Put(h, ref, r), changed))
  {
  }

  lemma EraseAdvances(h: Half, changed: int, k: nat, isBuy: bool)
    requires Shape(h) && StampedBy(h, changed) && k < |h.rows| && !h.rows[k].Empty()
    ensures Advances(h, changed, Done(EraseSlot(h, k, isBuy, changed + 1), changed + 1))
  {
    var n, h' := |h.rows|, EraseSlot(h, k, isBuy, changed + 1);
    var refill := k == n - 1 || !Last(h).Empty();
    var last := if refill then Refilled(Last(h), h.excess, isBuy, changed + 1) else Last(h);
    assert h'.rows == Raise(h.rows, k, changed + 1, last);
    assert last.stamp == changed + 1 || last == Last(h);
    assert forall p :: p in h'.excess ==> p in h.excess && h'.excess[p] == h.excess[p];
    ErasedShape(h, changed, k, isBuy);
    hide EraseSlot, Refilled, Shape;
    RaiseStamps(h.rows, changed, k, last);
  }

  lemma ErasedShape(h: Half, changed: int, k: nat, isBuy: bool)
    requires Shape(h) && k < |h.rows| && !h.rows[k].Empty()
    ensures Shape(EraseSlot(h, k, isBuy, changed + 1))
  {
    var n, h' := |h.rows|, EraseSlot(h, k, isBuy, changed + 1);
    var refill := k == n - 1 || !Last(h).Empty();
    var last := if refill then Refilled(Last(h), h.excess, isBuy, changed + 1) else Last(h);
    RaiseRaises(h, k, changed + 1, last);
    RaisedHasShape(h, h'.rows, k, last.Shown());
  }

  /** Of the slots raised, each is as it was or stamped. */
  lemma RaiseStamps(rows: seq<Row>, changed: int, k: nat, last: Row)
    requires k < |rows| && forall i :: 0 <= i < |rows| ==> rows[i].stamp <= changed
    requires last.stamp == changed + 1 || last == rows[|rows| - 1]
    ensures var rows' := Raise(rows, k, changed + 1, last);
      RowsAdvance(rows, rows', changed, changed + 1) && forall i :: 0 <= i < |rows'| ==> rows'[i].stamp <= changed + 1
  {
    var rows' := Raise(rows, k, changed + 1, last);
    forall j | 0 <= j < |rows|
      ensures SlotAdvances(rows[j], rows'[j], changed, changed + 1) && rows'[j].stamp <= changed + 1
    {
      assert rows'[j] == RaiseAt(rows, k, changed + 1, last, j);
    }
  }

  /** Of an insertion, only the new level itself is not stamped yet. */
  lemma InsertAlmostAdvances(h: Half, changed: int, k: nat, price: int)
    requires Shape(h) && StampedBy(h, changed) && k < |h.rows| && price != INVALID_LEVEL_PRICE
    requires forall j :: 0 <= j < k ==> !h.rows[j].Empty()
    ensures var h' := InsertBefore(h, k, price, changed + 1);
      && Shape(h') && StampedBy(h', changed + 1) && h'.rows[k].price == price
      && (forall j :: 0 <= j < |h.rows| && j != k ==> SlotAdvances(h.rows[j], h'.rows[j], changed, changed + 1))
  {
    var h' := InsertBefore(h, k, price, changed + 1);
    InsertLowers(h, k, price, changed + 1);
    LoweredHasShape(h, h'.rows, k, price);
    forall j | 0 <= j < |h.rows|
      ensures h'.rows[j] == LowerAt(h.rows, k, price, changed + 1, j)
      ensures h'.rows[j].stamp <= changed + 1
      ensures j != k ==> SlotAdvances(h.rows[j], h'.rows[j], changed, changed + 1)
    {
      if j > k && h.rows[j - 1].Empty() {
        assert h.rows[j].Empty();
      }
    }
  }

  // ---- the operations ----

  lemma AddAdvances(h: Half, changed: int, price: int, qty: int, isBuy: bool, scan: nat)
    requires Shape(h) && StampedBy(h, changed) && Scans(h, scan) && price != INVALID_LEVEL_PRICE
    ensures Advances(h, changed, Add(h, changed, price, qty, isBuy, scan))
  {
    var k := Search(h.rows, 0, scan, price, isBuy, true);
    BeforeStop(h, isBuy, price, k);
    if k < scan {
      AddAtSlot(h, changed, price, qty, isBuy, scan, k);
    } else {
      AddToExcess(h, changed, price, qty, isBuy, scan);
    }
  }

  lemma AddAtSlot(h: Half, changed: int, price: int, qty: int, isBuy: bool, scan: nat, k: nat)
    requires Shape(h) && StampedBy(h, changed) && Scans(h, scan) && price != INVALID_LEVEL_PRICE
    requires k == Search(h.rows, 0, scan, price, isBuy, true) < scan
    requires forall j :: 0 <= j < k ==> !h.rows[j].Empty()
    ensures Advances(h, changed, Add(h, changed, price, qty, isBuy, scan))
  {
    hide Advances, InsertBefore, Search;
    var r := h.rows[k];
    if r.price == price {
      PutAdvances(h, changed, Slot(k), r.AddOrder(qty).Stamp(changed + 1));
    } else if r.Empty() {
      FillAdvances(h, changed, k, price, qty);
      var h1 := h.(rows := h.rows[k := r.Init(price, false)]);
      assert Find(h, changed, price, isBuy, true, scan) == Found(h1, changed, Slot(k));
      assert h1.rows[k := r.Init(price, false).AddOrder(qty).Stamp(changed + 1)]
          == h.rows[k := r.Init(price, false).AddOrder(qty).Stamp(changed + 1)];
    } else {
      InsertAdvances(h, changed, k, price, qty);
    }
  }

  lemma AddToExcess(h: Half, changed: int, price: int, qty: int, isBuy: bool, scan: nat)
    requires Shape(h) && StampedBy(h, changed) && Scans(h, scan) && price != INVALID_LEVEL_PRICE
    requires Search(h.rows, 0, scan, price, isBuy, true) == scan
    ensures Advances(h, changed, Add(h, changed, price, qty, isBuy, scan))
  {
    hide Advances, InsertBefore, Search;
    if price in h.excess {
      PutAdvances(h, changed, Spilled(price), h.excess[price].AddOrder(qty));
    } else {
      OverflowAdvances(h, changed, price, qty);
      var r := NEW_ROW.Init(price, true);
      assert h.excess[price := r][price := r.AddOrder(qty)] == h.excess[price := r.AddOrder(qty)];
    }
  }

  lemma OverflowAdvances(h: Half, changed: int, price: int, qty: int)
    requires Shape(h) && StampedBy(h, changed) && price != INVALID_LEVEL_PRICE && price !in h.excess
    ensures var r := NEW_ROW.Init(price, true).AddOrder(qty);
      Advances(h, changed, Done(h.(excess := h.excess[price := r]), changed))
  {
  }

  lemma FillAdvances(h: Half, changed: int, k: nat, price: int, qty: int)
    requires Shape(h) && StampedBy(h, changed) && k < |h.rows| && price != INVALID_LEVEL_PRICE
    requires h.rows[k].Empty() && forall j :: 0 <= j < k ==> !h.rows[j].Empty()
    ensures var r := h.rows[k].Init(price, false).AddOrder(qty).Stamp(changed + 1);
      Advances(h, changed, Done(h.(rows := h.rows[k := r]), changed + 1))
  {
  }

  lemma InsertAdvances(h: Half, changed: int, k: nat, price: int, qty: int)
    requires Shape(h) && StampedBy(h, changed) && k < |h.rows| && price != INVALID_LEVEL_PRICE
    requires forall j :: 0 <= j < k ==> !h.rows[j].Empty()
    ensures var h1 := InsertBefore(h, k, price, changed + 1);
      && h1.rows[k] == h.rows[k].Init(price, false)
      && Advances(h, changed, Done(Put(h1, Slot(k), h1.rows[k].AddOrder(qty).Stamp(changed + 2)), changed + 2))
  {
    assert InsertBefore(h, k, price, changed + 1).rows[k] == LowerAt(h.rows, k, price, changed + 1, k);
    InsertAlmostAdvances(h, changed, k, price);
    hide InsertBefore;
    var h1 := InsertBefore(h, k, price, changed + 1);
    PutAdvances(h1, changed + 1, Slot(k), h1.rows[k].AddOrder(qty).Stamp(changed + 2));
  }

  /** A change of quantity lands in a filled level, or changes nothing. */
  ghost predicate Reached(h: Half, price: int, delta: int, scan: nat) {
    delta == 0 || scan == |h.rows| || Present(h, price) || (|h.rows| >= 1 && !Last(h).Empty())
  }

  /** What a search that creates nothing comes to is a filled level, or the last slot while that is empty. */
  lemma FoundIsFilled(h: Half, changed: int, price: int, isBuy: bool, scan: nat)
    requires Shape(h) && Scans(h, scan) && price != INVALID_LEVEL_PRICE
    ensures var ref := Find(h, changed, price, isBuy, false, scan).ref;
      && (In(h, ref) ==> Get(h, ref).isExcess == ref.Spilled?)
      && (In(h, ref) && Get(h, ref).Empty() ==> ref == Slot(|h.rows| - 1) && !Reached(h, price, 1, scan))
      && (!Reached(h, price, 1, scan) ==> ref == Slot(|h.rows| - 1) && Get(h, ref).Empty())
  {
    var k := Search(h.rows, 0, scan, price, isBuy, false);
    if k == scan < |h.rows| && HasRow(h.rows, price) {
      var i :| 0 <= i < |h.rows| && h.rows[i].price == price;
      assert i < scan ==> Stops(h.rows[i], price, isBuy, false);
    }
    assert k < scan ==> HasRow(h.rows, price);
  }

  lemma NothingAdvances(h: Half, changed: int)
    requires Shape(h) && StampedBy(h, changed)
    ensures Advances(h, changed, Done(h, changed))
  {
  }

  lemma ReachedWhatever(h: Half, price: int, delta: int, scan: nat)
    requires delta != 0
    ensures Reached(h, price, delta, scan) <==> Reached(h, price, 1, scan)
  {
  }

  lemma ReachedAdvances(h: Half, changed: int, price: int, delta: int, isBuy: bool, scan: nat)
    requires Shape(h) && StampedBy(h, changed) && Scans(h, scan) && price != INVALID_LEVEL_PRICE
    requires Reached(h, price, delta, scan)
    ensures Advances(h, changed, ChangeQty(h, changed, price, delta, isBuy, scan))
  {
    hide Find, Advances, StampedBy, Shape, Put, Reached;
    NothingAdvances(h, changed);
    FoundIsFilled(h, changed, price, isBuy, scan);
    var ref := Find(h, changed, price, isBuy, false, scan).ref;
    if In(h, ref) && delta != 0 {
      ReachedWhatever(h, price, delta, scan);
      var r := Get(h, ref);
      PutAdvances(h, changed, ref, r.(qty := r.qty + delta).Stamp(changed + 1));
    }
  }

  lemma UnreachedBreaks(h: Half, changed: int, price: int, delta: int, isBuy: bool, scan: nat)
    requires Shape(h) && Scans(h, scan) && price != INVALID_LEVEL_PRICE && !Reached(h, price, delta, scan)
    ensures !Shape(ChangeQty(h, changed, price, delta, isBuy, scan).h)
  {
    FoundIsFilled(h, changed, price, isBuy, scan);
    var k := |h.rows| - 1;
    assert h.rows[k].qty == 0 && h.rows[k].Empty() && delta != 0;
    hide Find, Reached;
    assert ChangeQty(h, changed, price, delta, isBuy, scan).h.rows[k].qty != 0;
  }

  /** A change of quantity keeps the side in shape, and then stamps what it changes, exactly if it is reached. */
  lemma ChangeAdvances(h: Half, changed: int, price: int, delta: int, isBuy: bool, scan: nat)
    requires Shape(h) && StampedBy(h, changed) && Scans(h, scan) && price != INVALID_LEVEL_PRICE
    ensures var d := ChangeQty(h, changed, price, delta, isBuy, scan);
      && (Reached(h, price, delta, scan) ==> Advances(h, changed, d))
      && (!Reached(h, price, delta, scan) ==> !Shape(d.h))
  {
    hide Shape, StampedBy, Reached, Advances, ChangeQty;
    if Reached(h, price, delta, scan) {
      ReachedAdvances(h, changed, price, delta, isBuy, scan);
    } else {
      UnreachedBreaks(h, changed, price, delta, isBuy, scan);
    }
  }

  /** A closing stamps what it changes, whatever level it comes to. */
  lemma CloseAdvances(h: Half, changed: int, price: int, qty: int, isBuy: bool, scan: nat)
    requires Shape(h) && StampedBy(h, changed) && Scans(h, scan) && price != INVALID_LEVEL_PRICE
    ensures Advances(h, changed, Close(h, changed, price, qty, isBuy, scan))
  {
    NothingAdvances(h, changed);
    FoundIsFilled(h, changed, price, isBuy, scan);
    var ref := Find(h, changed, price, isBuy, false, scan).ref;
    assert In(h, ref) && Get(h, ref).Empty() ==> Get(h, ref).count == 0;
    hide Find, Put, Erase, Advances, StampedBy, Shape, Reached;
    if In(h, ref) && Get(h, ref).count == 1 {
      LastOrderAdvances(h, changed, ref, isBuy);
    } else if In(h, ref) && Get(h, ref).count != 0 {
      PutAdvances(h, changed, ref, Get(h, ref).CloseOrder(qty).Stamp(changed + 1));
    }
  }

  lemma LastOrderAdvances(h: Half, changed: int, ref: Ref, isBuy: bool)
    requires Shape(h) && StampedBy(h, changed) && In(h, ref) && !Get(h, ref).Empty()
    requires Get(h, ref).isExcess == ref.Spilled?
    ensures var h' := Put(h, ref, Get(h, ref).(qty := 0, count := 0));
      In(h', ref) && Advances(h, changed, Erase(h', changed, ref, isBuy))
  {
    var h' := Put(h, ref, Get(h, ref).(qty := 0, count := 0));
    match ref {
      case Slot(k) =>
        EraseAdvances(h', changed, k, isBuy);
        var d := Done(EraseSlot(h', k, isBuy, changed + 1), changed + 1);
        // Slot k is stamped by the erasure, so that its intermediate state does not matter.
        assert d.h.rows[k].stamp == changed + 1;
        hide EraseSlot;
        forall i | 0 <= i < |h.rows|
          ensures SlotAdvances(h.rows[i], d.h.rows[i], changed, changed + 1)
        {
          assert SlotAdvances(h'.rows[i], d.h.rows[i], changed, changed + 1);
        }
      case Spilled(p) =>
    }
  }

  lemma AdvancedHolds(h: Half, changed: int, d: Done)
    requires Advances(h, changed, d)
    ensures Shape(d.h) && StampedBy(d.h, d.changed) && |d.h.rows| == |h.rows|
  {
  }

  lemma ReplaceAdvances(h: Half, changed: int, oldPrice: int, newPrice: int, oldQty: int, newQty: int,
                        isBuy: bool, scan: nat)
    requires Shape(h) && StampedBy(h, changed) && Scans(h, scan)
    requires oldPrice != INVALID_LEVEL_PRICE && newPrice != INVALID_LEVEL_PRICE
    ensures var d := Replace(h, changed, oldPrice, newPrice, oldQty, newQty, isBuy, scan);
      var reached := oldPrice == newPrice ==> Reached(h, oldPrice, newQty - oldQty, scan);
      (reached ==> Advances(h, changed, d)) && (!reached ==> !Shape(d.h))
  {
    hide Add, Close, ChangeQty, Shape, Reached, StampedBy, Advances;
    if oldPrice == newPrice {
      ChangeAdvances(h, changed, newPrice, newQty - oldQty, isBuy, scan);
    } else {
      AddAdvances(h, changed, newPrice, newQty, isBuy, scan);
      var d := Add(h, changed, newPrice, newQty, isBuy, scan);
      AdvancedHolds(h, changed, d);
      CloseAdvances(d.h, d.changed, oldPrice, oldQty, isBuy, scan);
      AdvancesTwice(h, changed, d, Close(d.h, d.changed, oldPrice, oldQty, isBuy, scan));
    }
  }

  // ---- the book ----

  /** What a side displays. */
  function Display(h: Half): seq<Level> {
    seq(|h.rows|, i requires 0 <= i < |h.rows| => h.rows[i].Shown())
  }

  /** Every slot that no longer shows what was published is stamped later than the publication. */
  ghost predicate SideTracked(h: Half, shown: seq<Level>, changed: int, published: int) {
    && Shape(h) && StampedBy(h, changed) && |shown| == |h.rows|
    && (forall i :: 0 <= i < |shown| ==> h.rows[i].Shown() == shown[i] || h.rows[i].stamp > published)
  }

  ghost predicate Tracked(b: Book, bids: seq<Level>, asks: seq<Level>) {
    && b.published <= b.changed && |b.bid.rows| == |b.ask.rows|
    && SideTracked(b.bid, bids, b.changed, b.published)
    && SideTracked(b.ask, asks, b.changed, b.published)
  }

  predicate HasNews(b: Book) {
    b.changed > b.published
  }

  lemma AdvanceTracks(h: Half, shown: seq<Level>, changed: int, published: int, d: Done)
    requires SideTracked(h, shown, changed, published) && published <= changed && Advances(h, changed, d)
    ensures SideTracked(d.h, shown, d.changed, published)
  {
    forall i | 0 <= i < |shown|
      ensures d.h.rows[i].Shown() == shown[i] || d.h.rows[i].stamp > published
    {
      assert SlotAdvances(h.rows[i], d.h.rows[i], changed, d.changed);
    }
  }

  /** Prices are valid, and changes of quantity are reached. */
  ghost predicate Legit(b: Book, c: Call, scan: nat) {
    Priced(c) && Lands(b, c, scan)
  }

  predicate Priced(c: Call) {
    match c
    case AddCall(_, p, _) => p != INVALID_LEVEL_PRICE
    case ReplaceCall(_, op, np, _, _) => op != INVALID_LEVEL_PRICE && np != INVALID_LEVEL_PRICE
    case ChangeCall(_, p, _) => p != INVALID_LEVEL_PRICE
    case CloseCall(_, p, _) => p != INVALID_LEVEL_PRICE
    case PublishCall => true
  }

  /** Only a change of quantity, where a replacement at an unchanged price is one, can fail to land. */
  ghost predicate Lands(b: Book, c: Call, scan: nat) {
    match c
    case ReplaceCall(isBuy, op, np, oq, nq) => op == np ==> Reached(b.On(isBuy), op, nq - oq, scan)
    case ChangeCall(isBuy, p, delta) => Reached(b.On(isBuy), p, delta, scan)
    case _ => true
  }

  /** A call keeps the sides tracked exactly if it lands. */
  lemma CallTracksIff(b: Book, c: Call, scan: nat, bids: seq<Level>, asks: seq<Level>)
    requires Tracked(b, bids, asks) && Scans(b.bid, scan) && Priced(c)
    ensures !c.PublishCall? ==> (Tracked(Do(b, c, scan), bids, asks) <==> Lands(b, c, scan))
    ensures c.PublishCall? ==> Tracked(Do(b, c, scan), Display(b.bid), Display(b.ask))
  {
    if !c.PublishCall? {
      var isBuy := c.isBuy;
      var h, shown := b.On(isBuy), if isBuy then bids else asks;
      var d := SideCallAdvances(b, c, scan);
      if Lands(b, c, scan) {
        AdvanceTracks(h, shown, b.changed, b.published, d);
      } else {
        assert !Shape(Do(b, c, scan).On(isBuy));
      }
    }
  }

  lemma SideCallAdvances(b: Book, c: Call, scan: nat) returns (d: Done)
    requires !c.PublishCall? && Priced(c) && |b.bid.rows| == |b.ask.rows|
    requires Scans(b.bid, scan) && Shape(b.On(c.isBuy)) && StampedBy(b.On(c.isBuy), b.changed)
    ensures Do(b, c, scan) == b.With(c.isBuy, d)
    ensures if Lands(b, c, scan) then Advances(b.On(c.isBuy), b.changed, d) else !Shape(d.h)
  {
    hide Shape, StampedBy, Advances, Add, Close, ChangeQty, Replace, Reached;
    var h := b.On(c.isBuy);
    match c
    case AddCall(isBuy, p, q) =>
      AddAdvances(h, b.changed, p, q, isBuy, scan);
      d := Add(h, b.changed, p, q, isBuy, scan);
    case ReplaceCall(isBuy, op, np, oq, nq) =>
      ReplaceAdvances(h, b.changed, op, np, oq, nq, isBuy, scan);
      d := Replace(h, b.changed, op, np, oq, nq, isBuy, scan);
    case ChangeCall(isBuy, p, delta) =>
      ChangeAdvances(h, b.changed, p, delta, isBuy, scan);
      d := ChangeQty(h, b.changed, p, delta, isBuy, scan);
    case CloseCall(isBuy, p, q) =>
      CloseAdvances(h, b.changed, p, q, isBuy, scan);
      d := Close(h, b.changed, p, q, isBuy, scan);
  }

  ghost predicate LegitRun(b: Book, cs: seq<Call>, scan: nat)
    requires scan <= |b.bid.rows| && scan <= |b.ask.rows|
    decreases cs
  {
    cs != [] ==> Legit(b, cs[0], scan) && LegitRun(Do(b, cs[0], scan), cs[1..], scan)
  }

  /** What the sides displayed when the last publication of a run was made. */
  ghost function LastPublished(b: Book, cs: seq<Call>, scan: nat, bids: seq<Level>, asks: seq<Level>)
    : (seq<Level>, seq<Level>)
    requires scan <= |b.bid.rows| && scan <= |b.ask.rows|
    decreases cs
  {
    if cs == [] then (bids, asks)
    else if cs[0].PublishCall? then
      LastPublished(Do(b, cs[0], scan), cs[1..], scan, Display(b.bid), Display(b.ask))
    else LastPublished(Do(b, cs[0], scan), cs[1..], scan, bids, asks)
  }

  lemma {:induction false} RunTracks(b: Book, cs: seq<Call>, scan: nat, bids: seq<Level>, asks: seq<Level>)
    requires Tracked(b, bids, asks) && Scans(b.bid, scan) && LegitRun(b, cs, scan)
    ensures var shown := LastPublished(b, cs, scan, bids, asks);
      Tracked(Run(b, cs, scan), shown.0, shown.1)
    decreases cs
  {
    if cs != [] {
      CallTracksIff(b, cs[0], scan, bids, asks);
      var b' := Do(b, cs[0], scan);
      if cs[0].PublishCall? {
        RunTracks(b', cs[1..], scan, Display(b.bid), Display(b.ask));
      } else {
        RunTracks(b', cs[1..], scan, bids, asks);
      }
    }
  }

  /**
   Over any run from an empty book, in which changes of quantity are reached, a slot that differs from
   what was last published is stamped after that publication, no stamp is ahead of the counter, and the
   book reports a change.
   */
  lemma EveryChangeIsSeen(n: nat, cs: seq<Call>, scan: nat, isBuy: bool, i: nat)
    requires n >= 1 && n - 1 <= scan <= n && LegitRun(EmptyBook(n), cs, scan) && i < n
    ensures var b := Run(EmptyBook(n), cs, scan);
      var shown := LastPublished(EmptyBook(n), cs, scan, Display(EmptyHalf(n)), Display(EmptyHalf(n)));
      var r := b.On(isBuy).rows;
      && |r| == n == |shown.0| == |shown.1|
      && r[i].stamp <= b.changed
      && (r[i].Shown() != (if isBuy then shown.0 else shown.1)[i] ==> r[i].stamp > b.published && HasNews(b))
  {
    var e := EmptyBook(n);
    assert Tracked(e, Display(e.bid), Display(e.ask));
    RunTracks(e, cs, scan, Display(e.bid), Display(e.ask));
    RunKeepsSize(e, cs, scan);
  }

  lemma {:induction false} RunKeepsSize(b: Book, cs: seq<Call>, scan: nat)
    requires scan <= |b.bid.rows| && scan <= |b.ask.rows|
    ensures |Run(b, cs, scan).bid.rows| == |b.bid.rows| && |Run(b, cs, scan).ask.rows| == |b.ask.rows|
    decreases cs
  {
    if cs != [] { RunKeepsSize(Do(b, cs[0], scan), cs[1..], scan); }
  }

  const AT_LAST := Half([NEW_ROW, NEW_ROW, Row(INVALID_LEVEL_PRICE, 3, 0, false, 1)], map[])

  lemma LandsInEmptySlot()
    ensures EmptyHalf(3).rows == [NEW_ROW, NEW_ROW, NEW_ROW]
    ensures ChangeQty(EmptyHalf(3), 0, 5, 3, true, 2) == Done(AT_LAST, 1)
  {
    assert EmptyHalf(3).rows == [NEW_ROW, NEW_ROW, NEW_ROW];
  }

  const ONE_BID := Half([Row(100, 1, 1, false, 2), NEW_ROW, Row(INVALID_LEVEL_PRICE, 3, 0, false, 1)], map[])

  lemma FirstBidFills()
    ensures Add(AT_LAST, 1, 100, 1, true, 2) == Done(ONE_BID, 2)
  {
    var r := NEW_ROW.Init(100, false);
    assert Search(AT_LAST.rows, 0, 2, 100, true, true) == 0;
    hide Search;
    assert Find(AT_LAST, 1, 100, true, true, 2) == Found(AT_LAST.(rows := AT_LAST.rows[0 := r]), 1, Slot(0));
    hide Find;
    assert AT_LAST.rows[0 := r][0 := r.AddOrder(1).Stamp(2)] == ONE_BID.rows;
  }

  lemma SecondBidTakesBack()
    ensures Add(ONE_BID, 2, 101, 1, true, 2).h.rows
         == [Row(101, 1, 1, false, 4), Row(100, 1, 1, false, 3), Row(INVALID_LEVEL_PRICE, 0, 0, false, 1)]
  {
    assert Search(ONE_BID.rows, 0, 2, 101, true, true) == 0;
    hide Search;
    var h := InsertBefore(ONE_BID, 0, 101, 3);
    assert Find(ONE_BID, 2, 101, true, true, 2) == Found(h, 3, Slot(0));
    assert h.rows == [Row(101, 0, 0, false, 2), Row(100, 1, 1, false, 3), Row(INVALID_LEVEL_PRICE, 0, 0, false, 1)];
    hide Find, InsertBefore;
  }

  /**
   A run with the short search that changes the quantity of a price without a level: the change lands in
   the empty last slot, is published, and is taken back by an insertion that stamps nothing there.
   */
  lemma UnreachedChangeIsMissed(cs: seq<Call>)
    requires cs == [ChangeCall(true, 5, 3), PublishCall, AddCall(true, 100, 1), AddCall(true, 101, 1)]
    ensures var b := Run(EmptyBook(3), cs, 2);
      && LastPublished(EmptyBook(3), cs, 2, Display(EmptyHalf(3)), Display(EmptyHalf(3))).0
         == [Level(INVALID_LEVEL_PRICE, 0, 0), Level(INVALID_LEVEL_PRICE, 0, 0), Level(INVALID_LEVEL_PRICE, 3, 0)]
      && b.bid.rows == [Row(101, 1, 1, false, 4), Row(100, 1, 1, false, 3), Row(INVALID_LEVEL_PRICE, 0, 0, false, 1)]
      && b.published == 1
  {
    LandsInEmptySlot();
    FirstBidFills();
    SecondBidTakesBack();
    hide Add, ChangeQty;
    var b0, shown := EmptyBook(3), Display(EmptyHalf(3));
    var b1 := Do(b0, cs[0], 2);
    var b2 := Do(b1, cs[1], 2);
    var b3 := Do(b2, cs[2], 2);
    var b4 := Do(b3, cs[3], 2);
    var seen, asks := Display(b1.bid), Display(b1.ask);
    assert cs[1..][1..] == cs[2..] && cs[2..][1..] == cs[3..] && cs[3..][1..] == [];
    assert b2.bid == AT_LAST && b2.changed == b2.published == 1;
    assert b4.published == 1 && b4.bid.rows == Add(b3.bid, 2, 101, 1, true, 2).h.rows;
    assert cs[0].ChangeCall? && cs[1].PublishCall? && cs[2].AddCall? && cs[3].AddCall?;
    hide Do, Display;
    assert Run(b0, cs, 2) == Run(b1, cs[1..], 2) == Run(b2, cs[2..], 2) == Run(b3, cs[3..], 2) == Run(b4, [], 2);
    assert LastPublished(b0, cs, 2, shown, shown) == LastPublished(b1, cs[1..], 2, shown, shown)
        == LastPublished(b2, cs[2..], 2, seen, asks) == LastPublished(b3, cs[3..], 2, seen, asks)
        == LastPublished(b4, [], 2, seen, asks);
  }
}
