/** When Depth reports a change, and which slots a call leaves alone. */
module DepthPublishing {
  import opened Ladder
  import opened DepthSide
  import opened DepthRefinement
  import opened DepthOperations
  import opened DepthRuns
  import opened DepthChanges

  // ---- which calls count as changes ----

  /** The excess flag tells slots from excess levels. */
  ghost predicate Flagged(h: Half) {
    (forall i :: 0 <= i < |h.rows| ==> !h.rows[i].isExcess) && (forall p :: p in h.excess ==> h.excess[p].isExcess)
  }

  /** An added order is a change unless its price is behind every slot that the search visits. */
  ghost predicate AddAlters(h: Half, price: int, isBuy: bool, scan: nat)
    requires scan <= |h.rows|
  {
    exists j :: 0 <= j < scan && Takes(h.rows[j], price, isBuy)
  }

  /** A slot that has the price, is free, or has a worse one. */
  predicate Takes(r: Row, price: int, isBuy: bool) {
    r.price == price || r.price == 0 || Better(isBuy, price, r.price)
  }

  /** A change of quantity is one if it is not zero and there is a level for it. */
  ghost predicate ChangeAlters(h: Half, price: int, delta: int, scan: nat) {
    delta != 0 && (scan < |h.rows| || Present(h, price))
  }

  /** A closing is a change if it comes to a level with orders, but for the last order of an excess level. */
  predicate CloseAlters(h: Half, price: int, isBuy: bool, scan: nat)
    requires scan <= |h.rows|
  {
    var ref := Find(h, 0, price, isBuy, false, scan).ref;
    In(h, ref) && Get(h, ref).count != 0 && (ref.Spilled? ==> Get(h, ref).count != 1)
  }

  ghost predicate Alters(b: Book, c: Call, scan: nat)
    requires scan <= |b.bid.rows| && scan <= |b.ask.rows|
  {
    match c
    case AddCall(isBuy, p, _) => AddAlters(b.On(isBuy), p, isBuy, scan)
    case ReplaceCall(isBuy, op, np, oq, nq) =>
      if op == np then ChangeAlters(b.On(isBuy), op, nq - oq, scan)
      else
        || AddAlters(b.On(isBuy), np, isBuy, scan)
        || CloseAlters(Add(b.On(isBuy), b.changed, np, nq, isBuy, scan).h, op, isBuy, scan)
    case ChangeCall(isBuy, p, delta) => ChangeAlters(b.On(isBuy), p, delta, scan)
    case CloseCall(isBuy, p, _) => CloseAlters(b.On(isBuy), p, isBuy, scan)
    case PublishCall => false
  }

  /** What an operation does to the counter. */
  ghost predicate Counts(changed: int, d: Done, alters: bool) {
    Flagged(d.h) && d.changed >= changed && (d.changed > changed <==> alters)
  }

  lemma InsertFlagged(h: Half, k: nat, price: int, change: int)
    requires Flagged(h) && k < |h.rows|
    ensures Flagged(InsertBefore(h, k, price, change))
  {
    var h' := InsertBefore(h, k, price, change);
    forall j | 0 <= j < |h.rows|
      ensures !h'.rows[j].isExcess
    {
      assert h'.rows[j] == LowerAt(h.rows, k, price, change, j);
    }
  }

  lemma EraseFlagged(h: Half, k: nat, isBuy: bool, change: int)
    requires Flagged(h) && k < |h.rows|
    ensures Flagged(EraseSlot(h, k, isBuy, change))
  {
    var last := Last(h);
    var refill := k == |h.rows| - 1 || !last.Empty();
    var r := if refill then Refilled(last, h.excess, isBuy, change) else last;
    var h' := EraseSlot(h, k, isBuy, change);
    assert h'.rows == Raise(h.rows, k, change, r) && !r.isExcess;
    forall j | 0 <= j < |h.rows|
      ensures !h'.rows[j].isExcess
    {
      assert h'.rows[j] == RaiseAt(h.rows, k, change, r, j);
    }
  }

  lemma PutFlagged(h: Half, ref: Ref, r: Row)
    requires Flagged(h) && In(h, ref) && r.isExcess == ref.Spilled?
    ensures Flagged(Put(h, ref, r))
  {
  }

  lemma GetFlag(h: Half, ref: Ref)
    requires Flagged(h) && In(h, ref)
    ensures Get(h, ref).isExcess == ref.Spilled?
  {
  }

  lemma AddCounts(h: Half, changed: int, price: int, qty: int, isBuy: bool, scan: nat)
    requires Flagged(h) && scan <= |h.rows|
    ensures Counts(changed, Add(h, changed, price, qty, isBuy, scan), AddAlters(h, price, isBuy, scan))
  {
    var k := Search(h.rows, 0, scan, price, isBuy, true);
    var f := Find(h, changed, price, isBuy, true, scan);
    assert AddAlters(h, price, isBuy, scan) <==> k < scan by {
      if k < scan { assert Takes(h.rows[k], price, isBuy); }
      if j :| 0 <= j < scan && Takes(h.rows[j], price, isBuy) {
        assert Stops(h.rows[j], price, isBuy, true);
      }
    }
    FindCounts(h, changed, price, isBuy, scan);
    hide Find, Search, Flagged, Put, AddAlters;
    GetFlag(f.h, f.ref);
    var r := Get(f.h, f.ref).AddOrder(qty);
    PutFlagged(f.h, f.ref, r);
    PutFlagged(f.h, f.ref, r.Stamp(f.changed + 1));
  }

  lemma FindCounts(h: Half, changed: int, price: int, isBuy: bool, scan: nat)
    requires Flagged(h) && scan <= |h.rows|
    ensures var k, f := Search(h.rows, 0, scan, price, isBuy, true), Find(h, changed, price, isBuy, true, scan);
      Flagged(f.h) && In(f.h, f.ref) && f.changed >= changed && (f.ref.Spilled? <==> k == scan)
      && (k == scan ==> f.changed == changed)
  {
    var k := Search(h.rows, 0, scan, price, isBuy, true);
    if k < scan { InsertFlagged(h, k, price, changed + 1); }
    hide InsertBefore;
  }

  lemma ChangeCounts(h: Half, changed: int, price: int, delta: int, isBuy: bool, scan: nat)
    requires Flagged(h) && scan <= |h.rows|
    ensures Counts(changed, ChangeQty(h, changed, price, delta, isBuy, scan), ChangeAlters(h, price, delta, scan))
  {
    var ref := Find(h, changed, price, isBuy, false, scan).ref;
    FindsIff(h, changed, price, isBuy, scan);
    hide Find, Flagged, Put, Present;
    if In(h, ref) {
      GetFlag(h, ref);
      PutFlagged(h, ref, Get(h, ref).(qty := Get(h, ref).qty + delta).Stamp(changed + 1));
    }
  }

  lemma FindsIff(h: Half, changed: int, price: int, isBuy: bool, scan: nat)
    requires scan <= |h.rows|
    ensures In(h, Find(h, changed, price, isBuy, false, scan).ref) <==> scan < |h.rows| || Present(h, price)
  {
    var k := Search(h.rows, 0, scan, price, isBuy, false);
    assert k < scan ==> HasRow(h.rows, price);
    if scan == |h.rows| && HasRow(h.rows, price) {
      var i :| 0 <= i < |h.rows| && h.rows[i].price == price;
      assert Stops(h.rows[i], price, isBuy, false);
    }
  }

  lemma CloseCounts(h: Half, changed: int, price: int, qty: int, isBuy: bool, scan: nat)
    requires Flagged(h) && scan <= |h.rows|
    ensures Counts(changed, Close(h, changed, price, qty, isBuy, scan), CloseAlters(h, price, isBuy, scan))
  {
    SameRef(h, changed, price, isBuy, scan);
    var ref := Find(h, changed, price, isBuy, false, scan).ref;
    hide Find, Flagged, Put, Erase;
    if In(h, ref) {
      GetFlag(h, ref);
      var r := Get(h, ref);
      PutFlagged(h, ref, r.CloseOrder(qty).Stamp(changed + 1));
      EraseCounts(h, changed, ref, r.(qty := 0, count := 0), isBuy);
    }
  }

  lemma SameRef(h: Half, changed: int, price: int, isBuy: bool, scan: nat)
    requires scan <= |h.rows|
    ensures Find(h, changed, price, isBuy, false, scan).ref == Find(h, 0, price, isBuy, false, scan).ref
  {
  }

  lemma EraseCounts(h: Half, changed: int, ref: Ref, r: Row, isBuy: bool)
    requires Flagged(h) && In(h, ref) && r.isExcess == ref.Spilled?
    ensures In(Put(h, ref, r), ref) && Counts(changed, Erase(Put(h, ref, r), changed, ref, isBuy), ref.Slot?)
  {
    PutFlagged(h, ref, r);
    if ref.Slot? {
      EraseFlagged(Put(h, ref, r), ref.i, isBuy, changed + 1);
      hide EraseSlot;
    }
  }

  ghost predicate AllFlagged(b: Book) {
    Flagged(b.bid) && Flagged(b.ask)
  }

  /** A call moves the counter exactly if it is a change; a publication only catches up with it. */
  lemma CallCounts(b: Book, c: Call, scan: nat)
    requires AllFlagged(b) && scan <= |b.bid.rows| && scan <= |b.ask.rows|
    ensures var b' := Do(b, c, scan);
      && AllFlagged(b') && b'.changed >= b.changed && (b'.changed > b.changed <==> Alters(b, c, scan))
      && b'.published == if c.PublishCall? then b.changed else b.published
  {
    hide Flagged, Add, Close, ChangeQty, AddAlters, ChangeAlters, CloseAlters;
    match c
    case AddCall(isBuy, p, q) => AddCounts(b.On(isBuy), b.changed, p, q, isBuy, scan);
    case ReplaceCall(isBuy, op, np, oq, nq) =>
      var h := b.On(isBuy);
      if op == np {
        ChangeCounts(h, b.changed, np, nq - oq, isBuy, scan);
      } else {
        AddCounts(h, b.changed, np, nq, isBuy, scan);
        var d := Add(h, b.changed, np, nq, isBuy, scan);
        CloseCounts(d.h, d.changed, op, oq, isBuy, scan);
      }
    case ChangeCall(isBuy, p, delta) => ChangeCounts(b.On(isBuy), b.changed, p, delta, isBuy, scan);
    case CloseCall(isBuy, p, q) => CloseCounts(b.On(isBuy), b.changed, p, q, isBuy, scan);
    case PublishCall =>
  }

  // ---- changed() ----

  /** Nothing is reported of a new book, nor right after a publication. */
  lemma PublishedIsUnchanged(b: Book, n: nat, scan: nat)
    requires scan <= |b.bid.rows| && scan <= |b.ask.rows|
    ensures !HasNews(EmptyBook(n)) && !HasNews(Do(b, PublishCall, scan))
    ensures Do(b, PublishCall, scan).On(true) == b.bid && Do(b, PublishCall, scan).On(false) == b.ask
  {
  }

  /** Some call since the last publication of the run was a change, or one was pending from before the run. */
  ghost predicate Pending(b: Book, cs: seq<Call>, scan: nat, pending: bool)
    requires scan <= |b.bid.rows| && scan <= |b.ask.rows|
    decreases cs
  {
    if cs == [] then pending
    else Pending(Do(b, cs[0], scan), cs[1..], scan, !cs[0].PublishCall? && (pending || Alters(b, cs[0], scan)))
  }

  lemma {:induction false} RunChangedIff(b: Book, cs: seq<Call>, scan: nat)
    requires AllFlagged(b) && b.published <= b.changed && scan <= |b.bid.rows| && scan <= |b.ask.rows|
    ensures HasNews(Run(b, cs, scan)) <==> Pending(b, cs, scan, HasNews(b))
    decreases cs
  {
    if cs != [] {
      var b' := Do(b, cs[0], scan);
      CallCounts(b, cs[0], scan);
      hide Do, Alters, AllFlagged;
      RunChangedIff(b', cs[1..], scan);
      assert HasNews(b') <==> !cs[0].PublishCall? && (HasNews(b) || Alters(b, cs[0], scan));
    }
  }

  /** On every run from an empty book, changed() is true exactly if some call since the last publication was one. */
  lemma EveryRunChangedIff(n: nat, cs: seq<Call>, scan: nat)
    requires scan <= n
    ensures HasNews(Run(EmptyBook(n), cs, scan)) <==> Pending(EmptyBook(n), cs, scan, false)
  {
    PublishedIsUnchanged(EmptyBook(n), n, scan);
    RunChangedIff(EmptyBook(n), cs, scan);
  }

  // ---- what a call leaves alone ----

  /** An added order leaves the slots of better prices as they are, stamps included. */
  lemma AddLeavesBetter(h: Half, changed: int, price: int, qty: int, isBuy: bool, scan: nat, j: nat)
    requires Shape(h) && Sorted(h.rows, isBuy) && scan <= |h.rows| && price != INVALID_LEVEL_PRICE
    requires j < |h.rows| && !h.rows[j].Empty() && Better(isBuy, h.rows[j].price, price)
    ensures Add(h, changed, price, qty, isBuy, scan).h.rows[j] == h.rows[j]
  {
    var k := Search(h.rows, 0, scan, price, isBuy, true);
    if k < scan {
      assert Stops(h.rows[k], price, isBuy, true);
      assert j < k;
      assert InsertBefore(h, k, price, changed + 1).rows[j] == LowerAt(h.rows, k, price, changed + 1, j);
    }
    hide InsertBefore, Search;
  }

  /** A change of quantity leaves the slots of all other prices as they are. */
  lemma ChangeLeavesOthers(h: Half, changed: int, price: int, delta: int, isBuy: bool, scan: nat, j: nat)
    requires Shape(h) && Scans(h, scan) && Present(h, price) && j < |h.rows| && h.rows[j].price != price
    ensures ChangeQty(h, changed, price, delta, isBuy, scan).h.rows[j] == h.rows[j]
  {
    PresentIsFound(h, changed, price, isBuy, scan);
    hide Find, Present, Shape;
  }

  /** A closing leaves the slots of better prices as they are. */
  lemma CloseLeavesBetter(h: Half, changed: int, price: int, qty: int, isBuy: bool, scan: nat, j: nat)
    requires Shape(h) && Sorted(h.rows, isBuy) && Scans(h, scan) && Present(h, price) && price != INVALID_LEVEL_PRICE
    requires j < |h.rows| && !h.rows[j].Empty() && Better(isBuy, h.rows[j].price, price)
    ensures Close(h, changed, price, qty, isBuy, scan).h.rows[j] == h.rows[j]
  {
    PresentIsFound(h, changed, price, isBuy, scan);
    var ref := Find(h, changed, price, isBuy, false, scan).ref;
    hide Find, Present;
    if ref.Slot? && Get(h, ref).count == 1 {
      assert j < ref.i;
      var h' := Put(h, ref, Get(h, ref).(qty := 0, count := 0));
      RaisedAbove(h', ref.i, isBuy, changed + 1, j);
    }
    hide EraseSlot, Shape, Sorted;
  }

  /** Erasing a slot leaves the empty ones as they are, stamps included. */
  lemma EraseLeavesEmpty(h: Half, k: nat, isBuy: bool, change: int, j: nat)
    requires Shape(h) && k < |h.rows| && j < |h.rows| && j != k && h.rows[j].Empty()
    ensures EraseSlot(h, k, isBuy, change).rows[j] == h.rows[j]
  {
    var last := Last(h);
    var refill := k == |h.rows| - 1 || !last.Empty();
    var r := if refill then Refilled(last, h.excess, isBuy, change) else last;
    assert EraseSlot(h, k, isBuy, change).rows == Raise(h.rows, k, change, r);
    assert Raise(h.rows, k, change, r)[j] == RaiseAt(h.rows, k, change, r, j);
    assert j == |h.rows| - 1 ==> last.Empty();
  }

  /** Inserting never overwrites an excess level; a filled last slot joins them where its price is not among them. */
  lemma InsertKeepsExcess(h: Half, k: nat, price: int, change: int)
    requires k < |h.rows|
    ensures var e, last := InsertBefore(h, k, price, change).excess, Last(h);
      && (forall p :: p in h.excess ==> p in e && e[p] == h.excess[p])
      && (forall p :: p in e && p !in h.excess ==> p == last.price)
      && (last.price != 0 && last.price !in h.excess ==>
            last.price in e && e[last.price] == Row(last.price, last.qty, last.count, true, last.stamp))
      && (last.price == 0 ==> e == h.excess)
  {
  }

  lemma RaisedAbove(h: Half, k: nat, isBuy: bool, change: int, j: nat)
    requires j < k < |h.rows|
    ensures EraseSlot(h, k, isBuy, change).rows[j] == h.rows[j]
  {
    var last := Last(h);
    var refill := k == |h.rows| - 1 || !last.Empty();
    var r := if refill then Refilled(last, h.excess, isBuy, change) else last;
    assert EraseSlot(h, k, isBuy, change).rows == Raise(h.rows, k, change, r);
    assert Raise(h.rows, k, change, r)[j] == RaiseAt(h.rows, k, change, r, j);
  }

  lemma PresentIsFound(h: Half, changed: int, price: int, isBuy: bool, scan: nat)
    requires Scans(h, scan) && Present(h, price)
    ensures var ref := Find(h, changed, price, isBuy, false, scan).ref;
      In(h, ref) && (ref.Slot? ==> h.rows[ref.i].price == price) && (ref.Spilled? ==> ref.price == price)
  {
    var k := Search(h.rows, 0, scan, price, isBuy, false);
    if k == scan && price !in h.excess {
      var i :| 0 <= i < |h.rows| && h.rows[i].price == price;
      assert i < scan ==> Stops(h.rows[i], price, isBuy, false);
    }
  }
}
