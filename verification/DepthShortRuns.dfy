/** Whole runs of Depth with the search as the source has it, which leaves out the last slot. */
module DepthShortRuns {
  import opened Ladder
  import opened DepthSide
  import opened DepthRefinement
  import opened DepthOperations
  import opened DepthRuns

  // ---- the condition, over live orders ----

  /** The live prices of a side that are strictly better than a price. */
  function Ahead(live: map<int, Order>, isBuy: bool, price: int): set<int> {
    set id | id in live && live[id].isBuy == isBuy && Better(isBuy, live[id].price, price) :: live[id].price
  }

  /**
   With n slots, the search as written serves an operation unless it brings in a price that exactly n - 1
   live prices are ahead of: that one belongs to the last slot. It still serves a replacement that takes the
   only order from the n-th best price to a better one.
   */
  predicate Served(live: map<int, Order>, op: Op, n: nat)
    requires Allowed(live, op)
  {
    match op
    case Open(_, o) => |Ahead(live, o.isBuy, o.price)| != n - 1
    case Replacing(id, price, _) =>
      var o := live[id];
      || o.price == price
      || |Ahead(live, o.isBuy, price)| != n - 1
      || (|Ahead(live, o.isBuy, o.price)| == n - 1 && Alone(live, id) && Better(o.isBuy, price, o.price))
    case _ => true
  }

  predicate Alone(live: map<int, Order>, id: int)
    requires id in live
  {
    forall j :: j in live && At(live[j], live[id].isBuy, live[id].price) ==> j == id
  }

  ghost function PriceSet(rows: seq<Row>, k: nat): set<int>
    requires k <= |rows|
  {
    set j | 0 <= j < k :: rows[j].price
  }

  lemma NextPrice(rows: seq<Row>, k: nat)
    requires 0 < k <= |rows|
    ensures PriceSet(rows, k) == PriceSet(rows, k - 1) + {rows[k - 1].price}
  {
  }

  lemma {:induction false} PriceSetSize(rows: seq<Row>, k: nat)
    requires k <= |rows| && forall i, j :: 0 <= i < j < k ==> rows[i].price != rows[j].price
    ensures |PriceSet(rows, k)| == k
  {
    if k > 0 {
      PriceSetSize(rows, k - 1);
      var p := rows[k - 1].price;
      forall j | 0 <= j < k - 1
        ensures rows[j].price != p
      {
      }
      assert p !in PriceSet(rows, k - 1);
      assert PriceSet(rows, k) == PriceSet(rows, k - 1) + {p} by { NextPrice(rows, k); }
    }
  }

  lemma AheadInSheet(live: map<int, Order>, isBuy: bool, price: int, p: int)
    ensures p in Ahead(live, isBuy, price) <==> p in SheetOf(live, isBuy) && Better(isBuy, p, price)
  {
  }

  /** The slots whose prices are ahead come first, and are all there is ahead unless every slot is. */
  lemma AheadAreFirst(h: Half, live: map<int, Order>, isBuy: bool, price: int, k: nat)
    requires Rep(h, SheetOf(live, isBuy), isBuy) && k <= |h.rows|
    requires forall j :: 0 <= j < k ==> !h.rows[j].Empty() && Better(isBuy, h.rows[j].price, price)
    requires k < |h.rows| ==> h.rows[k].Empty() || !Better(isBuy, h.rows[k].price, price)
    ensures if k < |h.rows| then |Ahead(live, isBuy, price)| == k else |Ahead(live, isBuy, price)| >= k
  {
    var m, first, ahead := SheetOf(live, isBuy), PriceSet(h.rows, k), Ahead(live, isBuy, price);
    PriceSetSize(h.rows, k);
    forall p | p in first
      ensures p in ahead
    {
      AheadInSheet(live, isBuy, price, p);
    }
    if k < |h.rows| {
      forall p | p in ahead
        ensures p in first
      {
        AheadInSheet(live, isBuy, price, p);
        AheadIsEarly(h, m, isBuy, price, k, p);
      }
      assert ahead == first;
    } else {
      SubsetIsSmaller(first, ahead);
    }
  }

  lemma AheadIsEarly(h: Half, m: Sheet, isBuy: bool, price: int, k: nat, p: int)
    requires Rep(h, m, isBuy) && k < |h.rows| && p in m && Better(isBuy, p, price)
    requires h.rows[k].Empty() || !Better(isBuy, h.rows[k].price, price)
    ensures p in PriceSet(h.rows, k)
  {
    assert p !in h.excess;
    assert HasRow(h.rows, p);
    var i :| 0 <= i < |h.rows| && h.rows[i].price == p;
    assert i < k;
  }

  lemma {:induction false} SubsetIsSmaller(a: set<int>, b: set<int>)
    requires a <= b
    ensures |a| <= |b|
  {
    if a != {} {
      var x := Member(a);
      SubsetIsSmaller(a - {x}, b - {x});
    }
  }

  /** What the slots and the excess map tell of a new price is how many live prices are ahead of it. */
  lemma ServesIffNotLast(h: Half, live: map<int, Order>, isBuy: bool, price: int)
    requires Rep(h, SheetOf(live, isBuy), isBuy) && price != INVALID_LEVEL_PRICE && |h.rows| >= 1
    ensures ShortSearchServes(h, price, isBuy) <==> |Ahead(live, isBuy, price)| != |h.rows| - 1
  {
    var n := |h.rows|;
    var k := Search(h.rows, 0, n - 1, price, isBuy, true);
    BeforeStop(h, isBuy, price, k);
    if k < n - 1 || Last(h).Empty() || !Better(isBuy, Last(h).price, price) {
      SpilledIsBehind(h, isBuy, price);
      assert k < n - 1 ==> Stops(h.rows[k], price, isBuy, true);
      AheadAreFirst(h, live, isBuy, price, k);
    } else {
      AheadAreFirst(h, live, isBuy, price, n);
    }
  }

  lemma SpilledIsBehind(h: Half, isBuy: bool, price: int)
    requires Below(h, isBuy)
    ensures price in h.excess ==> !Last(h).Empty() && Better(isBuy, Last(h).price, price)
  {
  }

  /** The last slot is the price that n - 1 live prices are ahead of. */
  lemma LastIsRanked(h: Half, live: map<int, Order>, isBuy: bool, id: int)
    requires Rep(h, SheetOf(live, isBuy), isBuy) && id in live && live[id].isBuy == isBuy && |h.rows| >= 1
    ensures SoleOrderOfLast(h, live[id].price) <==>
      |Ahead(live, isBuy, live[id].price)| == |h.rows| - 1 && Alone(live, id)
  {
    var n, p, m := |h.rows|, live[id].price, SheetOf(live, isBuy);
    LivePriceIsListed(live, isBuy, id);
    AloneIffCounted(live, isBuy, id);
    if p in h.excess {
      AheadAreFirst(h, live, isBuy, p, n);
    } else {
      assert HasRow(h.rows, p);
      var k :| 0 <= k < n && h.rows[k].price == p;
      AheadAreFirst(h, live, isBuy, p, k);
    }
  }

  lemma AloneIffCounted(live: map<int, Order>, isBuy: bool, id: int)
    requires id in live && live[id].isBuy == isBuy
    ensures LevelAt(live, isBuy, live[id].price).count == 1 <==> Alone(live, id)
    ensures live[id].price in SheetOf(live, isBuy)
    ensures SheetOf(live, isBuy)[live[id].price] == LevelAt(live, isBuy, live[id].price)
  {
    var p := live[id].price;
    SheetOfIsRight(live, isBuy, p);
    LevelCounts(live, isBuy, p);
    LevelWithout(live, isBuy, p, id);
    var rest := live - {id};
    LevelCounts(rest, isBuy, p);
    assert forall j :: j in rest ==> j in live && j != id && rest[j] == live[j];
    assert forall j :: j in live && j != id ==> j in rest;
    hide LevelAt;
  }

  // ---- one operation ----

  lemma ShortOpenIff(h: Half, live: map<int, Order>, changed: int, id: int, o: Order)
    requires Rep(h, SheetOf(live, o.isBuy), o.isBuy) && |h.rows| >= 1 && Allowed(live, Open(id, o))
    ensures Rep(Add(h, changed, o.price, o.qty, o.isBuy, |h.rows| - 1).h, SheetOf(live[id := o], o.isBuy), o.isBuy)
       <==> Served(live, Open(id, o), |h.rows|)
  {
    hide Rep, SheetOf, Add, Added, ShortSearchServes, Ahead;
    SheetAdded(live, o.isBuy, id, o);
    ShortAddRepIff(h, SheetOf(live, o.isBuy), changed, o.price, o.qty, o.isBuy);
    ServesIffNotLast(h, live, o.isBuy, o.price);
  }

  lemma ShortReplacingIff(h: Half, live: map<int, Order>, changed: int, id: int, price: int, qty: int)
    requires AllPositive(live) && Allowed(live, Replacing(id, price, qty)) && |h.rows| >= 1
    requires Rep(h, SheetOf(live, live[id].isBuy), live[id].isBuy)
    ensures var o := live[id];
      Rep(Replace(h, changed, o.price, price, o.qty, qty, o.isBuy, |h.rows| - 1).h,
          SheetOf(live[id := o.(price := price, qty := qty)], o.isBuy), o.isBuy)
      <==> Served(live, Replacing(id, price, qty), |h.rows|)
  {
    hide Rep, SheetOf, Replace, Added, Closed, Changed, ShortSearchServes, SoleOrderOfLast, Ahead, Alone, Better;
    var o := live[id];
    SheetReplaced(live, o.isBuy, id, o.(price := price, qty := qty));
    ShortReplaceRepIff(h, SheetOf(live, o.isBuy), changed, o.price, price, o.qty, qty, o.isBuy);
    ServesIffNotLast(h, live, o.isBuy, price);
    LastIsRanked(h, live, o.isBuy, id);
  }

  /** The side of an operation refines its live orders again exactly if the short search serves. */
  lemma ShortSideIff(b: Book, live: map<int, Order>, op: Op, isBuy: bool)
    requires Rep(b.On(isBuy), SheetOf(live, isBuy), isBuy) && AllPositive(live) && Allowed(live, op)
    requires |b.bid.rows| == |b.ask.rows| >= 1
    requires !op.Publish? && (if op.Open? then op.o else live[op.id]).isBuy == isBuy
    ensures Rep(Do(b, CallOf(live, op), |b.bid.rows| - 1).On(isBuy), SheetOf(LiveAfter(live, op), isBuy), isBuy)
       <==> Served(live, op, |b.bid.rows|)
  {
    hide Rep, SheetOf, Add, Close, ChangeQty, Replace, Closed, Changed, Ahead, Alone;
    var h, s, changed := b.On(isBuy), SheetOf(live, isBuy), b.changed;
    match op
    case Open(id, o) => ShortOpenIff(h, live, changed, id, o);
    case Replacing(id, price, qty) => ShortReplacingIff(h, live, changed, id, price, qty);
    case Resize(id, delta) =>
      var o := live[id];
      SheetReplaced(live, isBuy, id, o.(qty := o.qty + delta));
      ShortChangeRep(h, s, changed, o.price, delta, isBuy);
    case Cancel(id) =>
      SheetClosed(live, isBuy, id);
      ShortCloseRep(h, s, changed, live[id].price, live[id].qty, isBuy);
  }

  lemma ShortChangeRep(h: Half, m: Sheet, changed: int, price: int, delta: int, isBuy: bool)
    requires Rep(h, m, isBuy) && price in m && |h.rows| >= 1
    ensures Rep(ChangeQty(h, changed, price, delta, isBuy, |h.rows| - 1).h, Changed(m, price, delta), isBuy)
  {
    hide Rep, Find, Changed;
    ShortSearchFindsLive(h, m, changed, price, isBuy);
    ChangeRep(h, m, changed, price, delta, isBuy);
  }

  lemma ShortCloseRep(h: Half, m: Sheet, changed: int, price: int, qty: int, isBuy: bool)
    requires Rep(h, m, isBuy) && price in m && m[price].count > 0 && |h.rows| >= 1
    ensures Rep(Close(h, changed, price, qty, isBuy, |h.rows| - 1).h, Closed(m, price, qty), isBuy)
  {
    hide Rep, Find, Closed, Erase, Put;
    ShortSearchFindsLive(h, m, changed, price, isBuy);
    CloseRep(h, m, changed, price, qty, isBuy);
  }

  lemma ShortStepRefinesIff(b: Book, live: map<int, Order>, op: Op, n: nat)
    requires Refines(b, live, n) && Allowed(live, op)
    ensures Refines(Do(b, CallOf(live, op), n - 1), LiveAfter(live, op), n) <==> Served(live, op, n)
  {
    hide Rep, SheetOf, Add, Close, ChangeQty, Replace, Served;
    if op.Publish? {
      assert Served(live, op, n) by { PublishIsServed(live, op, n); }
    } else {
      var isBuy := (if op.Open? then op.o else live[op.id]).isBuy;
      ShortSideIff(b, live, op, isBuy);
      OtherSideStays(live, op, !isBuy);
    }
  }

  lemma PublishIsServed(live: map<int, Order>, op: Op, n: nat)
    requires op.Publish?
    ensures Served(live, op, n)
  {
  }

  // ---- what is shown tells what is refined ----

  ghost predicate AllPriced(live: map<int, Order>) {
    AllPositive(live) && forall id :: id in live ==> live[id].price != INVALID_LEVEL_PRICE
  }

  /** A side that shows the ladder of its live orders refines them. */
  lemma LadderIsRefined(h: Half, live: map<int, Order>, isBuy: bool)
    requires |h.rows| >= 1 && AllPriced(live) && ShowsLadder(h, live, isBuy)
    ensures Rep(h, SheetOf(live, isBuy), isBuy)
  {
    hide ShowsLadder, Shape, Sorted, Below, Agrees, Covered, SheetOf;
    LadderIsOrdered(h, live, isBuy);
    LadderAgrees(h, live, isBuy);
    ExcessAgrees(h, live, isBuy);
  }

  lemma LadderIsOrdered(h: Half, live: map<int, Order>, isBuy: bool)
    requires |h.rows| >= 1 && AllPriced(live) && ShowsLadder(h, live, isBuy)
    ensures Shape(h) && Sorted(h.rows, isBuy) && Below(h, isBuy)
  {
    LadderIsSheet(live, isBuy);
    hide Shape, Sorted, Below, Levels, SheetOf;
    SlotsOfLadder(h, Levels(live, isBuy), isBuy);
  }

  lemma LadderAgrees(h: Half, live: map<int, Order>, isBuy: bool)
    requires |h.rows| >= 1 && AllPriced(live) && ShowsLadder(h, live, isBuy)
    ensures Agrees(h.rows, SheetOf(live, isBuy)) && Covered(h, SheetOf(live, isBuy))
    ensures forall p :: p in h.excess ==> p in SheetOf(live, isBuy)
  {
    LadderIsSheet(live, isBuy);
    hide Agrees, Covered, Levels, SheetOf;
    SlotsAgree(h, Levels(live, isBuy), SheetOf(live, isBuy));
  }

  lemma ExcessAgrees(h: Half, live: map<int, Order>, isBuy: bool)
    requires ShowsLadder(h, live, isBuy) && forall p :: p in h.excess ==> p in SheetOf(live, isBuy)
    ensures forall p :: p in h.excess ==> SheetOf(live, isBuy)[p] == h.excess[p].Shown()
  {
    hide Levels, SheetOf;
    forall p | p in h.excess
      ensures SheetOf(live, isBuy)[p] == h.excess[p].Shown()
    {
      SheetOfIsRight(live, isBuy, p);
    }
  }

  /** The ladder lists the map of its side, and nothing else. */
  lemma LadderIsSheet(live: map<int, Order>, isBuy: bool)
    requires AllPriced(live)
    ensures var ls, m := Levels(live, isBuy), SheetOf(live, isBuy);
      && (forall i, j :: 0 <= i < j < |ls| ==> Better(isBuy, ls[i].price, ls[j].price))
      && (forall i :: 0 <= i < |ls| ==>
            ls[i].price != INVALID_LEVEL_PRICE && ls[i].price in m && m[ls[i].price] == ls[i])
      && (forall p :: p in m ==> Listed(ls, p))
  {
    var ls, m := Levels(live, isBuy), SheetOf(live, isBuy);
    LadderIsComplete(live, isBuy);
    hide Levels;
    forall i | 0 <= i < |ls|
      ensures ls[i].price != INVALID_LEVEL_PRICE && ls[i].price in m && m[ls[i].price] == ls[i]
    {
      var id := SomeOrder(live, isBuy, ls[i].price);
      SheetOfIsRight(live, isBuy, ls[i].price);
    }
    forall p | p in m
      ensures Listed(ls, p)
    {
      SheetPriceIsListed(live, isBuy, p);
    }
  }

  ghost predicate Listed(ls: seq<Level>, p: int) {
    exists i :: 0 <= i < |ls| && ls[i].price == p
  }

  /** What the slots show and the excess levels have is what the ladder lists. */
  lemma SlotsAgree(h: Half, ls: seq<Level>, m: Sheet)
    requires forall i :: 0 <= i < |ls| ==>
      ls[i].price != INVALID_LEVEL_PRICE && ls[i].price in m && m[ls[i].price] == ls[i]
    requires forall p :: p in m ==> Listed(ls, p)
    requires forall i :: 0 <= i < |h.rows| ==>
      h.rows[i].Shown() == if i < |ls| then ls[i] else Level(INVALID_LEVEL_PRICE, 0, 0)
    requires forall p :: p in h.excess <==> exists i :: |h.rows| <= i < |ls| && ls[i].price == p
    ensures Agrees(h.rows, m) && Covered(h, m) && forall p :: p in h.excess ==> p in m
  {
    forall p | p in m
      ensures p != INVALID_LEVEL_PRICE && (p in h.excess || HasRow(h.rows, p))
    {
      assert Listed(ls, p);
      var i :| 0 <= i < |ls| && ls[i].price == p;
      if i < |h.rows| { assert h.rows[i].price == p; }
    }
  }

  lemma SheetPriceIsListed(live: map<int, Order>, isBuy: bool, p: int)
    requires p in SheetOf(live, isBuy)
    ensures Listed(Levels(live, isBuy), p)
  {
    SheetOfIsRight(live, isBuy, p);
    var id := SomeOrder(live, isBuy, p);
    LadderIsComplete(live, isBuy);
  }

  lemma SlotsOfLadder(h: Half, ls: seq<Level>, isBuy: bool)
    requires |h.rows| >= 1
    requires forall i, j :: 0 <= i < j < |ls| ==> Better(isBuy, ls[i].price, ls[j].price)
    requires forall i :: 0 <= i < |ls| ==> ls[i].price != INVALID_LEVEL_PRICE
    requires forall i :: 0 <= i < |h.rows| ==>
      !h.rows[i].isExcess && h.rows[i].Shown() == if i < |ls| then ls[i] else Level(INVALID_LEVEL_PRICE, 0, 0)
    requires forall p :: p in h.excess ==> h.excess[p].isExcess && h.excess[p].price == p
    requires forall p :: p in h.excess ==> exists i :: |h.rows| <= i < |ls| && ls[i].price == p
    ensures Shape(h) && Sorted(h.rows, isBuy) && Below(h, isBuy)
  {
    assert forall i :: 0 <= i < |h.rows| ==> (h.rows[i].Empty() <==> i >= |ls|);
    forall p | p in h.excess
      ensures !Last(h).Empty() && Better(isBuy, Last(h).price, p) && p != INVALID_LEVEL_PRICE
    {
      var i :| |h.rows| <= i < |ls| && ls[i].price == p;
    }
  }

  /** Both sides show the ladder of the live orders. */
  ghost predicate Shows(b: Book, live: map<int, Order>) {
    ShowsLadder(b.bid, live, true) && ShowsLadder(b.ask, live, false)
  }

  lemma ShowsIffRefines(b: Book, live: map<int, Order>, n: nat)
    requires b.Sized(n) && AllPriced(live)
    ensures Shows(b, live) <==> Refines(b, live, n)
  {
    hide Rep, ShowsLadder, SheetOf;
    if Shows(b, live) {
      LadderIsRefined(b.bid, live, true);
      LadderIsRefined(b.ask, live, false);
    }
    if Refines(b, live, n) {
      RefinedShowsLadder(b.bid, live, true);
      RefinedShowsLadder(b.ask, live, false);
    }
  }

  // ---- runs ----

  predicate ServedRun(live: map<int, Order>, ops: seq<Op>, n: nat)
    requires AllowedRun(live, ops)
    decreases ops
  {
    ops != [] ==> Served(live, ops[0], n) && ServedRun(LiveAfter(live, ops[0]), ops[1..], n)
  }

  /** Before and after every operation of the run both sides show the ladder. */
  ghost predicate ShowsThroughout(b: Book, live: map<int, Order>, ops: seq<Op>, n: nat)
    requires b.Sized(n) && AllowedRun(live, ops)
    decreases ops
  {
    && Shows(b, live)
    && (ops != [] ==> ShowsThroughout(Do(b, CallOf(live, ops[0]), n - 1), LiveAfter(live, ops[0]), ops[1..], n))
  }

  lemma {:induction false} ShortRunIff(b: Book, live: map<int, Order>, ops: seq<Op>, n: nat)
    requires b.Sized(n) && AllowedRun(live, ops) && AllPriced(live) && Shows(b, live)
    ensures ShowsThroughout(b, live, ops, n) <==> ServedRun(live, ops, n)
    decreases ops
  {
    hide Shows, Served, Refines, Do;
    if ops != [] {
      var b', live' := Do(b, CallOf(live, ops[0]), n - 1), LiveAfter(live, ops[0]);
      DoKeepsSize(b, CallOf(live, ops[0]), n);
      ShowsIffRefines(b, live, n);
      ShortStepRefinesIff(b, live, ops[0], n);
      ShowsIffRefines(b', live', n);
      if Shows(b', live') {
        ShortRunIff(b', live', ops[1..], n);
      }
    }
  }

  lemma DoKeepsSize(b: Book, c: Call, n: nat)
    requires b.Sized(n)
    ensures Do(b, c, n - 1).Sized(n)
  {
  }

  lemma EmptyRefines(n: nat)
    requires n >= 1
    ensures EmptyBook(n).Sized(n) && AllPriced(map[]) && Refines(EmptyBook(n), map[], n)
  {
    assert SheetOf(map[], true) == map[] && SheetOf(map[], false) == map[];
  }

  /** As the source searches, a run from an empty book shows the ladder throughout exactly if all of it is served. */
  lemma EveryShortRunShowsLadderIff(ops: seq<Op>, n: nat)
    requires n >= 1 && AllowedRun(map[], ops)
    ensures ShowsThroughout(EmptyBook(n), map[], ops, n) <==> ServedRun(map[], ops, n)
  {
    EmptyRefines(n);
    hide Shows, Refines, AllowedRun, ServedRun, ShowsThroughout, EmptyBook;
    ShowsIffRefines(EmptyBook(n), map[], n);
    ShortRunIff(EmptyBook(n), map[], ops, n);
  }

  // ---- ten bids ----

  /** The first k of the bids 100, 99, 98, ... */
  function Bids(k: nat): seq<Call> {
    seq(k, i => AddCall(true, 100 - i, 5))
  }

  function BidRows(k: nat): seq<Row>
    requires k <= DEPTH
  {
    seq(DEPTH, i requires 0 <= i < DEPTH => if i < k then Row(100 - i, 5, 1, false, i + 1) else NEW_ROW)
  }

  lemma {:induction false} RunAppend(b: Book, cs: seq<Call>, c: Call, scan: nat)
    requires scan <= |b.bid.rows| && scan <= |b.ask.rows|
    ensures var b' := Run(b, cs, scan);
      && |b'.bid.rows| == |b.bid.rows| && |b'.ask.rows| == |b.ask.rows|
      && Run(b, cs + [c], scan) == Do(b', c, scan)
    decreases cs
  {
    DoKeepsRows(b, c, scan);
    hide Do;
    if cs == [] {
      assert cs + [c] == [c] && [c][1..] == [];
      assert Run(b, [c], scan) == Run(Do(b, c, scan), [], scan);
    } else {
      assert (cs + [c])[1..] == cs[1..] + [c] && (cs + [c])[0] == cs[0];
      DoKeepsRows(b, cs[0], scan);
      RunAppend(Do(b, cs[0], scan), cs[1..], c, scan);
    }
  }

  lemma DoKeepsRows(b: Book, c: Call, scan: nat)
    requires scan <= |b.bid.rows| && scan <= |b.ask.rows|
    ensures |Do(b, c, scan).bid.rows| == |b.bid.rows| && |Do(b, c, scan).ask.rows| == |b.ask.rows|
  {
  }

  /** Each of the first nine bids fills the next slot. */
  lemma NextBidFills(k: nat)
    requires k < 9
    ensures Add(Half(BidRows(k), map[]), k, 100 - k, 5, true, DEPTH - 1) == Done(Half(BidRows(k + 1), map[]), k + 1)
  {
    var rows := BidRows(k);
    SearchFrom(k, 0);
    hide Search;
    var r := NEW_ROW.Init(100 - k, false);
    assert rows[k := r][k := r.AddOrder(5).Stamp(k + 1)] == BidRows(k + 1);
  }

  lemma {:induction false} SearchFrom(k: nat, i: nat)
    requires i <= k < 9
    ensures Search(BidRows(k), i, DEPTH - 1, 100 - k, true, true) == k
    decreases k - i
  {
    if i < k { SearchFrom(k, i + 1); }
  }

  /** The book after the first k bids. */
  function BidBook(k: nat): Book
    requires k <= DEPTH
  {
    Book(Half(BidRows(k), map[]), EmptyHalf(DEPTH), k, 0)
  }

  lemma NoBids()
    ensures Run(EmptyBook(DEPTH), Bids(0), DEPTH - 1) == BidBook(0)
  {
    assert BidRows(0) == EmptyHalf(DEPTH).rows;
  }

  lemma NextBidBook(k: nat)
    requires k < 9
    ensures BidBook(k).With(true, Add(BidBook(k).bid, k, 100 - k, 5, true, DEPTH - 1)) == BidBook(k + 1)
  {
    NextBidFills(k);
    hide Add, BidRows;
  }

  lemma {:induction false} BidsFill(k: nat)
    requires k <= 9
    ensures Run(EmptyBook(DEPTH), Bids(k), DEPTH - 1) == BidBook(k)
  {
    hide Add, Run, Bids, BidBook;
    if k == 0 {
      NoBids();
    } else {
      BidsFill(k - 1);
      NextBidBook(k - 1);
      BidOn(k - 1);
    }
  }

  /** One bid more is one call more. */
  lemma BidOn(k: nat)
    requires k <= 9 && Run(EmptyBook(DEPTH), Bids(k), DEPTH - 1) == BidBook(k)
    ensures Run(EmptyBook(DEPTH), Bids(k + 1), DEPTH - 1)
         == BidBook(k).With(true, Add(BidBook(k).bid, k, 100 - k, 5, true, DEPTH - 1))
  {
    var c := AddCall(true, 100 - k, 5);
    assert Bids(k + 1) == Bids(k) + [c];
    assert Do(BidBook(k), c, DEPTH - 1)
        == BidBook(k).With(true, Add(BidBook(k).bid, k, 100 - k, 5, true, DEPTH - 1)) by {
      hide Add, BidRows;
    }
    hide Add, Run, BidRows, Bids, Do, BidBook;
    RunAppend(EmptyBook(DEPTH), Bids(k), c, DEPTH - 1);
  }

  /** Ten bids into an empty book, as the source searches: the tenth is hidden, and the last slot stays empty. */
  lemma TenBidsHideTenth()
    ensures var h := Run(EmptyBook(DEPTH), Bids(10), DEPTH - 1).bid;
      && |h.rows| == DEPTH && h.rows[9].Empty()
      && h.excess == map[91 := Row(91, 5, 1, true, 0)]
  {
    hide Add, Run, Bids;
    BidsFill(9);
    BidOn(9);
    TenthLevelIsHidden(BidBook(9).bid, 91);
    hide BidBook;
  }
}
