/** Whole runs of Depth over live orders: what is visible, and what is known to have changed. */
module DepthRuns {
  import opened Ladder
  import opened DepthSide
  import opened DepthRefinement
  import opened DepthOperations

  datatype Book = Book(bid: Half, ask: Half, changed: int, published: int) {
    function On(isBuy: bool): Half {
      if isBuy then bid else ask
    }

    function With(isBuy: bool, d: Done): Book {
      if isBuy then this.(bid := d.h, changed := d.changed) else this.(ask := d.h, changed := d.changed)
    }

    ghost predicate Sized(n: nat) {
      n >= 1 && |bid.rows| == n && |ask.rows| == n
    }
  }

  function EmptyHalf(n: nat): Half {
    Half(seq(n, _ => NEW_ROW), map[])
  }

  function EmptyBook(n: nat): Book {
    Book(EmptyHalf(n), EmptyHalf(n), 0, 0)
  }

  // ---- the calls ----

  datatype Call =
    | AddCall(isBuy: bool, price: int, qty: int)
    | ReplaceCall(isBuy: bool, oldPrice: int, newPrice: int, oldQty: int, newQty: int)
    | ChangeCall(isBuy: bool, price: int, delta: int)
    | CloseCall(isBuy: bool, price: int, qty: int)
    | PublishCall

  function Do(b: Book, c: Call, scan: nat): Book
    requires scan <= |b.bid.rows| && scan <= |b.ask.rows|
  {
    match c
    case AddCall(isBuy, p, q) => b.With(isBuy, Add(b.On(isBuy), b.changed, p, q, isBuy, scan))
    case ReplaceCall(isBuy, op, np, oq, nq) =>
      b.With(isBuy, Replace(b.On(isBuy), b.changed, op, np, oq, nq, isBuy, scan))
    case ChangeCall(isBuy, p, delta) => b.With(isBuy, ChangeQty(b.On(isBuy), b.changed, p, delta, isBuy, scan))
    case CloseCall(isBuy, p, q) => b.With(isBuy, Close(b.On(isBuy), b.changed, p, q, isBuy, scan))
    case PublishCall => b.(published := b.changed)
  }

  // ---- the map of a side's live orders ----

  ghost function SheetOf(live: map<int, Order>, isBuy: bool): Sheet {
    map p | p in PricesOf(live, isBuy) :: LevelAt(live, isBuy, p)
  }

  ghost function PricesOf(live: map<int, Order>, isBuy: bool): set<int> {
    set id | id in live && live[id].isBuy == isBuy :: live[id].price
  }

  ghost predicate SheetIsRight(m: Sheet, live: map<int, Order>, isBuy: bool, p: int) {
    var l := LevelAt(live, isBuy, p);
    if l.count > 0 then p in m && m[p] == l else p !in m
  }

  lemma SheetOfIsRight(live: map<int, Order>, isBuy: bool, p: int)
    ensures SheetIsRight(SheetOf(live, isBuy), live, isBuy, p)
  {
    LevelCounts(live, isBuy, p);
    if LevelAt(live, isBuy, p).count > 0 {
      var id := SomeOrder(live, isBuy, p);
      assert p in PricesOf(live, isBuy);
    }
  }

  lemma SheetIsUnique(m: Sheet, live: map<int, Order>, isBuy: bool)
    requires forall p :: SheetIsRight(m, live, isBuy, p)
    ensures m == SheetOf(live, isBuy)
  {
    var s := SheetOf(live, isBuy);
    forall p: int
      ensures p in m <==> p in s
      ensures p in m ==> m[p] == s[p]
    {
      assert SheetIsRight(m, live, isBuy, p);
      SheetOfIsRight(live, isBuy, p);
    }
  }

  lemma SheetAdded(live: map<int, Order>, isBuy: bool, id: int, o: Order)
    requires id !in live
    ensures SheetOf(live[id := o], isBuy)
         == if o.isBuy == isBuy then Added(SheetOf(live, isBuy), o.price, o.qty) else SheetOf(live, isBuy)
  {
    var s := SheetOf(live, isBuy);
    var m := if o.isBuy == isBuy then Added(s, o.price, o.qty) else s;
    var live' := live[id := o];
    forall p
      ensures SheetIsRight(m, live', isBuy, p)
    {
      SheetOfIsRight(live, isBuy, p);
      LevelWith(live, isBuy, p, id, o);
      LevelCounts(live, isBuy, p);
    }
    SheetIsUnique(m, live', isBuy);
  }

  lemma SheetClosed(live: map<int, Order>, isBuy: bool, id: int)
    requires id in live && AllPositive(live)
    ensures live[id].isBuy == isBuy ==>
              live[id].price in SheetOf(live, isBuy) && SheetOf(live, isBuy)[live[id].price].count > 0
    ensures SheetOf(live - {id}, isBuy)
         == if live[id].isBuy == isBuy then Closed(SheetOf(live, isBuy), live[id].price, live[id].qty)
            else SheetOf(live, isBuy)
  {
    var s, o, live' := SheetOf(live, isBuy), live[id], live - {id};
    LivePriceIsListed(live, isBuy, id);
    var m := if o.isBuy == isBuy then Closed(s, o.price, o.qty) else s;
    forall p
      ensures SheetIsRight(m, live', isBuy, p)
    {
      SheetOfIsRight(live, isBuy, p);
      LevelWithout(live, isBuy, p, id);
      LevelCounts(live', isBuy, p);
    }
    SheetIsUnique(m, live', isBuy);
  }

  lemma LivePriceIsListed(live: map<int, Order>, isBuy: bool, id: int)
    requires id in live
    ensures live[id].isBuy == isBuy ==>
              live[id].price in SheetOf(live, isBuy) && SheetOf(live, isBuy)[live[id].price].count > 0
  {
    SheetOfIsRight(live, isBuy, live[id].price);
    LevelCounts(live, isBuy, live[id].price);
  }

  /** A live order replaced by another of its side: a quantity change, or an addition and a closing. */
  lemma SheetReplaced(live: map<int, Order>, isBuy: bool, id: int, n: Order)
    requires id in live && AllPositive(live) && n.qty > 0 && n.isBuy == live[id].isBuy
    ensures n.isBuy == isBuy ==>
              live[id].price in SheetOf(live, isBuy) && SheetOf(live, isBuy)[live[id].price].count > 0
    ensures SheetOf(live[id := n], isBuy)
         == if n.isBuy != isBuy then SheetOf(live, isBuy)
            else if n.price == live[id].price then Changed(SheetOf(live, isBuy), n.price, n.qty - live[id].qty)
            else Closed(Added(SheetOf(live, isBuy), n.price, n.qty), live[id].price, live[id].qty)
  {
    hide SheetOf;
    var s, o, live' := SheetOf(live, isBuy), live[id], live[id := n];
    LivePriceIsListed(live, isBuy, id);
    var m :=
      if n.isBuy != isBuy then s
      else if n.price == o.price then Changed(s, n.price, n.qty - o.qty)
      else Closed(Added(s, n.price, n.qty), o.price, o.qty);
    forall p
      ensures SheetIsRight(m, live', isBuy, p)
    {
      SheetOfIsRight(live, isBuy, p);
      LevelWithout(live, isBuy, p, id);
      LevelReplaced(live, isBuy, p, id, n);
      LevelCounts(live - {id}, isBuy, p);
      hide LevelAt;
    }
    SheetIsUnique(m, live', isBuy);
  }

  // ---- runs over live orders ----

  datatype Op =
    | Open(id: int, o: Order)
    | Replacing(id: int, price: int, qty: int)
    | Resize(id: int, delta: int)
    | Cancel(id: int)
    | Publish

  /** A new order has a new id; the other operations name a live order; prices are valid, quantities positive. */
  predicate Allowed(live: map<int, Order>, op: Op) {
    match op
    case Open(id, o) => id !in live && o.price != INVALID_LEVEL_PRICE && o.qty > 0
    case Replacing(id, price, qty) => id in live && price != INVALID_LEVEL_PRICE && qty > 0
    case Resize(id, delta) => id in live && live[id].qty + delta > 0
    case Cancel(id) => id in live
    case Publish => true
  }

  function LiveAfter(live: map<int, Order>, op: Op): map<int, Order>
    requires Allowed(live, op)
  {
    match op
    case Open(id, o) => live[id := o]
    case Replacing(id, price, qty) => live[id := live[id].(price := price, qty := qty)]
    case Resize(id, delta) => live[id := live[id].(qty := live[id].qty + delta)]
    case Cancel(id) => live - {id}
    case Publish => live
  }

  function CallOf(live: map<int, Order>, op: Op): Call
    requires Allowed(live, op)
  {
    match op
    case Open(id, o) => AddCall(o.isBuy, o.price, o.qty)
    case Replacing(id, price, qty) => ReplaceCall(live[id].isBuy, live[id].price, price, live[id].qty, qty)
    case Resize(id, delta) => ChangeCall(live[id].isBuy, live[id].price, delta)
    case Cancel(id) => CloseCall(live[id].isBuy, live[id].price, live[id].qty)
    case Publish => PublishCall
  }

  ghost predicate Refines(b: Book, live: map<int, Order>, n: nat) {
    && b.Sized(n) && AllPositive(live)
    && Rep(b.bid, SheetOf(live, true), true)
    && Rep(b.ask, SheetOf(live, false), false)
  }

  lemma SideRefines(h: Half, live: map<int, Order>, changed: int, op: Op, isBuy: bool)
    requires Rep(h, SheetOf(live, isBuy), isBuy) && AllPositive(live) && Allowed(live, op)
    requires !op.Publish? && (if op.Open? then op.o else live[op.id]).isBuy == isBuy
    ensures var d := Do(Book(h, h, changed, 0), CallOf(live, op), |h.rows|).On(isBuy);
      Rep(d, SheetOf(LiveAfter(live, op), isBuy), isBuy) && |d.rows| == |h.rows|
  {
    hide Rep, SheetOf, Add, Close, ChangeQty, Replace, Added, Closed, Changed;
    var s := SheetOf(live, isBuy);
    match op
    case Open(id, o) =>
      SheetAdded(live, isBuy, id, o);
      AddRep(h, s, changed, o.price, o.qty, isBuy);
    case Replacing(id, price, qty) =>
      var o := live[id];
      SheetReplaced(live, isBuy, id, o.(price := price, qty := qty));
      ReplaceRep(h, s, changed, o.price, price, o.qty, qty, isBuy);
    case Resize(id, delta) =>
      var o := live[id];
      SheetReplaced(live, isBuy, id, o.(qty := o.qty + delta));
      ChangeRep(h, s, changed, o.price, delta, isBuy);
    case Cancel(id) =>
      SheetClosed(live, isBuy, id);
      CloseRep(h, s, changed, live[id].price, live[id].qty, isBuy);
  }

  lemma OtherSideStays(live: map<int, Order>, op: Op, isBuy: bool)
    requires AllPositive(live) && Allowed(live, op)
    requires op.Publish? || (if op.Open? then op.o else live[op.id]).isBuy != isBuy
    ensures SheetOf(LiveAfter(live, op), isBuy) == SheetOf(live, isBuy)
  {
    match op
    case Open(id, o) => SheetAdded(live, isBuy, id, o);
    case Replacing(id, price, qty) => SheetReplaced(live, isBuy, id, live[id].(price := price, qty := qty));
    case Resize(id, delta) => SheetReplaced(live, isBuy, id, live[id].(qty := live[id].qty + delta));
    case Cancel(id) => SheetClosed(live, isBuy, id);
    case Publish =>
  }

  lemma StepRefines(b: Book, live: map<int, Order>, op: Op, n: nat)
    requires Refines(b, live, n) && Allowed(live, op)
    ensures Refines(Do(b, CallOf(live, op), n), LiveAfter(live, op), n)
  {
    hide Rep, SheetOf, Add, Close, ChangeQty, Replace;
    if op.Publish? {
    } else {
      var isBuy := (if op.Open? then op.o else live[op.id]).isBuy;
      SideRefines(b.On(isBuy), live, b.changed, op, isBuy);
      OtherSideStays(live, op, !isBuy);
    }
  }

  function RunLive(live: map<int, Order>, ops: seq<Op>): map<int, Order>
    requires AllowedRun(live, ops)
    decreases ops
  {
    if ops == [] then live else RunLive(LiveAfter(live, ops[0]), ops[1..])
  }

  predicate AllowedRun(live: map<int, Order>, ops: seq<Op>)
    decreases ops
  {
    ops != [] ==> Allowed(live, ops[0]) && AllowedRun(LiveAfter(live, ops[0]), ops[1..])
  }

  /** The calls that the operations on live orders come to. */
  function Calls(live: map<int, Order>, ops: seq<Op>): seq<Call>
    requires AllowedRun(live, ops)
    decreases ops
  {
    if ops == [] then [] else [CallOf(live, ops[0])] + Calls(LiveAfter(live, ops[0]), ops[1..])
  }

  function Run(b: Book, cs: seq<Call>, scan: nat): Book
    requires scan <= |b.bid.rows| && scan <= |b.ask.rows|
    decreases cs
  {
    if cs == [] then b else Run(Do(b, cs[0], scan), cs[1..], scan)
  }

  lemma {:induction false} RunRefines(b: Book, live: map<int, Order>, ops: seq<Op>, n: nat)
    requires Refines(b, live, n) && AllowedRun(live, ops)
    ensures Refines(Run(b, Calls(live, ops), n), RunLive(live, ops), n)
    decreases ops
  {
    if ops != [] {
      StepRefines(b, live, ops[0], n);
      var b', live' := Do(b, CallOf(live, ops[0]), n), LiveAfter(live, ops[0]);
      RunRefines(b', live', ops[1..], n);
      assert Calls(live, ops)[0] == CallOf(live, ops[0]) && Calls(live, ops)[1..] == Calls(live', ops[1..]);
    }
  }

  // ---- what a refined side shows ----

  /** The slots show the best levels in order, then nothing; the excess levels are the remaining ones. */
  ghost predicate ShowsLadder(h: Half, live: map<int, Order>, isBuy: bool) {
    var ls := Levels(live, isBuy);
    && (forall i :: 0 <= i < |h.rows| ==>
          !h.rows[i].isExcess && h.rows[i].Shown() == if i < |ls| then ls[i] else Level(INVALID_LEVEL_PRICE, 0, 0))
    && (forall p :: p in h.excess ==> h.excess[p].isExcess && h.excess[p].Shown() == LevelAt(live, isBuy, p))
    && (forall p :: p in h.excess <==> exists i :: |h.rows| <= i < |ls| && ls[i].price == p)
  }

  /** The filled slots, counted from the best. */
  function Filled(rows: seq<Row>): (k: nat)
    ensures k <= |rows| && (forall i :: 0 <= i < k ==> !rows[i].Empty()) && (k < |rows| ==> rows[k].Empty())
  {
    if rows == [] || rows[0].Empty() then 0
    else
      assert forall i :: 0 < i < 1 + Filled(rows[1..]) ==> rows[i] == rows[1..][i - 1];
      1 + Filled(rows[1..])
  }

  ghost function RowPrios(h: Half, isBuy: bool): seq<int> {
    seq(Filled(h.rows), i requires 0 <= i < Filled(h.rows) => Prio(isBuy, h.rows[i].price))
  }

  ghost function ExcessPrios(h: Half, isBuy: bool): seq<int> {
    Ascending(set p | p in h.excess :: Prio(isBuy, p))
  }

  ghost predicate StrictlyAscending(q: seq<int>) {
    forall i, j :: 0 <= i < j < |q| ==> q[i] < q[j]
  }

  lemma {:induction false} AscendingIsUnique(s: set<int>, q: seq<int>)
    requires StrictlyAscending(q) && forall x :: x in q <==> x in s
    ensures q == Ascending(s)
    decreases s
  {
    if q == [] {
      assert s == {} by {
        if s != {} { var x := Member(s); }
      }
    } else {
      assert q[0] in q;
      assert q[0] in s;
      assert forall x :: x in q ==> q[0] <= x;
      assert Least(s) == q[0];
      assert q == [q[0]] + q[1..];
      forall x
        ensures x in q[1..] <==> x in s - {q[0]}
      {
        if x in q[1..] {
          var i :| 0 <= i < |q[1..]| && q[1..][i] == x;
          assert q[i + 1] == x;
        }
      }
      AscendingIsUnique(s - {q[0]}, q[1..]);
    }
  }

  lemma ExcessPriosAre(h: Half, isBuy: bool)
    ensures StrictlyAscending(ExcessPrios(h, isBuy))
    ensures forall x :: x in ExcessPrios(h, isBuy) <==> Prio(isBuy, x) in h.excess
  {
    var s := set p | p in h.excess :: Prio(isBuy, p);
    AscendingIsSorted(s);
    forall x
      ensures x in s <==> Prio(isBuy, x) in h.excess
    {
      assert Prio(isBuy, Prio(isBuy, x)) == x;
    }
  }

  lemma RowPriosAre(h: Half, m: Sheet, isBuy: bool)
    requires Rep(h, m, isBuy)
    ensures StrictlyAscending(RowPrios(h, isBuy))
    ensures forall x :: x in RowPrios(h, isBuy) <==>
      Prio(isBuy, x) != INVALID_LEVEL_PRICE && HasRow(h.rows, Prio(isBuy, x))
  {
    hide Covered, Agrees;
    var a := RowPrios(h, isBuy);
    forall x
      ensures x in a <==> Prio(isBuy, x) != INVALID_LEVEL_PRICE && HasRow(h.rows, Prio(isBuy, x))
    {
      var price := Prio(isBuy, x);
      if x in a {
        var i :| 0 <= i < |a| && a[i] == x;
        assert h.rows[i].price == price;
      }
      if price != INVALID_LEVEL_PRICE && HasRow(h.rows, price) {
        var i :| 0 <= i < |h.rows| && h.rows[i].price == price;
        assert a[i] == x;
      }
    }
  }

  lemma RowsBeforeExcess(h: Half, m: Sheet, isBuy: bool)
    requires Rep(h, m, isBuy)
    ensures forall i, x :: 0 <= i < |RowPrios(h, isBuy)| && x in ExcessPrios(h, isBuy) ==> RowPrios(h, isBuy)[i] < x
    ensures ExcessPrios(h, isBuy) != [] ==> Filled(h.rows) == |h.rows|
  {
    hide Covered, Agrees, HasRow;
    ExcessPriosAre(h, isBuy);
    var a, e := RowPrios(h, isBuy), ExcessPrios(h, isBuy);
    forall i, x | 0 <= i < |a| && x in e
      ensures a[i] < x
    {
      assert Better(isBuy, Last(h).price, Prio(isBuy, x));
      assert i == |h.rows| - 1 || Better(isBuy, h.rows[i].price, Last(h).price);
    }
    if e != [] {
      assert e[0] in e;
      assert !Last(h).Empty();
    }
  }

  lemma ConcatAscends(a: seq<int>, e: seq<int>)
    requires StrictlyAscending(a) && StrictlyAscending(e)
    requires forall i, x :: 0 <= i < |a| && x in e ==> a[i] < x
    ensures StrictlyAscending(a + e)
  {
    forall i, j | 0 <= i < j < |a + e|
      ensures (a + e)[i] < (a + e)[j]
    {
      if i < |a| <= j {
        assert e[j - |a|] in e;
      }
    }
  }

  /** Row by row and then through the excess levels, a refined side lists the priorities of its live orders. */
  lemma PrioritiesOfSide(h: Half, live: map<int, Order>, isBuy: bool)
    requires Rep(h, SheetOf(live, isBuy), isBuy)
    ensures RowPrios(h, isBuy) + ExcessPrios(h, isBuy) == Ascending(Prios(live, isBuy))
  {
    var m := SheetOf(live, isBuy);
    var a, e := RowPrios(h, isBuy), ExcessPrios(h, isBuy);
    RowPriosAre(h, m, isBuy);
    ExcessPriosAre(h, isBuy);
    RowsBeforeExcess(h, m, isBuy);
    ConcatAscends(a, e);
    PriosAreCounted(live, isBuy);
    hide RowPrios, ExcessPrios, HasRow, Sorted, Below, Agrees;
    forall x
      ensures x in a + e <==> x in Prios(live, isBuy)
    {
      SheetOfIsRight(live, isBuy, Prio(isBuy, x));
      assert x in a + e <==> Prio(isBuy, x) in m;
    }
    AscendingIsUnique(Prios(live, isBuy), a + e);
  }

  lemma LadderByPriority(h: Half, live: map<int, Order>, isBuy: bool)
    requires Rep(h, SheetOf(live, isBuy), isBuy)
    ensures var prios, ls := RowPrios(h, isBuy) + ExcessPrios(h, isBuy), Levels(live, isBuy);
      |ls| == |prios| && forall i :: 0 <= i < |ls| ==> ls[i] == LevelAt(live, isBuy, Prio(isBuy, prios[i]))
  {
    hide Rep, RowPrios, ExcessPrios, SheetOf, Ascending, Prios;
    PrioritiesOfSide(h, live, isBuy);
  }

  lemma RowShows(h: Half, live: map<int, Order>, isBuy: bool, i: nat)
    requires Rep(h, SheetOf(live, isBuy), isBuy) && i < |h.rows|
    ensures var ls := Levels(live, isBuy);
      !h.rows[i].isExcess && h.rows[i].Shown() == if i < |ls| then ls[i] else Level(INVALID_LEVEL_PRICE, 0, 0)
  {
    var m := SheetOf(live, isBuy);
    SheetOfIsRight(live, isBuy, h.rows[i].price);
    hide SheetOf, RowPrios, ExcessPrios, Levels, Covered, Sorted, Below, HasRow;
    LadderByPriority(h, live, isBuy);
    RowPriosIndex(h, m, isBuy, i);
  }

  lemma ExcessShows(h: Half, live: map<int, Order>, isBuy: bool, p: int)
    requires Rep(h, SheetOf(live, isBuy), isBuy)
    ensures var ls := Levels(live, isBuy);
      && (p in h.excess <==> exists i :: |h.rows| <= i < |ls| && ls[i].price == p)
      && (p in h.excess ==> h.excess[p].isExcess && h.excess[p].Shown() == LevelAt(live, isBuy, p))
  {
    var m := SheetOf(live, isBuy);
    SheetOfIsRight(live, isBuy, p);
    hide SheetOf, RowPrios, ExcessPrios, Levels, Covered, Sorted, Below, HasRow, Agrees;
    LadderByPriority(h, live, isBuy);
    ExcessIsTail(h, m, isBuy, Levels(live, isBuy), p);
  }

  /** A side that refines its live orders shows exactly their ladder. */
  lemma RefinedShowsLadder(h: Half, live: map<int, Order>, isBuy: bool)
    requires Rep(h, SheetOf(live, isBuy), isBuy)
    ensures ShowsLadder(h, live, isBuy)
  {
    hide Rep, SheetOf, Levels;
    forall i | 0 <= i < |h.rows|
      ensures var ls := Levels(live, isBuy);
        !h.rows[i].isExcess && h.rows[i].Shown() == if i < |ls| then ls[i] else Level(INVALID_LEVEL_PRICE, 0, 0)
    {
      RowShows(h, live, isBuy, i);
    }
    forall p
      ensures p in h.excess <==> exists i :: |h.rows| <= i < |Levels(live, isBuy)| && Levels(live, isBuy)[i].price == p
      ensures p in h.excess ==> h.excess[p].isExcess && h.excess[p].Shown() == LevelAt(live, isBuy, p)
    {
      ExcessShows(h, live, isBuy, p);
    }
  }

  lemma RowPriosIndex(h: Half, m: Sheet, isBuy: bool, i: nat)
    requires Rep(h, m, isBuy) && i < |h.rows|
    ensures var prios := RowPrios(h, isBuy) + ExcessPrios(h, isBuy);
      if h.rows[i].Empty() then i >= |prios|
      else i < |prios| && prios[i] == Prio(isBuy, h.rows[i].price)
  {
    RowsBeforeExcess(h, m, isBuy);
  }

  lemma ExcessIsTail(h: Half, m: Sheet, isBuy: bool, ls: seq<Level>, p: int)
    requires Rep(h, m, isBuy)
    requires var prios := RowPrios(h, isBuy) + ExcessPrios(h, isBuy);
      |ls| == |prios| && forall i :: 0 <= i < |ls| ==> ls[i].price == Prio(isBuy, prios[i])
    ensures p in h.excess <==> exists i :: |h.rows| <= i < |ls| && ls[i].price == p
  {
    hide Covered, Sorted, Below, HasRow, Agrees;
    var a, e := RowPrios(h, isBuy), ExcessPrios(h, isBuy);
    ExcessPriosAre(h, isBuy);
    RowsBeforeExcess(h, m, isBuy);
    if p in h.excess {
      assert Prio(isBuy, Prio(isBuy, p)) == p;
      assert Prio(isBuy, p) in e;
      var i :| 0 <= i < |e| && e[i] == Prio(isBuy, p);
      assert ls[|a| + i].price == p;
    }
    if i :| |h.rows| <= i < |ls| && ls[i].price == p {
      assert e[i - |a|] in e;
    }
  }

  /** After every run over live orders, from an empty book, both sides show the ladder of the live orders. */
  lemma EveryRunShowsLadder(ops: seq<Op>, n: nat, isBuy: bool)
    requires n >= 1 && AllowedRun(map[], ops)
    ensures ShowsLadder(Run(EmptyBook(n), Calls(map[], ops), n).On(isBuy), RunLive(map[], ops), isBuy)
  {
    assert SheetOf(map[], true) == map[] && SheetOf(map[], false) == map[];
    RunRefines(EmptyBook(n), map[], ops, n);
    RefinedShowsLadder(Run(EmptyBook(n), Calls(map[], ops), n).On(isBuy), RunLive(map[], ops), isBuy);
  }
}
