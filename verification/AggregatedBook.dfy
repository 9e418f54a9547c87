/** OrderBookType2 as a value: price levels kept up to date message by message, and an id index. */
module AggregatedBook {
  import opened Ladder

  /** Each side is keyed by priority, so that the best level has the smallest key. */
  type Side = map<int, Level>

  datatype Book = Book(buy: Side, sell: Side, orders: map<int, Order>) {
    function Levels(isBuy: bool): Side {
      if isBuy then buy else sell
    }

    function With(isBuy: bool, side: Side): Book {
      if isBuy then this.(buy := side) else this.(sell := side)
    }
  }

  const EMPTY := Book(map[], map[], map[])

  // ---- the updates of one side ----

  function Found(side: Side, prio: int): Level {
    if prio in side then side[prio] else Level(0, 0, 0)
  }

  function Added(side: Side, prio: int, o: Order): Side {
    var l := Found(side, prio);
    side[prio := Level(o.price, l.qty + o.qty, l.count + 1)]
  }

  /** A level whose quantity falls to zero is erased. */
  function Changed(side: Side, prio: int, qty: int, count: int): Side {
    var l := Found(side, prio);
    var l' := Level(l.price, l.qty + qty, l.count + count);
    if l'.qty <= 0 then side - {prio} else side[prio := l']
  }

  function Cancelled(side: Side, o: Order): Side {
    var prio := Prio(o.isBuy, o.price);
    if prio !in side then side else Changed(side, prio, -o.qty, -1)
  }

  /** modifyOrder works on the side of the old order throughout. */
  function Modified(side: Side, n: Order, o: Order): Side {
    var prio := Prio(o.isBuy, o.price);
    if n.price != o.price then
      Added(Changed(side, prio, -o.qty, -1), Prio(n.isBuy, n.price), n)
    else if n.qty != o.qty then
      Changed(side, prio, n.qty - o.qty, 0)
    else side
  }

  // ---- one message ----

  predicate Rejects(b: Book, m: Message) {
    m.kind == 'N' && m.id in b.orders
  }

  function AddNew(b: Book, id: int, o: Order): Book {
    b.With(o.isBuy, Added(b.Levels(o.isBuy), Prio(o.isBuy, o.price), o)).(orders := b.orders[id := o])
  }

  function Cancel(b: Book, id: int): Book
    requires id in b.orders
  {
    var o := b.orders[id];
    b.With(o.isBuy, Cancelled(b.Levels(o.isBuy), o)).(orders := b.orders - {id})
  }

  /** The stored order is not replaced. */
  function Modify(b: Book, id: int, n: Order): Book
    requires id in b.orders
  {
    var o := b.orders[id];
    b.With(o.isBuy, Modified(b.Levels(o.isBuy), n, o))
  }

  function After(b: Book, m: Message): Book {
    if m.kind == 'N' && m.id !in b.orders then AddNew(b, m.id, m.order)
    else if m.kind == 'M' && m.id !in b.orders then AddNew(b, m.id, m.order)
    else if m.kind == 'M' then Modify(b, m.id, m.order)
    else if m.kind == 'X' && m.id in b.orders then Cancel(b, m.id)
    else b
  }

  // ---- the levels aggregate the orders ----

  ghost predicate SideAggregates(side: Side, orders: map<int, Order>, isBuy: bool) {
    forall q :: LevelIsRight(side, orders, isBuy, q)
  }

  ghost predicate LevelIsRight(side: Side, orders: map<int, Order>, isBuy: bool, q: int) {
    var l := LevelAt(orders, isBuy, Prio(isBuy, q));
    if l.count > 0 then q in side && side[q] == l else q !in side
  }

  /** Each level is the sum and the number of the indexed orders at its price; no level is empty. */
  ghost predicate Aggregates(b: Book) {
    && AllPositive(b.orders)
    && SideAggregates(b.buy, b.orders, true)
    && SideAggregates(b.sell, b.orders, false)
  }

  lemma AddedAggregates(side: Side, orders: map<int, Order>, isBuy: bool, id: int, o: Order)
    requires SideAggregates(side, orders, isBuy) && AllPositive(orders)
    requires id !in orders && o.qty > 0
    ensures SideAggregates(if o.isBuy == isBuy then Added(side, Prio(o.isBuy, o.price), o) else side,
                           orders[id := o], isBuy)
  {
    var side' := if o.isBuy == isBuy then Added(side, Prio(o.isBuy, o.price), o) else side;
    var orders' := orders[id := o];
    forall q
      ensures LevelIsRight(side', orders', isBuy, q)
    {
      assert LevelIsRight(side, orders, isBuy, q);
      LevelWith(orders, isBuy, Prio(isBuy, q), id, o);
      LevelCounts(orders, isBuy, Prio(isBuy, q));
    }
  }

  lemma CancelledAggregates(side: Side, orders: map<int, Order>, isBuy: bool, id: int)
    requires SideAggregates(side, orders, isBuy) && AllPositive(orders) && id in orders
    ensures SideAggregates(if orders[id].isBuy == isBuy then Cancelled(side, orders[id]) else side,
                           orders - {id}, isBuy)
  {
    var o := orders[id];
    var side' := if o.isBuy == isBuy then Cancelled(side, o) else side;
    forall q
      ensures LevelIsRight(side', orders - {id}, isBuy, q)
    {
      var p := Prio(isBuy, q);
      assert LevelIsRight(side, orders, isBuy, q);
      LevelWithout(orders, isBuy, p, id);
      LevelCounts(orders, isBuy, p);
      LevelCounts(orders - {id}, isBuy, p);
    }
  }

  /** Where a modification puts the new order, on the side of the old one. */
  function Place(o: Order, n: Order): int {
    if n.price == o.price then Prio(o.isBuy, o.price) else Prio(n.isBuy, n.price)
  }

  /** The level at that place: those of the remaining orders, and the new one. */
  ghost predicate HasNew(side: Side, rest: map<int, Order>, o: Order, n: Order) {
    var l := LevelAt(rest, o.isBuy, Prio(o.isBuy, Place(o, n)));
    if n.price == o.price && l.qty + n.qty <= 0 then Place(o, n) !in side
    else Place(o, n) in side && side[Place(o, n)] == Level(n.price, l.qty + n.qty, l.count + 1)
  }

  /** Through each of its branches, a modification takes the old order out of the levels and puts the new one in. */
  lemma ModifiedSide(side: Side, orders: map<int, Order>, id: int, n: Order)
    requires id in orders && SideAggregates(side, orders, orders[id].isBuy) && AllPositive(orders)
    ensures var o, rest := orders[id], orders - {id};
      && HasNew(Modified(side, n, o), rest, o, n)
      && forall q :: q != Place(o, n) ==> LevelIsRight(Modified(side, n, o), rest, o.isBuy, q)
  {
    var o, rest, q := orders[id], orders - {id}, Place(orders[id], n);
    var isBuy, p := o.isBuy, Prio(o.isBuy, q);
    CancelledAggregates(side, orders, isBuy, id);
    var without := Cancelled(side, o);
    LevelWithout(orders, isBuy, o.price, id);
    LevelCounts(orders, isBuy, o.price);
    assert LevelIsRight(side, orders, isBuy, Prio(isBuy, o.price));
    assert LevelIsRight(without, rest, isBuy, q);
    LevelCounts(rest, isBuy, p);
    forall r | r != q
      ensures LevelIsRight(Modified(side, n, o), rest, isBuy, r)
    {
      assert LevelIsRight(without, rest, isBuy, r);
    }
  }

  lemma OtherSideStays(b: Book, id: int, n: Order)
    requires Aggregates(b) && id in b.orders
    ensures var isBuy := b.orders[id].isBuy;
      && Modify(b, id, n).Levels(!isBuy) == b.Levels(!isBuy)
      && SideAggregates(b.Levels(!isBuy), b.orders - {id}, !isBuy)
  {
    CancelledAggregates(b.Levels(!b.orders[id].isBuy), b.orders, !b.orders[id].isBuy, id);
  }

  lemma AggregatesBySide(b: Book, isBuy: bool)
    ensures Aggregates(b) <==>
      && AllPositive(b.orders)
      && SideAggregates(b.Levels(isBuy), b.orders, isBuy) && SideAggregates(b.Levels(!isBuy), b.orders, !isBuy)
  {
    hide SideAggregates;
  }

  lemma ReplacedSideIff(side: Side, orders: map<int, Order>, id: int, n: Order)
    requires id in orders && SideAggregates(side, orders, orders[id].isBuy) && AllPositive(orders) && n.qty > 0
    ensures SideAggregates(Modified(side, n, orders[id]), orders[id := n], orders[id].isBuy)
       <==> n.isBuy == orders[id].isBuy
  {
    var o, rest, replaced := orders[id], orders - {id}, orders[id := n];
    var modified := Modified(side, n, o);
    assert replaced == rest[id := n];
    ModifiedSide(side, orders, id, n);
    hide Modified;
    if n.isBuy == o.isBuy {
      forall q
        ensures LevelIsRight(modified, replaced, o.isBuy, q)
      {
        assert q != Place(o, n) ==> LevelIsRight(modified, rest, o.isBuy, q);
        LevelWith(rest, o.isBuy, Prio(o.isBuy, q), id, n);
        LevelCounts(rest, o.isBuy, Prio(o.isBuy, q));
      }
    } else {
      LevelWith(rest, o.isBuy, Prio(o.isBuy, Place(o, n)), id, n);
      LevelCounts(rest, o.isBuy, Prio(o.isBuy, Place(o, n)));
      assert !LevelIsRight(modified, replaced, o.isBuy, Place(o, n));
    }
  }

  lemma OtherSideOfReplaced(side: Side, orders: map<int, Order>, isBuy: bool, id: int, n: Order)
    requires id in orders && n.isBuy == orders[id].isBuy != isBuy && SideAggregates(side, orders, isBuy)
    ensures SideAggregates(side, orders[id := n], isBuy)
  {
    var replaced := orders[id := n];
    forall q
      ensures LevelIsRight(side, replaced, isBuy, q)
    {
      assert LevelIsRight(side, orders, isBuy, q);
      LevelReplaced(orders, isBuy, Prio(isBuy, q), id, n);
      LevelWithout(orders, isBuy, Prio(isBuy, q), id);
    }
  }

  /** The levels are those of the order set with the old order replaced, exactly if the order stays on its side. */
  lemma ModifyReplacesOrder(b: Book, id: int, n: Order)
    requires Aggregates(b) && id in b.orders && n.qty > 0
    ensures Aggregates(Modify(b, id, n).(orders := b.orders[id := n])) <==> n.isBuy == b.orders[id].isBuy
  {
    hide SideAggregates, Modified;
    var o, b' := b.orders[id], Modify(b, id, n).(orders := b.orders[id := n]);
    AggregatesBySide(b, o.isBuy);
    ReplacedSideIff(b.Levels(o.isBuy), b.orders, id, n);
    if n.isBuy == o.isBuy {
      OtherSideOfReplaced(b.Levels(!o.isBuy), b.orders, !o.isBuy, id, n);
    }
    AggregatesBySide(b', o.isBuy);
  }

  /** As the stored order is kept, the index is stale unless neither price nor quantity changed. */
  lemma ModifyLeavesIndexStale(b: Book, id: int, n: Order)
    requires Aggregates(b) && id in b.orders
    ensures Aggregates(Modify(b, id, n)) <==> n.price == b.orders[id].price && n.qty == b.orders[id].qty
  {
    var o, rest := b.orders[id], b.orders - {id};
    var modified := Modified(b.Levels(o.isBuy), n, o);
    if n.price != o.price || n.qty != o.qty {
      ModifiedSide(b.Levels(o.isBuy), b.orders, id, n);
      hide Modified;
      var q := Prio(o.isBuy, o.price);
      LevelWithout(b.orders, o.isBuy, o.price, id);
      LevelCounts(rest, o.isBuy, o.price);
      assert q != Place(o, n) ==> LevelIsRight(modified, rest, o.isBuy, q);
      assert !LevelIsRight(modified, b.orders, o.isBuy, q);
      assert !SideAggregates(modified, b.orders, o.isBuy);
    }
  }

  /** A shrunk order alone at its price: cancelling it takes off at least what the level has left. */
  predicate ShrinksAlone(o: Order, n: Order, others: int) {
    Place(o, n) == Prio(o.isBuy, o.price) && n.qty <= o.qty && others == 0
  }

  /**
   Cancelling a modified order takes off what the stale index says of it. The levels come out right
   exactly if neither price nor quantity changed, or the order is alone at its price and not grown.
   */
  lemma ModifyThenCancelIff(b: Book, id: int, n: Order)
    requires Aggregates(b) && id in b.orders
    ensures var o := b.orders[id];
      Aggregates(Cancel(Modify(b, id, n), id)) <==>
      (n.price == o.price && n.qty == o.qty)
      || ShrinksAlone(o, n, LevelAt(b.orders - {id}, o.isBuy, o.price).count)
  {
    var o, rest := b.orders[id], b.orders - {id};
    var b' := Cancel(Modify(b, id, n), id);
    OtherSideStays(b, id, n);
    assert b'.Levels(!o.isBuy) == b.Levels(!o.isBuy) && b'.orders == rest;
    CancelledSideIff(b.Levels(o.isBuy), b.orders, id, n);
    hide SideAggregates, Modified, Cancelled;
  }

  lemma CancelledSideIff(side: Side, orders: map<int, Order>, id: int, n: Order)
    requires id in orders && SideAggregates(side, orders, orders[id].isBuy) && AllPositive(orders)
    ensures var o := orders[id];
      SideAggregates(Cancelled(Modified(side, n, o), o), orders - {id}, o.isBuy) <==>
      (n.price == o.price && n.qty == o.qty)
      || ShrinksAlone(o, n, LevelAt(orders - {id}, o.isBuy, o.price).count)
  {
    var o, rest := orders[id], orders - {id};
    ModifiedSide(side, orders, id, n);
    var modified := Modified(side, n, o);
    hide Modified;
    forall q
      ensures q != Place(o, n) == Prio(o.isBuy, o.price) ==> LevelIsRight(Cancelled(modified, o), rest, o.isBuy, q)
      ensures q == Place(o, n) ==>
        (LevelIsRight(Cancelled(modified, o), rest, o.isBuy, q) <==>
         (n.price == o.price && n.qty == o.qty) || ShrinksAlone(o, n, LevelAt(rest, o.isBuy, o.price).count))
    {
      assert q != Place(o, n) ==> LevelIsRight(modified, rest, o.isBuy, q);
      LevelCounts(rest, o.isBuy, Prio(o.isBuy, q));
    }
    assert LevelIsRight(Cancelled(modified, o), rest, o.isBuy, Place(o, n))
      <==> SideAggregates(Cancelled(modified, o), rest, o.isBuy);
  }

  // ---- runs ----

  /** The messages under which the index stays a faithful account: new, cancel, and modify of an unknown id. */
  predicate Plain(b: Book, m: Message) {
    BringsPositive(m) && (m.kind == 'M' ==> m.id !in b.orders)
  }

  lemma StepAggregates(b: Book, m: Message)
    requires Aggregates(b) && Plain(b, m)
    ensures Aggregates(After(b, m))
  {
    if m.id in b.orders {
      CancelledAggregates(b.buy, b.orders, true, m.id);
      CancelledAggregates(b.sell, b.orders, false, m.id);
    } else if m.kind == 'N' || m.kind == 'M' {
      AddedAggregates(b.buy, b.orders, true, m.id, m.order);
      AddedAggregates(b.sell, b.orders, false, m.id, m.order);
    }
  }

  function Run(b: Book, ms: seq<Message>): Book
    decreases ms
  {
    if ms == [] then b else Run(After(b, ms[0]), ms[1..])
  }

  predicate PlainRun(b: Book, ms: seq<Message>)
    decreases ms
  {
    ms != [] ==> Plain(b, ms[0]) && PlainRun(After(b, ms[0]), ms[1..])
  }

  lemma {:induction false} RunAggregates(b: Book, ms: seq<Message>)
    requires Aggregates(b) && PlainRun(b, ms)
    ensures Aggregates(Run(b, ms))
    decreases ms
  {
    if ms != [] {
      StepAggregates(b, ms[0]);
      RunAggregates(After(b, ms[0]), ms[1..]);
    }
  }

  lemma EmptyAggregates()
    ensures Aggregates(EMPTY)
  {
  }

  /** From an empty book, every plain run leaves the levels aggregating the indexed orders. */
  lemma EveryRunAggregates(ms: seq<Message>)
    requires PlainRun(EMPTY, ms)
    ensures Aggregates(Run(EMPTY, ms))
  {
    EmptyAggregates();
    RunAggregates(EMPTY, ms);
  }
}
