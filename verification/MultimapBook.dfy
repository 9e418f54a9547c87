/**
 OrderBookImproved as a value. A side is a multimap from price to order, whose nodes are named by
 handles, and an index from order id to the handle that the multimap's iterator stands for.
 */
module MultimapBook {
  import opened Ladder

  datatype Node = Node(key: int, id: int, order: Order)

  datatype Side = Side(nodes: map<int, Node>, index: map<int, int>)

  /** Handles from `next` on have not been used yet. */
  datatype Book = Book(bids: Side, asks: Side, next: int) {
    function On(isBuy: bool): Side {
      if isBuy then bids else asks
    }

    function With(isBuy: bool, side: Side): Book {
      if isBuy then this.(bids := side) else this.(asks := side)
    }
  }

  datatype Event = OrderEvent(m: Message) | TradeEvent(buyId: int, sellId: int, qty: int)

  const EMPTY := Book(Side(map[], map[]), Side(map[], map[]), 0)

  // ---- the invariant of every run ----

  /** Every index entry points at a live node of that id; every node is filed under its order's price. */
  ghost predicate SideSound(s: Side, isBuy: bool, next: int) {
    && (forall h :: h in s.nodes ==>
          h < next && s.nodes[h].key == s.nodes[h].order.price && s.nodes[h].order.isBuy == isBuy)
    && (forall id :: id in s.index ==> s.index[id] in s.nodes && s.nodes[s.index[id]].id == id)
  }

  ghost predicate Sound(b: Book) {
    SideSound(b.bids, true, b.next) && SideSound(b.asks, false, b.next)
  }

  // ---- the updates of one side ----

  /** The node goes in before the index is asked; for an id in use it stays, unindexed. */
  function Inserted(s: Side, h: int, id: int, o: Order): Side {
    Side(s.nodes[h := Node(o.price, id, o)], if id in s.index then s.index else s.index[id := h])
  }

  function Removed(s: Side, id: int): Side
    requires id in s.index
  {
    Side(s.nodes - {s.index[id]}, s.index - {id})
  }

  function Requantified(s: Side, id: int, qty: int): Side
    requires id in s.index && s.index[id] in s.nodes
  {
    var n := s.nodes[s.index[id]];
    s.(nodes := s.nodes[s.index[id] := n.(order := n.order.(qty := qty))])
  }

  /** A modification of the price takes the order out and files the new one. */
  predicate Moves(s: Side, id: int, o: Order)
    requires id in s.index && s.index[id] in s.nodes
  {
    s.nodes[s.index[id]].order.price != o.price
  }

  function Modified(s: Side, h: int, id: int, o: Order): Side
    requires id in s.index && s.index[id] in s.nodes
  {
    if Moves(s, id, o) then
      Side((s.nodes - {s.index[id]})[h := Node(o.price, id, o)], s.index[id := h])
    else Requantified(s, id, o.qty)
  }

  // ---- messages ----

  function SideAfter(s: Side, next: int, m: Message): Side
    requires forall id :: id in s.index ==> s.index[id] in s.nodes
  {
    match m.kind
    case 'N' => Inserted(s, next, m.id, m.order)
    case 'M' => if m.id in s.index then Modified(s, next, m.id, m.order) else Inserted(s, next, m.id, m.order)
    case 'X' => if m.id in s.index then Removed(s, m.id) else s
    case _ => s
  }

  predicate TakesHandle(s: Side, m: Message)
    requires forall id :: id in s.index ==> s.index[id] in s.nodes
  {
    m.kind == 'N' || (m.kind == 'M' && (m.id in s.index ==> Moves(s, m.id, m.order)))
  }

  function AfterOrder(b: Book, m: Message): Book
    requires Sound(b)
  {
    var s := b.On(m.order.isBuy);
    b.With(m.order.isBuy, SideAfter(s, b.next, m)).(next := if TakesHandle(s, m) then b.next + 1 else b.next)
  }

  /** The quantity a trade leaves of the order it names, if the side knows that order. */
  function Left(s: Side, id: int, qty: int): int
    requires id in s.index && s.index[id] in s.nodes
  {
    s.nodes[s.index[id]].order.qty - qty
  }

  predicate Traded(s: Side, id: int) {
    id != 0 && id in s.index && s.index[id] in s.nodes
  }

  function AfterLeg(s: Side, id: int, qty: int): Side {
    if !Traded(s, id) || Left(s, id, qty) < 0 then s
    else if Left(s, id, qty) > 0 then Requantified(s, id, Left(s, id, qty))
    else Removed(s, id)
  }

  predicate LegThrows(s: Side, id: int, qty: int) {
    Traded(s, id) && Left(s, id, qty) < 0
  }

  /** The exception leaves what was done before it in place. */
  predicate Throws(b: Book, e: Event) {
    match e
    case OrderEvent(m) => m.kind == 'N' && m.id in b.On(m.order.isBuy).index
    case TradeEvent(buyId, sellId, qty) => LegThrows(b.bids, buyId, qty) || LegThrows(b.asks, sellId, qty)
  }

  function After(b: Book, e: Event): Book
    requires Sound(b)
  {
    match e
    case OrderEvent(m) => AfterOrder(b, m)
    case TradeEvent(buyId, sellId, qty) =>
      if LegThrows(b.bids, buyId, qty) then b
      else b.(bids := AfterLeg(b.bids, buyId, qty), asks := AfterLeg(b.asks, sellId, qty))
  }

  lemma StepSound(b: Book, e: Event)
    requires Sound(b)
    ensures Sound(After(b, e))
  {
    match e
    case OrderEvent(m) =>
      var isBuy := m.order.isBuy;
      var s := b.On(isBuy);
      if m.kind == 'X' && m.id in s.index {
        RemovedSound(s, isBuy, b.next, m.id);
      }
    case TradeEvent(buyId, sellId, qty) =>
      LegSound(b.bids, true, b.next, buyId, qty);
      LegSound(b.asks, false, b.next, sellId, qty);
  }

  lemma RemovedSound(s: Side, isBuy: bool, next: int, id: int)
    requires SideSound(s, isBuy, next) && id in s.index
    ensures SideSound(Removed(s, id), isBuy, next)
  {
    forall i | i in s.index && i != id
      ensures s.index[i] != s.index[id]
    {
      assert s.nodes[s.index[i]].id == i;
    }
  }

  lemma LegSound(s: Side, isBuy: bool, next: int, id: int, qty: int)
    requires SideSound(s, isBuy, next)
    ensures SideSound(AfterLeg(s, id, qty), isBuy, next)
  {
    if Traded(s, id) && Left(s, id, qty) == 0 {
      RemovedSound(s, isBuy, next, id);
    }
  }

  // ---- trades, side by side with the orders they name ----

  /** One leg of a trade: it reduces the order it names, takes it out when nothing is left, or does nothing. */
  ghost predicate LegDone(s: Side, s': Side, id: int, qty: int)
    requires forall i :: i in s.index ==> s.index[i] in s.nodes
  {
    if id == 0 || id !in s.index then s' == s
    else
      var h := s.index[id];
      var n := s.nodes[h];
      if qty < n.order.qty then
        && s'.index == s.index && s'.nodes.Keys == s.nodes.Keys
        && s'.nodes[h] == Node(n.key, n.id, Order(n.order.isBuy, n.order.price, n.order.qty - qty))
        && forall g :: g in s.nodes && g != h ==> s'.nodes[g] == s.nodes[g]
      else if qty == n.order.qty then s'.index == s.index - {id} && s'.nodes == s.nodes - {h}
      else s' == s
  }

  /**
   A trade throws exactly if it exceeds an order it names. A bid leg that throws leaves the book alone;
   otherwise the bid leg is done, and so is the ask leg unless it throws.
   */
  lemma TradeOutcome(b: Book, buyId: int, sellId: int, qty: int)
    requires Sound(b)
    ensures var e := TradeEvent(buyId, sellId, qty);
      var bidThrows := buyId != 0 && buyId in b.bids.index && b.bids.nodes[b.bids.index[buyId]].order.qty < qty;
      var askThrows := sellId != 0 && sellId in b.asks.index && b.asks.nodes[b.asks.index[sellId]].order.qty < qty;
      && (Throws(b, e) <==> bidThrows || askThrows)
      && After(b, e).next == b.next
      && (bidThrows ==> After(b, e) == b)
      && (!bidThrows ==>
            LegDone(b.bids, After(b, e).bids, buyId, qty) && LegDone(b.asks, After(b, e).asks, sellId, qty))
  {
    LegOutcome(b.bids, true, b.next, buyId, qty);
    LegOutcome(b.asks, false, b.next, sellId, qty);
    hide LegDone, AfterLeg, LegThrows;
  }

  lemma LegOutcome(s: Side, isBuy: bool, next: int, id: int, qty: int)
    requires SideSound(s, isBuy, next)
    ensures LegThrows(s, id, qty) <==> id != 0 && id in s.index && s.nodes[s.index[id]].order.qty < qty
    ensures LegDone(s, AfterLeg(s, id, qty), id, qty)
  {
  }

  lemma TradedIff(s: Side, isBuy: bool, next: int, id: int)
    requires SideSound(s, isBuy, next)
    ensures Traded(s, id) <==> id != 0 && id in s.index
  {
  }

  function Run(b: Book, es: seq<Event>): (r: Book)
    requires Sound(b)
    ensures Sound(r)
    decreases es
  {
    if es == [] then b
    else
      StepSound(b, es[0]);
      Run(After(b, es[0]), es[1..])
  }

  /** On all runs, those with exceptions included, no index entry dangles or points at a foreign order. */
  lemma IndexNeverDangles(es: seq<Event>, isBuy: bool, id: int)
    requires id in Run(EMPTY, es).On(isBuy).index
    ensures var s := Run(EMPTY, es).On(isBuy);
      var h := s.index[id];
      && h in s.nodes && s.nodes[h].id == id
      && s.nodes[h].key == s.nodes[h].order.price && s.nodes[h].order.isBuy == isBuy
  {
    var b := Run(EMPTY, es);
    assert Sound(b);
  }

  // ---- the index is a bijection when no id is issued twice ----

  ghost predicate AllIndexed(s: Side) {
    forall h :: h in s.nodes ==> s.nodes[h].id in s.index && s.index[s.nodes[h].id] == h
  }

  ghost predicate Bijective(b: Book) {
    AllIndexed(b.bids) && AllIndexed(b.asks)
  }

  predicate IssuesTwice(b: Book, e: Event) {
    e.OrderEvent? && Throws(b, e)
  }

  /** Exactly the duplicate new orders break the bijection. */
  lemma StepBijective(b: Book, e: Event)
    requires Sound(b) && Bijective(b)
    ensures Bijective(After(b, e)) <==> !IssuesTwice(b, e)
  {
    if IssuesTwice(b, e) {
      var m := e.m;
      var s := After(b, e).On(m.order.isBuy);
      assert b.next in s.nodes && s.nodes[b.next].id == m.id && s.index[m.id] != b.next;
    }
  }

  predicate FreshRun(b: Book, es: seq<Event>)
    requires Sound(b)
    decreases es
  {
    es != [] ==>
      !IssuesTwice(b, es[0]) && (StepSound(b, es[0]); FreshRun(After(b, es[0]), es[1..]))
  }

  /** A node that the index does not lead to. */
  predicate Stray(s: Side, h: int) {
    h in s.nodes && !(s.nodes[h].id in s.index && s.index[s.nodes[h].id] == h)
  }

  /** No message or trade ever touches a stray node again. */
  lemma StrayStays(b: Book, e: Event, isBuy: bool, h: int)
    requires Sound(b) && Stray(b.On(isBuy), h)
    ensures Stray(After(b, e).On(isBuy), h)
  {
  }

  lemma {:induction false} StrayForever(b: Book, es: seq<Event>, isBuy: bool, h: int)
    requires Sound(b) && Stray(b.On(isBuy), h)
    ensures Stray(Run(b, es).On(isBuy), h)
    decreases es
  {
    if es != [] {
      StrayStays(b, es[0], isBuy, h);
      StepSound(b, es[0]);
      StrayForever(After(b, es[0]), es[1..], isBuy, h);
    }
  }

  /** The index is a bijection after a run exactly if no new order of it had an id in use. */
  lemma {:induction false} RunBijective(b: Book, es: seq<Event>)
    requires Sound(b) && Bijective(b)
    ensures Bijective(Run(b, es)) <==> FreshRun(b, es)
    decreases es
  {
    if es != [] {
      hide Run, FreshRun;
      RunOn(b, es);
      StepSound(b, es[0]);
      if IssuesTwice(b, es[0]) {
        var isBuy := es[0].m.order.isBuy;
        StrayForever(After(b, es[0]), es[1..], isBuy, b.next);
        StrayIsNotIndexed(Run(b, es), isBuy, b.next);
      } else {
        StepBijective(b, es[0]);
        RunBijective(After(b, es[0]), es[1..]);
      }
    } else {
      assert FreshRun(b, es);
    }
  }

  lemma RunOn(b: Book, es: seq<Event>)
    requires Sound(b) && es != []
    ensures Sound(After(b, es[0])) && Run(b, es) == Run(After(b, es[0]), es[1..])
    ensures FreshRun(b, es) <==> !IssuesTwice(b, es[0]) && FreshRun(After(b, es[0]), es[1..])
  {
    StepSound(b, es[0]);
  }

  lemma StrayIsNotIndexed(b: Book, isBuy: bool, h: int)
    requires Stray(b.On(isBuy), h)
    ensures !Bijective(b)
  {
    assert !AllIndexed(b.On(isBuy));
  }

  /** A run of two new orders of one id: the second is refused, and stays in the multimap. */
  lemma RefusedOrderStays(es: seq<Event>)
    requires es == [OrderEvent(Message('N', 1, 7, Order(true, 100, 5))),
                    OrderEvent(Message('N', 1, 7, Order(true, 100, 5)))]
    ensures Throws(After(EMPTY, es[0]), es[1]) && !Bijective(Run(EMPTY, es))
  {
    StepSound(EMPTY, es[0]);
    RunOn(EMPTY, es);
    RunOn(After(EMPTY, es[0]), es[1..]);
    assert es[1..][0] == es[1];
    RunBijective(EMPTY, es);
  }

  // ---- conservation of quantity ----

  function Orders(s: Side): map<int, Order> {
    map h | h in s.nodes :: s.nodes[h].order
  }

  ghost function Resting(s: Side): int {
    Total(Orders(s))
  }

  /** What one event adds to a side, changes by modification, cancels and trades away. */
  datatype Ledger = Ledger(added: int, modified: int, cancelled: int, traded: int) {
    function Plus(l: Ledger): Ledger {
      Ledger(added + l.added, modified + l.modified, cancelled + l.cancelled, traded + l.traded)
    }

    function Net(): int {
      added + modified - cancelled - traded
    }
  }

  const NOTHING := Ledger(0, 0, 0, 0)

  function SideEntry(s: Side, m: Message): Ledger
    requires forall id :: id in s.index ==> s.index[id] in s.nodes
  {
    if m.id !in s.index then
      if m.kind == 'N' || m.kind == 'M' then Ledger(m.order.qty, 0, 0, 0) else NOTHING
    else
      var resting := s.nodes[s.index[m.id]].order.qty;
      if m.kind == 'M' then Ledger(0, m.order.qty - resting, 0, 0)
      else if m.kind == 'X' then Ledger(0, 0, resting, 0)
      else NOTHING
  }

  function Entry(b: Book, e: Event, isBuy: bool): Ledger
    requires Sound(b)
  {
    var s := b.On(isBuy);
    match e
    case OrderEvent(m) => if m.order.isBuy == isBuy then SideEntry(s, m) else NOTHING
    case TradeEvent(buyId, sellId, qty) =>
      var id := if isBuy then buyId else sellId;
      if id != 0 && id in s.index then Ledger(0, 0, 0, qty) else NOTHING
  }

  lemma InsertedTotal(s: Side, isBuy: bool, next: int, id: int, o: Order)
    requires SideSound(s, isBuy, next)
    ensures Resting(Inserted(s, next, id, o)) == Resting(s) + o.qty
  {
    TotalWith(Orders(s), next, o);
    assert Orders(s) - {next} == Orders(s);
    assert Orders(Inserted(s, next, id, o)) == Orders(s)[next := o];
  }

  lemma RemovedTotal(s: Side, isBuy: bool, next: int, id: int)
    requires SideSound(s, isBuy, next) && id in s.index
    ensures Resting(Removed(s, id)) == Resting(s) - s.nodes[s.index[id]].order.qty
  {
    TotalWithout(Orders(s), s.index[id]);
    assert Orders(Removed(s, id)) == Orders(s) - {s.index[id]};
  }

  lemma RequantifiedTotal(s: Side, isBuy: bool, next: int, id: int, qty: int)
    requires SideSound(s, isBuy, next) && id in s.index
    ensures Resting(Requantified(s, id, qty)) == Resting(s) - s.nodes[s.index[id]].order.qty + qty
  {
    var h := s.index[id];
    var o := s.nodes[h].order.(qty := qty);
    TotalWithout(Orders(s), h);
    TotalWith(Orders(s), h, o);
    assert Orders(Requantified(s, id, qty)) == Orders(s)[h := o];
  }

  lemma ModifiedTotal(s: Side, isBuy: bool, next: int, id: int, o: Order)
    requires SideSound(s, isBuy, next) && id in s.index
    ensures Resting(Modified(s, next, id, o)) == Resting(s) - s.nodes[s.index[id]].order.qty + o.qty
  {
    var h := s.index[id];
    if s.nodes[h].order.price != o.price {
      var rest := Orders(s) - {h};
      TotalWithout(Orders(s), h);
      TotalWith(rest, next, o);
      assert rest - {next} == rest;
      assert Orders(Modified(s, next, id, o)) == rest[next := o];
    } else {
      RequantifiedTotal(s, isBuy, next, id, o.qty);
    }
  }

  lemma SideConserves(s: Side, isBuy: bool, next: int, m: Message)
    requires SideSound(s, isBuy, next) && (m.kind == 'N' ==> m.id !in s.index)
    ensures Resting(SideAfter(s, next, m)) == Resting(s) + SideEntry(s, m).Net()
  {
    hide Resting, Inserted, Modified, Removed;
    if m.id !in s.index {
      InsertedTotal(s, isBuy, next, m.id, m.order);
    } else if m.kind == 'M' {
      ModifiedTotal(s, isBuy, next, m.id, m.order);
    } else {
      RemovedTotal(s, isBuy, next, m.id);
    }
  }

  lemma LegConserves(s: Side, isBuy: bool, next: int, id: int, qty: int)
    requires SideSound(s, isBuy, next) && !LegThrows(s, id, qty)
    ensures Resting(AfterLeg(s, id, qty)) == Resting(s) - if Traded(s, id) then qty else 0
  {
    hide Resting, Requantified, Removed;
    if Traded(s, id) {
      RemovedTotal(s, isBuy, next, id);
      RequantifiedTotal(s, isBuy, next, id, Left(s, id, qty));
    }
  }

  lemma OrderConserves(b: Book, m: Message, isBuy: bool)
    requires Sound(b) && !Throws(b, OrderEvent(m))
    ensures Resting(AfterOrder(b, m).On(isBuy)) == Resting(b.On(isBuy)) + Entry(b, OrderEvent(m), isBuy).Net()
  {
    hide Resting, SideAfter, SideEntry, TakesHandle;
    var s := b.On(isBuy);
    if m.order.isBuy == isBuy {
      var side := SideAfter(s, b.next, m);
      assert AfterOrder(b, m).On(isBuy) == side;
      assert Entry(b, OrderEvent(m), isBuy) == SideEntry(s, m);
      assert Resting(side) == Resting(s) + SideEntry(s, m).Net() by { SideConserves(s, isBuy, b.next, m); }
    } else {
      assert AfterOrder(b, m).On(isBuy) == s;
    }
  }

  lemma SoundSide(b: Book, isBuy: bool)
    requires Sound(b)
    ensures SideSound(b.On(isBuy), isBuy, b.next)
  {
  }

  lemma TradeConserves(b: Book, e: Event, isBuy: bool)
    requires Sound(b) && !Throws(b, e) && e.TradeEvent?
    ensures Resting(After(b, e).On(isBuy)) == Resting(b.On(isBuy)) + Entry(b, e, isBuy).Net()
  {
    hide Resting, AfterLeg, LegThrows, Traded, Sound;
    var s, id := b.On(isBuy), if isBuy then e.buyId else e.sellId;
    assert SideSound(s, isBuy, b.next) by { SoundSide(b, isBuy); }
    assert !LegThrows(s, id, e.qty);
    LegConserves(s, isBuy, b.next, id, e.qty);
    assert After(b, e).On(isBuy) == AfterLeg(s, id, e.qty);
    assert Traded(s, id) <==> id != 0 && id in s.index by { TradedIff(s, isBuy, b.next, id); }
    assert Entry(b, e, isBuy) == if Traded(s, id) then Ledger(0, 0, 0, e.qty) else NOTHING;
    hide After, Entry, SideSound;
  }

  lemma StepConserves(b: Book, e: Event, isBuy: bool)
    requires Sound(b) && !Throws(b, e)
    ensures Resting(After(b, e).On(isBuy)) == Resting(b.On(isBuy)) + Entry(b, e, isBuy).Net()
  {
    hide Resting, Entry, AfterOrder;
    match e
    case OrderEvent(m) => OrderConserves(b, m, isBuy);
    case TradeEvent(_, _, _) => TradeConserves(b, e, isBuy);
  }

  predicate QuietRun(b: Book, es: seq<Event>)
    requires Sound(b)
    decreases es
  {
    es != [] ==> !Throws(b, es[0]) && (StepSound(b, es[0]); QuietRun(After(b, es[0]), es[1..]))
  }

  function Books(b: Book, es: seq<Event>, isBuy: bool): Ledger
    requires Sound(b)
    decreases es
  {
    if es == [] then NOTHING
    else
      StepSound(b, es[0]);
      Entry(b, es[0], isBuy).Plus(Books(After(b, es[0]), es[1..], isBuy))
  }

  /** Over a run without exceptions, a side holds what was added and modified less what was cancelled and traded. */
  lemma {:induction false} RunConserves(b: Book, es: seq<Event>, isBuy: bool)
    requires Sound(b) && QuietRun(b, es)
    ensures Resting(Run(b, es).On(isBuy)) == Resting(b.On(isBuy)) + Books(b, es, isBuy).Net()
    decreases es
  {
    if es != [] {
      StepConserves(b, es[0], isBuy);
      StepSound(b, es[0]);
      RunConserves(After(b, es[0]), es[1..], isBuy);
    }
  }

  predicate Positive(e: Event) {
    match e
    case OrderEvent(m) => BringsPositive(m)
    case TradeEvent(_, _, _) => true
  }

  /** No order of zero or negative quantity ever rests, exceptions or not, and whatever quantities trades name. */
  lemma {:induction false} NothingEmptyRests(b: Book, es: seq<Event>)
    requires Sound(b) && AllPositive(Orders(b.bids)) && AllPositive(Orders(b.asks))
    requires forall i :: 0 <= i < |es| ==> Positive(es[i])
    ensures AllPositive(Orders(Run(b, es).bids)) && AllPositive(Orders(Run(b, es).asks))
    decreases es
  {
    if es != [] {
      StepSound(b, es[0]);
      var b' := After(b, es[0]);
      assert Positive(es[0]);
      StepPositive(b, es[0], true);
      StepPositive(b, es[0], false);
      NothingEmptyRests(b', es[1..]);
    }
  }

  lemma StepPositive(b: Book, e: Event, isBuy: bool)
    requires Sound(b) && AllPositive(Orders(b.On(isBuy))) && Positive(e)
    ensures AllPositive(Orders(After(b, e).On(isBuy)))
  {
    var s, s' := b.On(isBuy), After(b, e).On(isBuy);
    forall h | h in s'.nodes
      ensures s'.nodes[h].order.qty > 0
    {
      if h in s.nodes {
        assert Orders(s)[h].qty > 0;
      }
    }
  }
}
