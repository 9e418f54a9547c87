/** OrderBookImproved.cpp: the order book that keeps every order and aggregates when it prints. */
module OrderBookImproveds {
  import opened Ladder
  import opened MultimapBook

  class OrderBookImproved {
    var bids: map<int, Node>
    var asks: map<int, Node>
    var bidsHash: map<int, int>
    var asksHash: map<int, int>
    /** Supplies the handles of new multimap nodes. */
    var next: int

    ghost function Snapshot(): Book
      reads this
    {
      Book(Side(bids, bidsHash), Side(asks, asksHash), next)
    }

    ghost predicate Valid()
      reads this
    {
      Sound(Snapshot())
    }

    constructor ()
      ensures Valid() && Snapshot() == EMPTY
    {
      bids, asks, bidsHash, asksHash, next := map[], map[], map[], map[], 0;
    }

    method ProcessOrder(m: Message) returns (threw: bool)
      requires Valid()
      modifies this
      ensures Valid()
      ensures threw == Throws(old(Snapshot()), OrderEvent(m))
      ensures threw <==> m.kind == 'N' && m.id in old(if m.order.isBuy then bidsHash else asksHash)
      ensures Snapshot() == After(old(Snapshot()), OrderEvent(m))
      decreases if m.kind == 'M' then 1 else 0
    {
      StepSound(Snapshot(), OrderEvent(m));
      threw := false;
      var o := m.order;
      match m.kind {
        case 'N' =>
          var it := next;
          next := next + 1;
          if o.isBuy {
            bids := bids[it := Node(o.price, m.id, o)];
            if m.id in bidsHash {
              return true;
            }
            bidsHash := bidsHash[m.id := it];
          } else {
            asks := asks[it := Node(o.price, m.id, o)];
            if m.id in asksHash {
              return true;
            }
            asksHash := asksHash[m.id := it];
          }
        case 'M' =>
          if o.isBuy {
            if m.id in bidsHash {
              var it := bidsHash[m.id];
              var node := bids[it];
              if node.order.price != o.price {
                bids := bids - {it};
                bids := bids[next := Node(o.price, m.id, o)];
                bidsHash := bidsHash[m.id := next];
                next := next + 1;
              } else {
                bids := bids[it := node.(order := node.order.(qty := o.qty))];
              }
            } else {
              threw := ProcessOrder(m.(kind := 'N'));
            }
          } else {
            if m.id in asksHash {
              var it := asksHash[m.id];
              var node := asks[it];
              if node.order.price != o.price {
                asks := asks - {it};
                asks := asks[next := Node(o.price, m.id, o)];
                asksHash := asksHash[m.id := next];
                next := next + 1;
              } else {
                asks := asks[it := node.(order := node.order.(qty := o.qty))];
              }
            } else {
              threw := ProcessOrder(m.(kind := 'N'));
            }
          }
        case 'X' =>
          if o.isBuy {
            if m.id in bidsHash {
              bids := bids - {bidsHash[m.id]};
              bidsHash := bidsHash - {m.id};
            }
          } else {
            if m.id in asksHash {
              asks := asks - {asksHash[m.id]};
              asksHash := asksHash - {m.id};
            }
          }
        case _ =>
      }
    }

    method ProcessTrade(buyId: int, sellId: int, qty: int) returns (threw: bool)
      requires Valid()
      modifies this
      ensures Valid()
      ensures threw == Throws(old(Snapshot()), TradeEvent(buyId, sellId, qty))
      ensures Snapshot() == After(old(Snapshot()), TradeEvent(buyId, sellId, qty))
      ensures threw <==>
        (buyId != 0 && buyId in old(bidsHash) && old(bids[bidsHash[buyId]].order.qty) < qty)
        || (sellId != 0 && sellId in old(asksHash) && old(asks[asksHash[sellId]].order.qty) < qty)
    {
      StepSound(Snapshot(), TradeEvent(buyId, sellId, qty));
      TradeOutcome(Snapshot(), buyId, sellId, qty);
      if buyId != 0 {
        if buyId in bidsHash {
          var it := bidsHash[buyId];
          var node := bids[it];
          var delta := node.order.qty - qty;
          if delta > 0 {
            bids := bids[it := node.(order := node.order.(qty := delta))];
          } else if delta < 0 {
            return true;
          } else {
            bids := bids - {it};
            bidsHash := bidsHash - {buyId};
          }
        }
      }
      if sellId != 0 {
        if sellId in asksHash {
          var it := asksHash[sellId];
          var node := asks[it];
          var delta := node.order.qty - qty;
          if delta > 0 {
            asks := asks[it := node.(order := node.order.(qty := delta))];
          } else if delta < 0 {
            return true;
          } else {
            asks := asks - {it};
            asksHash := asksHash - {sellId};
          }
        }
      }
      return false;
    }

    /** The levels printed for one side, with quantities summed in 32 bits. */
    method PrintSide(isBuy: bool) returns (printed: seq<Level>)
      requires Valid()
      ensures printed == Narrow(TopTen(Orders(Snapshot().On(isBuy)), isBuy))
    {
      printed := PrintMultimap(if isBuy then bids else asks, isBuy);
    }

    static method PrintMultimap(nodes: map<int, Node>, isBuy: bool) returns (printed: seq<Level>)
      requires Filed(nodes, isBuy)
      ensures printed == Narrow(TopTen(OrdersOf(nodes), isBuy))
    {
      // The nodes from the iterator to the end.
      var rest := nodes.Keys;
      printed := [];
      PrintStarts(nodes, isBuy);
      while rest != {} && |printed| < DEPTH
        invariant |printed| <= DEPTH && ToPrint(nodes, isBuy, printed, rest)
        decreases |rest|
      {
        PrintContinues(nodes, isBuy, printed, rest);
        var key := Prio(isBuy, Least(Ranks(nodes, rest, isBuy)));
        var range := set h | h in nodes && nodes[h].key == key;
        var qty, count := Aggregate(nodes, isBuy, key, range);
        printed := printed + [Level(key, qty, count)];
        rest := UpperBound(nodes, rest, key);
      }
      PrintEnds(nodes, isBuy, printed, rest);
    }

    /** The inner loop: sums the equal range of one price. */
    static method Aggregate(nodes: map<int, Node>, isBuy: bool, key: int, range: set<int>)
      returns (agg: int, count: int)
      requires Filed(nodes, isBuy)
      requires range == set h | h in nodes && nodes[h].key == key
      ensures var l := LevelAt(OrdersOf(nodes), isBuy, key); agg == ToInt32(l.qty) && count == l.count
    {
      agg, count := 0, 0;
      var left := range;
      ghost var orders := OrdersOf(nodes);
      ghost var unseen := orders;
      ghost var exact := 0;
      while left != {}
        invariant left <= range && unseen.Keys == orders.Keys - (range - left)
        invariant forall h :: h in unseen ==> unseen[h] == orders[h]
        invariant agg == ToInt32(exact)
        invariant exact + LevelAt(unseen, isBuy, key).qty == LevelAt(orders, isBuy, key).qty
        invariant count + LevelAt(unseen, isBuy, key).count == LevelAt(orders, isBuy, key).count
        decreases |left|
      {
        var si := Least(left);
        LevelWithout(unseen, isBuy, key, si);
        AddsModulo(exact, nodes[si].order.qty);
        agg := ToInt32(agg + nodes[si].order.qty);
        count := count + 1;
        exact := exact + nodes[si].order.qty;
        unseen := unseen - {si};
        left := left - {si};
      }
      assert forall h :: h in unseen ==> !At(unseen[h], isBuy, key);
      LevelCounts(unseen, isBuy, key);
    }
  }

  /** Two's complement wrap-around of a 32-bit Quantity. */
  function ToInt32(x: int): int {
    (x + 0x8000_0000) % 0x1_0000_0000 - 0x8000_0000
  }

  lemma AddsModulo(x: int, y: int)
    ensures ToInt32(ToInt32(x) + y) == ToInt32(x + y)
  {
  }

  function Narrow(ls: seq<Level>): seq<Level> {
    seq(|ls|, i requires 0 <= i < |ls| => ls[i].(qty := ToInt32(ls[i].qty)))
  }

  ghost predicate Filed(nodes: map<int, Node>, isBuy: bool) {
    forall h :: h in nodes ==> nodes[h].key == nodes[h].order.price && nodes[h].order.isBuy == isBuy
  }

  function OrdersOf(nodes: map<int, Node>): map<int, Order> {
    Orders(Side(nodes, map[]))
  }

  function Ranks(nodes: map<int, Node>, rest: set<int>, isBuy: bool): set<int>
    requires rest <= nodes.Keys
  {
    set h | h in rest :: Prio(isBuy, nodes[h].key)
  }

  /** The nodes of `rest` that do not have the key. */
  function UpperBound(nodes: map<int, Node>, rest: set<int>, key: int): set<int>
    requires rest <= nodes.Keys
  {
    set h | h in rest && nodes[h].key != key
  }

  /** What is printed, followed by the levels of the nodes that remain, is the whole ladder. */
  ghost predicate ToPrint(nodes: map<int, Node>, isBuy: bool, printed: seq<Level>, rest: set<int>) {
    && rest <= nodes.Keys
    && printed + Narrow(LevelsOf(OrdersOf(nodes), isBuy, Ascending(Ranks(nodes, rest, isBuy))))
       == Narrow(Levels(OrdersOf(nodes), isBuy))
  }

  lemma PrintStarts(nodes: map<int, Node>, isBuy: bool)
    requires Filed(nodes, isBuy)
    ensures ToPrint(nodes, isBuy, [], nodes.Keys)
  {
    var orders := OrdersOf(nodes);
    assert forall h :: h in orders ==> orders[h].isBuy == isBuy && orders[h].price == nodes[h].key;
    forall q | q in Ranks(nodes, nodes.Keys, isBuy)
      ensures q in Prios(orders, isBuy)
    {
      var h :| h in nodes && Prio(isBuy, nodes[h].key) == q;
      assert h in orders;
    }
    forall q | q in Prios(orders, isBuy)
      ensures q in Ranks(nodes, nodes.Keys, isBuy)
    {
      var h := PrioOf(orders, isBuy, q);
      assert h in nodes.Keys && nodes[h].key == orders[h].price;
    }
    assert Ranks(nodes, nodes.Keys, isBuy) == Prios(orders, isBuy);
  }

  lemma PrintEnds(nodes: map<int, Node>, isBuy: bool, printed: seq<Level>, rest: set<int>)
    requires ToPrint(nodes, isBuy, printed, rest)
    requires |printed| <= DEPTH && (rest == {} || |printed| == DEPTH)
    ensures printed == Narrow(TopTen(OrdersOf(nodes), isBuy))
  {
    var later := LevelsOf(OrdersOf(nodes), isBuy, Ascending(Ranks(nodes, rest, isBuy)));
    var all := Levels(OrdersOf(nodes), isBuy);
    if rest == {} {
      assert Ranks(nodes, rest, isBuy) == {};
      assert later == [];
    }
    assert Narrow(all)[..|printed|] == printed;
    assert Narrow(Take(all, DEPTH)) == Take(Narrow(all), DEPTH);
  }

  /** Moving past the equal range of the best key leaves the other levels to be printed. */
  lemma PrintContinues(nodes: map<int, Node>, isBuy: bool, printed: seq<Level>, rest: set<int>)
    requires ToPrint(nodes, isBuy, printed, rest) && rest != {}
    ensures Ranks(nodes, rest, isBuy) != {}
    ensures var key := Prio(isBuy, Least(Ranks(nodes, rest, isBuy)));
      var l := LevelAt(OrdersOf(nodes), isBuy, key);
      && |UpperBound(nodes, rest, key)| < |rest|
      && ToPrint(nodes, isBuy, printed + [l.(qty := ToInt32(l.qty))], UpperBound(nodes, rest, key))
  {
    hide Narrow, LevelsOf, Levels, LevelAt, Ascending, Ranks;
    var orders := OrdersOf(nodes);
    RanksContinue(nodes, rest, isBuy);
    var x := Least(Ranks(nodes, rest, isBuy));
    var rest' := UpperBound(nodes, rest, Prio(isBuy, x));
    ProperSubsetIsSmaller(rest', rest);
    NarrowFirst(orders, isBuy, x, Ascending(Ranks(nodes, rest', isBuy)), printed);
  }

  lemma NarrowFirst(orders: map<int, Order>, isBuy: bool, x: int, prios: seq<int>, printed: seq<Level>)
    ensures var l := LevelAt(orders, isBuy, Prio(isBuy, x));
      printed + Narrow(LevelsOf(orders, isBuy, [x] + prios))
      == printed + [l.(qty := ToInt32(l.qty))] + Narrow(LevelsOf(orders, isBuy, prios))
  {
    var l := LevelAt(orders, isBuy, Prio(isBuy, x));
    var later := LevelsOf(orders, isBuy, prios);
    assert LevelsOf(orders, isBuy, [x] + prios) == [l] + later;
    assert Narrow([l] + later) == [l.(qty := ToInt32(l.qty))] + Narrow(later);
  }

  lemma ProperSubsetIsSmaller(a: set<int>, b: set<int>)
    requires a < b
    ensures |a| < |b|
  {
    assert |b - a| + |a| == |b|;
    var x := Member(b - a);
  }

  lemma RanksContinue(nodes: map<int, Node>, rest: set<int>, isBuy: bool)
    requires rest <= nodes.Keys && rest != {}
    ensures Ranks(nodes, rest, isBuy) != {}
    ensures var x := Least(Ranks(nodes, rest, isBuy));
      var rest' := UpperBound(nodes, rest, Prio(isBuy, x));
      && rest' < rest
      && Ascending(Ranks(nodes, rest, isBuy)) == [x] + Ascending(Ranks(nodes, rest', isBuy))
  {
    var h0 := Member(rest);
    assert Prio(isBuy, nodes[h0].key) in Ranks(nodes, rest, isBuy);
    var x := Least(Ranks(nodes, rest, isBuy));
    var rest' := UpperBound(nodes, rest, Prio(isBuy, x));
    var h1 :| h1 in rest && Prio(isBuy, nodes[h1].key) == x;
    assert h1 in rest && h1 !in rest';
    assert Ranks(nodes, rest', isBuy) == Ranks(nodes, rest, isBuy) - {x};
  }
}
