/** OrderBookType2.hpp: the order book with incrementally kept price levels. */
module OrderBookType2s {
  import opened Word64
  import opened HashMaps
  import opened Ladder
  import opened AggregatedBook

  /** The reserved key of the id index: the largest 64-bit id, read as a signed number. */
  const NO_ORDER := -1

  datatype BestPrice = BestPrice(bidqty: int, bid: int, ask: int, askqty: int)

  class OrderBookType2 {
    var buy: Side
    var sell: Side
    const orders: HashMap<int, Order>

    ghost predicate Valid()
      reads this, orders
    {
      orders.Valid() && orders.emptyKey == NO_ORDER
    }

    ghost function Snapshot(): Book
      reads this, orders
    {
      Book(buy, sell, orders.View())
    }

    constructor (sizeHint: nat, hasher: int -> Word)
      requires sizeHint <= TOP_BIT
      ensures Valid() && Snapshot() == EMPTY && fresh(orders) && orders.size == 0
    {
      buy, sell := map[], map[];
      orders := new HashMap(hasher, sizeHint, NO_ORDER, Order(true, 0, 0));
    }

    /** `threw` tells of the exception for a new order whose id is in use. */
    method ProcessOrder(m: Message) returns (threw: bool)
      requires Valid() && m.id != NO_ORDER && orders.size < MAX_ENTRIES
      modifies this, orders
      ensures Valid() && orders.size <= old(orders.size) + 1
      ensures threw == Rejects(old(Snapshot()), m)
      ensures threw <==> m.kind == 'N' && m.id in old(orders.View())
      ensures Snapshot() == After(old(Snapshot()), m)
    {
      threw := false;
      match m.kind {
        case 'N' =>
          var _, inserted := orders.Emplace(m.id, m.order);
          if inserted {
            AddNewOrder(m.order);
          } else {
            threw := true;
          }
        case 'M' =>
          var it, inserted := orders.Emplace(m.id, m.order);
          if inserted {
            AddNewOrder(m.order);
          } else {
            ModifyOrder(m.order, orders.buckets[it].second);
          }
        case 'X' =>
          var it := orders.Find(m.id);
          if it == |orders.buckets| {
            return;
          }
          var o := orders.buckets[it].second;
          orders.Erase(it);
          CancelOrder(o);
        case _ =>
      }
    }

    method AddNewOrder(o: Order)
      modifies this
      ensures buy == if o.isBuy then Added(old(buy), Prio(true, o.price), o) else old(buy)
      ensures sell == if o.isBuy then old(sell) else Added(old(sell), Prio(false, o.price), o)
    {
      var side := if o.isBuy then buy else sell;
      var prio := if o.isBuy then -o.price else o.price;
      if prio !in side {
        side := side[prio := Level(0, 0, 0)];
      }
      var l := side[prio];
      Store(o.isBuy, side[prio := Level(o.price, l.qty + o.qty, l.count + 1)]);
    }

    method ModifyOrder(n: Order, o: Order)
      modifies this
      ensures buy == if o.isBuy then Modified(old(buy), n, o) else old(buy)
      ensures sell == if o.isBuy then old(sell) else Modified(old(sell), n, o)
    {
      var side := if o.isBuy then buy else sell;
      var prio := if o.isBuy then -o.price else o.price;
      if n.price != o.price {
        if prio !in side {
          side := side[prio := Level(0, 0, 0)];
        }
        side := side[prio := side[prio].(qty := side[prio].qty - o.qty, count := side[prio].count - 1)];
        if side[prio].qty <= 0 {
          side := side - {prio};
        }
        var newPrio := if n.isBuy then -n.price else n.price;
        if newPrio !in side {
          side := side[newPrio := Level(0, 0, 0)];
        }
        var l := side[newPrio];
        side := side[newPrio := Level(n.price, l.qty + n.qty, l.count + 1)];
      } else if n.qty != o.qty {
        if prio !in side {
          side := side[prio := Level(0, 0, 0)];
        }
        side := side[prio := side[prio].(qty := side[prio].qty + (n.qty - o.qty))];
        if side[prio].qty <= 0 {
          side := side - {prio};
        }
      }
      Store(o.isBuy, side);
    }

    method CancelOrder(o: Order)
      modifies this
      ensures buy == if o.isBuy then Cancelled(old(buy), o) else old(buy)
      ensures sell == if o.isBuy then old(sell) else Cancelled(old(sell), o)
    {
      var side := if o.isBuy then buy else sell;
      var prio := if o.isBuy then -o.price else o.price;
      if prio !in side {
        return;
      }
      side := side[prio := side[prio].(qty := side[prio].qty - o.qty, count := side[prio].count - 1)];
      if side[prio].qty <= 0 {
        side := side - {prio};
      }
      Store(o.isBuy, side);
    }

    /** The updated side takes the place of the one that the reference `side` was bound to. */
    method Store(isBuy: bool, side: Side)
      modifies this
      ensures buy == (if isBuy then side else old(buy)) && sell == (if isBuy then old(sell) else side)
    {
      if isBuy {
        buy := side;
      } else {
        sell := side;
      }
    }

    /**
     The level of the highest bid and that of the lowest ask, or zeros for a side without levels. They are the
     best of any orders that the levels aggregate, be they the indexed ones or not.
     */
    method GetBestPrice() returns (bp: BestPrice)
      requires Valid()
      ensures IsBestLevel(buy, bp.bid, bp.bidqty) && IsBestLevel(sell, bp.ask, bp.askqty)
      ensures forall m: map<int, Order> :: SideAggregates(buy, m, true) ==> IsBest(m, true, bp.bid, bp.bidqty)
      ensures forall m: map<int, Order> :: SideAggregates(sell, m, false) ==> IsBest(m, false, bp.ask, bp.askqty)
    {
      bp := BestPrice(0, 0, 0, 0);
      if buy != map[] {
        var l := buy[Least(buy.Keys)];
        bp := bp.(bidqty := l.qty, bid := l.price);
      }
      if sell != map[] {
        var l := sell[Least(sell.Keys)];
        bp := bp.(askqty := l.qty, ask := l.price);
      }
      LeastIsBestLevel(buy);
      LeastIsBestLevel(sell);
      BestLevelIsBest(buy, true, bp.bid, bp.bidqty);
      BestLevelIsBest(sell, false, bp.ask, bp.askqty);
    }

    /**
     The levels printed for one side: at most ten, walking the side from its best level. They are the top
     ten of any orders that the side aggregates, be they the indexed ones or not.
     */
    method PrintSide(isBuy: bool) returns (printed: seq<Level>)
      requires Valid()
      ensures var side := if isBuy then buy else sell;
        && FirstTen(side, printed)
        && forall m: map<int, Order> :: SideAggregates(side, m, isBuy) ==> printed == TopTen(m, isBuy)
    {
      var side := if isBuy then buy else sell;
      printed := PrintLevels(side);
      WalkIsFirstTen(side);
      FirstTenIsTopTen(side, isBuy, printed);
    }

    static method PrintLevels(side: Side) returns (printed: seq<Level>)
      ensures printed == Take(LevelSeq(side, Ascending(side.Keys)), DEPTH)
    {
      var rest := side.Keys;
      printed := [];
      while rest != {} && |printed| < DEPTH
        invariant rest <= side.Keys && |printed| <= DEPTH
        invariant Walked(side, printed, rest)
        decreases |rest|
      {
        var prio := Least(rest);
        WalkOn(side, printed, rest);
        printed := printed + [side[prio]];
        rest := rest - {prio};
      }
    }
  }

  ghost predicate IsBest(orders: map<int, Order>, isBuy: bool, price: int, qty: int) {
    if forall id :: id in orders ==> orders[id].isBuy != isBuy then price == 0 && qty == 0
    else
      && (exists id :: id in orders && At(orders[id], isBuy, price))
      && (forall id :: id in orders && orders[id].isBuy == isBuy ==> !Better(isBuy, orders[id].price, price))
      && qty == LevelAt(orders, isBuy, price).qty
  }

  /** The level with the smallest key, whose priority is the highest. */
  ghost predicate IsBestLevel(side: Side, price: int, qty: int) {
    if side == map[] then price == 0 && qty == 0
    else exists q :: q in side && (forall r :: r in side ==> q <= r) && side[q].price == price && side[q].qty == qty
  }

  lemma LeastIsBestLevel(side: Side)
    ensures if side == map[] then IsBestLevel(side, 0, 0)
            else IsBestLevel(side, side[Least(side.Keys)].price, side[Least(side.Keys)].qty)
  {
    if side != map[] {
      var q := Least(side.Keys);
      assert q in side && forall r :: r in side ==> q <= r;
    }
  }

  lemma LeastIsBest(side: Side, orders: map<int, Order>, isBuy: bool)
    requires SideAggregates(side, orders, isBuy)
    ensures if side == map[] then IsBest(orders, isBuy, 0, 0)
            else IsBest(orders, isBuy, side[Least(side.Keys)].price, side[Least(side.Keys)].qty)
  {
    assert side.Keys == Prios(orders, isBuy) by { KeysArePrios(side, orders, isBuy); }
    forall id | id in orders && orders[id].isBuy == isBuy
      ensures Prio(isBuy, orders[id].price) in side.Keys
    {
    }
    if side != map[] {
      var q := Least(side.Keys);
      assert LevelIsRight(side, orders, isBuy, q);
      var id := SomeOrder(orders, isBuy, Prio(isBuy, q));
    }
  }

  lemma BestLevelIsBest(side: Side, isBuy: bool, price: int, qty: int)
    requires IsBestLevel(side, price, qty)
    ensures forall m: map<int, Order> :: SideAggregates(side, m, isBuy) ==> IsBest(m, isBuy, price, qty)
  {
    hide IsBest, SideAggregates;
    forall m: map<int, Order> | SideAggregates(side, m, isBuy)
      ensures IsBest(m, isBuy, price, qty)
    {
      LeastIsBest(side, m, isBuy);
      if side != map[] {
        var q :| q in side && (forall r :: r in side ==> q <= r) && side[q].price == price && side[q].qty == qty;
        assert Least(side.Keys) == q;
      }
    }
  }

  /** The first ten levels of a side in the order of its keys, or all of them if they are fewer. */
  ghost predicate FirstTen(side: Side, printed: seq<Level>) {
    exists prios: seq<int> :: IsOrderOf(prios, side) && Lists(prios, side, printed)
  }

  ghost predicate IsOrderOf(prios: seq<int>, side: Side) {
    (forall q :: q in prios <==> q in side) && (forall i, j :: 0 <= i < j < |prios| ==> prios[i] < prios[j])
  }

  ghost predicate Lists(prios: seq<int>, side: Side, printed: seq<Level>) {
    && |printed| == (if |prios| > 10 then 10 else |prios|)
    && (forall i :: 0 <= i < |printed| ==> prios[i] in side && printed[i] == side[prios[i]])
  }

  lemma WalkIsFirstTen(side: Side)
    ensures FirstTen(side, Take(LevelSeq(side, Ascending(side.Keys)), DEPTH))
  {
    var prios, printed := Ascending(side.Keys), Take(LevelSeq(side, Ascending(side.Keys)), DEPTH);
    AscendingIsSorted(side.Keys);
    forall i | 0 <= i < |printed|
      ensures prios[i] in side && printed[i] == side[prios[i]]
    {
      assert prios[i] in prios;
    }
    assert IsOrderOf(prios, side) && Lists(prios, side, printed);
  }

  lemma FirstTenIsTopTen(side: Side, isBuy: bool, printed: seq<Level>)
    requires printed == Take(LevelSeq(side, Ascending(side.Keys)), DEPTH)
    ensures forall m: map<int, Order> :: SideAggregates(side, m, isBuy) ==> printed == TopTen(m, isBuy)
  {
    forall m: map<int, Order> | SideAggregates(side, m, isBuy)
      ensures printed == TopTen(m, isBuy)
    {
      FirstLevelsAreTopTen(side, m, isBuy);
    }
  }

  /**
   After an order is modified on its own side, what GetBestPrice and toString answer is right for the orders
   with the old one replaced, although the index does not hold them.
   */
  lemma AnswersAfterModify(b: Book, id: int, n: Order, isBuy: bool, price: int, qty: int, printed: seq<Level>)
    requires Aggregates(b) && id in b.orders && n.qty > 0 && n.isBuy == b.orders[id].isBuy
    requires IsBestLevel(Modify(b, id, n).Levels(isBuy), price, qty)
    requires FirstTen(Modify(b, id, n).Levels(isBuy), printed)
    ensures IsBest(b.orders[id := n], isBuy, price, qty)
    ensures printed == TopTen(b.orders[id := n], isBuy)
  {
    hide SideAggregates, IsBest, IsBestLevel, FirstTen, Modified;
    var side, m := Modify(b, id, n).Levels(isBuy), b.orders[id := n];
    ModifyReplacesOrder(b, id, n);
    assert SideAggregates(side, m, isBuy);
    BestLevelIsBest(side, isBuy, price, qty);
    WalkIsFirstTen(side);
    FirstTenIsUnique(side, printed, Take(LevelSeq(side, Ascending(side.Keys)), DEPTH));
    FirstLevelsAreTopTen(side, m, isBuy);
  }

  lemma FirstTenIsUnique(side: Side, a: seq<Level>, b: seq<Level>)
    requires FirstTen(side, a) && FirstTen(side, b)
    ensures a == b
  {
    var p: seq<int> :| IsOrderOf(p, side) && Lists(p, side, a);
    var r: seq<int> :| IsOrderOf(r, side) && Lists(r, side, b);
    assert forall q :: q in p <==> q in r;
    SortedIsUnique(p, r);
    hide IsOrderOf;
  }

  lemma {:induction false} SortedIsUnique(p: seq<int>, r: seq<int>)
    requires forall q :: q in p <==> q in r
    requires forall i, j :: 0 <= i < j < |p| ==> p[i] < p[j]
    requires forall i, j :: 0 <= i < j < |r| ==> r[i] < r[j]
    ensures p == r
    decreases |p|
  {
    if p != [] { assert p[0] in p && p[0] in r; }
    if r != [] { assert r[0] in r && r[0] in p; }
    if p != [] {
      assert p[0] == r[0];
      forall q
        ensures q in p[1..] <==> q in r[1..]
      {
        assert q in p <==> q == p[0] || q in p[1..];
        assert q in r <==> q == r[0] || q in r[1..];
      }
      SortedIsUnique(p[1..], r[1..]);
    }
  }

  lemma KeysArePrios(side: Side, orders: map<int, Order>, isBuy: bool)
    requires SideAggregates(side, orders, isBuy)
    ensures side.Keys == Prios(orders, isBuy)
  {
    PriosAreCounted(orders, isBuy);
    forall q
      ensures q in side.Keys <==> q in Prios(orders, isBuy)
    {
      assert LevelIsRight(side, orders, isBuy, q);
    }
  }

  /** The levels printed so far, followed by the rest in order, are all the levels in order. */
  ghost predicate Walked(side: Side, printed: seq<Level>, rest: set<int>)
    requires rest <= side.Keys
  {
    printed + LevelSeq(side, Ascending(rest)) == LevelSeq(side, Ascending(side.Keys))
  }

  ghost function LevelSeq(side: Side, prios: seq<int>): seq<Level> {
    seq(|prios|, i requires 0 <= i < |prios| => Found(side, prios[i]))
  }

  lemma WalkOn(side: Side, printed: seq<Level>, rest: set<int>)
    requires rest <= side.Keys && rest != {} && Walked(side, printed, rest)
    ensures Walked(side, printed + [side[Least(rest)]], rest - {Least(rest)})
  {
    var x := Least(rest);
    assert Ascending(rest) == [x] + Ascending(rest - {x});
    assert LevelSeq(side, Ascending(rest)) == [side[x]] + LevelSeq(side, Ascending(rest - {x}));
  }

  lemma FirstLevelsAreTopTen(side: Side, orders: map<int, Order>, isBuy: bool)
    requires SideAggregates(side, orders, isBuy)
    ensures Take(LevelSeq(side, Ascending(side.Keys)), DEPTH) == TopTen(orders, isBuy)
  {
    var prios := Ascending(side.Keys);
    AscendingIsSorted(side.Keys);
    KeysArePrios(side, orders, isBuy);
    forall i | 0 <= i < |prios|
      ensures Found(side, prios[i]) == LevelAt(orders, isBuy, Prio(isBuy, prios[i]))
    {
      assert LevelIsRight(side, orders, isBuy, prios[i]);
    }
    assert LevelSeq(side, prios) == Levels(orders, isBuy);
  }
}
