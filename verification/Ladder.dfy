/**
 What any of the books has to show for a collection of live orders: the price levels of a side,
 each with the total quantity and the number of its orders, best price first.
 */
module Ladder {
  datatype Order = Order(isBuy: bool, price: int, qty: int)

  datatype Level = Level(price: int, qty: int, count: int)

  /** A message of the feed: 'N' new, 'M' modify, 'X' cancel; other kinds are ignored. */
  datatype Message = Message(kind: char, id: int, token: int, order: Order)

  /** A message that brings an order in has a positive quantity; that of any other message is never read. */
  predicate BringsPositive(m: Message) {
    m.kind == 'N' || m.kind == 'M' ==> m.order.qty > 0
  }

  const DEPTH: nat := 10

  // ---- one level ----

  predicate At(o: Order, isBuy: bool, price: int) {
    o.isBuy == isBuy && o.price == price
  }

  ghost function LevelAt<K>(m: map<K, Order>, isBuy: bool, price: int): (l: Level)
    ensures l.price == price && l.count >= 0
  {
    if m == map[] then Level(price, 0, 0)
    else
      var k :| k in m;
      Join(LevelAt(m - {k}, isBuy, price), m[k], isBuy)
  }

  /** The level with an order joined, if the order is at its price. */
  function Join(l: Level, o: Order, isBuy: bool): Level {
    if At(o, isBuy, l.price) then Level(l.price, l.qty + o.qty, l.count + 1) else l
  }

  /** The level with an order taken out, if the order is at its price. */
  function Leave(l: Level, o: Order, isBuy: bool): Level {
    if At(o, isBuy, l.price) then Level(l.price, l.qty - o.qty, l.count - 1) else l
  }

  lemma {:induction false} LevelWithout<K>(m: map<K, Order>, isBuy: bool, price: int, k: K)
    requires k in m
    ensures LevelAt(m, isBuy, price) == Join(LevelAt(m - {k}, isBuy, price), m[k], isBuy)
  {
    var p :| p in m && LevelAt(m, isBuy, price) == Join(LevelAt(m - {p}, isBuy, price), m[p], isBuy);
    if p != k {
      var rest := m - {p} - {k};
      assert rest == m - {k} - {p};
      LevelWithout(m - {p}, isBuy, price, k);
      LevelWithout(m - {k}, isBuy, price, p);
      assert (m - {p})[k] == m[k] && (m - {k})[p] == m[p];
      assert LevelAt(m - {k}, isBuy, price) == Join(LevelAt(rest, isBuy, price), m[p], isBuy);
      assert LevelAt(m - {p}, isBuy, price) == Join(LevelAt(rest, isBuy, price), m[k], isBuy);
      assert LevelAt(m, isBuy, price) == Join(LevelAt(m - {p}, isBuy, price), m[p], isBuy);
    }
  }

  lemma LevelWith<K>(m: map<K, Order>, isBuy: bool, price: int, k: K, o: Order)
    requires k !in m
    ensures LevelAt(m[k := o], isBuy, price) == Join(LevelAt(m, isBuy, price), o, isBuy)
  {
    LevelWithout(m[k := o], isBuy, price, k);
    assert m[k := o] - {k} == m;
  }

  lemma LevelReplaced<K>(m: map<K, Order>, isBuy: bool, price: int, k: K, o: Order)
    requires k in m
    ensures LevelAt(m[k := o], isBuy, price)
         == Join(Leave(LevelAt(m, isBuy, price), m[k], isBuy), o, isBuy)
  {
    LevelWithout(m, isBuy, price, k);
    LevelWithout(m[k := o], isBuy, price, k);
    assert m[k := o] - {k} == m - {k};
  }

  /** A level counts nothing exactly when no order is at its price; only then is its quantity zero. */
  lemma {:induction false} LevelCounts<K>(m: map<K, Order>, isBuy: bool, price: int)
    ensures LevelAt(m, isBuy, price).count == 0 <==> forall k :: k in m ==> !At(m[k], isBuy, price)
    ensures LevelAt(m, isBuy, price).count == 0 ==> LevelAt(m, isBuy, price).qty == 0
    ensures AllPositive(m) && LevelAt(m, isBuy, price).count > 0 ==> LevelAt(m, isBuy, price).qty > 0
  {
    if m != map[] {
      var k :| k in m && LevelAt(m, isBuy, price) == Join(LevelAt(m - {k}, isBuy, price), m[k], isBuy);
      var rest := m - {k};
      LevelCounts(rest, isBuy, price);
      assert LevelAt(m, isBuy, price) == Join(LevelAt(rest, isBuy, price), m[k], isBuy);
      assert forall j :: j in m ==> j == k || (j in rest && rest[j] == m[j]);
    }
  }

  lemma SomeOrder<K>(m: map<K, Order>, isBuy: bool, price: int) returns (k: K)
    requires LevelAt(m, isBuy, price).count > 0
    ensures k in m && At(m[k], isBuy, price)
  {
    LevelCounts(m, isBuy, price);
    k :| k in m && At(m[k], isBuy, price);
  }

  ghost predicate AllPositive<K>(m: map<K, Order>) {
    forall k :: k in m ==> m[k].qty > 0
  }

  // ---- best first ----

  /** Smaller is better on either side. */
  function Prio(isBuy: bool, price: int): int {
    if isBuy then -price else price
  }

  function Least(s: set<int>): (x: int)
    requires s != {}
    ensures x in s && forall y :: y in s ==> x <= y
  {
    LeastExists(s);
    var x :| x in s && forall y :: y in s ==> x <= y;
    x
  }

  lemma {:induction false} LeastExists(s: set<int>)
    requires s != {}
    ensures exists x :: x in s && forall y :: y in s ==> x <= y
  {
    var z := Member(s);
    var rest := s - {z};
    if rest == {} {
      assert s == {z};
    } else {
      LeastExists(rest);
      var x :| x in rest && forall y :: y in rest ==> x <= y;
      var w := if x <= z then x else z;
      forall y | y in s
        ensures w <= y
      {
        if y != z { assert y in rest; }
      }
    }
  }

  lemma Member<T>(s: set<T>) returns (x: T)
    requires s != {}
    ensures x in s
  {
    x :| x in s;
  }

  function Ascending(s: set<int>): (q: seq<int>)
    ensures |q| == |s|
  {
    if s == {} then [] else [Least(s)] + Ascending(s - {Least(s)})
  }

  lemma {:induction false} AscendingIsSorted(s: set<int>)
    ensures forall i, j :: 0 <= i < j < |Ascending(s)| ==> Ascending(s)[i] < Ascending(s)[j]
    ensures forall x :: x in Ascending(s) <==> x in s
  {
    if s != {} {
      var x := Least(s);
      var rest := s - {x};
      AscendingIsSorted(rest);
      assert Ascending(s) == [x] + Ascending(rest);
      forall i, j | 0 <= i < j < |Ascending(s)|
        ensures Ascending(s)[i] < Ascending(s)[j]
      {
        assert Ascending(s)[j] == Ascending(rest)[j - 1];
        assert Ascending(rest)[j - 1] in rest;
      }
    }
  }

  ghost function Prios<K>(m: map<K, Order>, isBuy: bool): set<int> {
    set k | k in m && m[k].isBuy == isBuy :: Prio(isBuy, m[k].price)
  }

  lemma PrioOf<K>(m: map<K, Order>, isBuy: bool, q: int) returns (k: K)
    requires q in Prios(m, isBuy)
    ensures k in m && m[k].isBuy == isBuy && Prio(isBuy, m[k].price) == q
  {
    k :| k in m && m[k].isBuy == isBuy && Prio(isBuy, m[k].price) == q;
  }

  ghost function LevelsOf<K>(m: map<K, Order>, isBuy: bool, prios: seq<int>): seq<Level> {
    seq(|prios|, i requires 0 <= i < |prios| => LevelAt(m, isBuy, Prio(isBuy, prios[i])))
  }

  /** All levels of a side, best first. */
  ghost function Levels<K>(m: map<K, Order>, isBuy: bool): seq<Level> {
    LevelsOf(m, isBuy, Ascending(Prios(m, isBuy)))
  }

  function Take<T>(s: seq<T>, n: nat): seq<T> {
    if |s| <= n then s else s[..n]
  }

  ghost function TopTen<K>(m: map<K, Order>, isBuy: bool): seq<Level> {
    Take(Levels(m, isBuy), DEPTH)
  }

  predicate Better(isBuy: bool, p: int, q: int) {
    if isBuy then p > q else p < q
  }

  /** The ladder is strictly best-first, shows every price that has an order, and no other price. */
  lemma LadderIsComplete<K>(m: map<K, Order>, isBuy: bool)
    ensures var ls := Levels(m, isBuy);
      && (forall i, j :: 0 <= i < j < |ls| ==> Better(isBuy, ls[i].price, ls[j].price))
      && (forall i :: 0 <= i < |ls| ==> ls[i] == LevelAt(m, isBuy, ls[i].price) && ls[i].count > 0)
      && (forall k :: k in m && m[k].isBuy == isBuy ==>
            exists i :: 0 <= i < |ls| && ls[i].price == m[k].price)
  {
    var prios := Ascending(Prios(m, isBuy));
    var ls := Levels(m, isBuy);
    AscendingIsSorted(Prios(m, isBuy));
    forall i | 0 <= i < |ls|
      ensures ls[i].count > 0
    {
      assert prios[i] in Prios(m, isBuy);
      LevelCounts(m, isBuy, ls[i].price);
    }
    forall k | k in m && m[k].isBuy == isBuy
      ensures exists i :: 0 <= i < |ls| && ls[i].price == m[k].price
    {
      assert Prio(isBuy, m[k].price) in Prios(m, isBuy);
      var i :| 0 <= i < |prios| && prios[i] == Prio(isBuy, m[k].price);
      assert ls[i].price == m[k].price;
    }
  }

  /** What is shown are the first ten of as many levels as there are live prices, or all of them. */
  lemma TopTenIsTen<K>(m: map<K, Order>, isBuy: bool)
    ensures var prices := set k | k in m && m[k].isBuy == isBuy :: m[k].price;
      && |Levels(m, isBuy)| == |prices|
      && |TopTen(m, isBuy)| == (if |prices| > 10 then 10 else |prices|)
    ensures forall i :: 0 <= i < |TopTen(m, isBuy)| ==> TopTen(m, isBuy)[i] == Levels(m, isBuy)[i]
  {
    var prices, ls := set k | k in m && m[k].isBuy == isBuy :: m[k].price, Levels(m, isBuy);
    LadderIsComplete(m, isBuy);
    var listed := set i | 0 <= i < |ls| :: ls[i].price;
    forall p | p in listed
      ensures p in prices
    {
      var i :| 0 <= i < |ls| && ls[i].price == p;
      var k := SomeOrder(m, isBuy, p);
    }
    assert listed == prices;
    PricesOfLevels(ls, |ls|);
  }

  lemma {:induction false} PricesOfLevels(ls: seq<Level>, n: nat)
    requires n <= |ls| && forall i, j :: 0 <= i < j < |ls| ==> ls[i].price != ls[j].price
    ensures |set i | 0 <= i < n :: ls[i].price| == n
  {
    if n > 0 {
      PricesOfLevels(ls, n - 1);
      var before := set i | 0 <= i < n - 1 :: ls[i].price;
      assert (set i | 0 <= i < n :: ls[i].price) == before + {ls[n - 1].price};
    }
  }

  /** Two collections of orders with equal levels at every price have equal ladders. */
  lemma EqualLevelsEqualLadders<J, K>(m: map<J, Order>, n: map<K, Order>, isBuy: bool)
    requires forall p :: LevelAt(m, isBuy, p) == LevelAt(n, isBuy, p)
    ensures Levels(m, isBuy) == Levels(n, isBuy)
  {
    EqualLevelsEqualPrios(m, n, isBuy);
    hide Prios, Ascending, LevelAt;
    assert |Levels(m, isBuy)| == |Levels(n, isBuy)|;
  }

  lemma EqualLevelsEqualPrios<J, K>(m: map<J, Order>, n: map<K, Order>, isBuy: bool)
    requires forall p :: LevelAt(m, isBuy, p) == LevelAt(n, isBuy, p)
    ensures Prios(m, isBuy) == Prios(n, isBuy)
  {
    PriosAreCounted(m, isBuy);
    PriosAreCounted(n, isBuy);
    hide Prios, LevelAt;
    forall q
      ensures q in Prios(m, isBuy) <==> q in Prios(n, isBuy)
    {
      assert LevelAt(m, isBuy, Prio(isBuy, q)) == LevelAt(n, isBuy, Prio(isBuy, q));
    }
  }

  lemma PriosAreCounted<K>(m: map<K, Order>, isBuy: bool)
    ensures forall q :: q in Prios(m, isBuy) <==> LevelAt(m, isBuy, Prio(isBuy, q)).count > 0
  {
    forall q
      ensures q in Prios(m, isBuy) <==> LevelAt(m, isBuy, Prio(isBuy, q)).count > 0
    {
      LevelCounts(m, isBuy, Prio(isBuy, q));
    }
  }

  // ---- totals ----

  ghost function Total<K>(m: map<K, Order>): int {
    if m == map[] then 0
    else
      var k :| k in m;
      Total(m - {k}) + m[k].qty
  }

  lemma {:induction false} TotalWithout<K>(m: map<K, Order>, k: K)
    requires k in m
    ensures Total(m) == Total(m - {k}) + m[k].qty
  {
    var p :| p in m && Total(m) == Total(m - {p}) + m[p].qty;
    if p != k {
      TotalWithout(m - {p}, k);
      TotalWithout(m - {k}, p);
      assert m - {p} - {k} == m - {k} - {p};
    }
  }

  lemma TotalWith<K>(m: map<K, Order>, k: K, o: Order)
    ensures Total(m[k := o]) == Total(m - {k}) + o.qty
  {
    TotalWithout(m[k := o], k);
    assert m[k := o] - {k} == m - {k};
  }
}
