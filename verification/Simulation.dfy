/** The two order books, fed the same messages, show the same ladder. */
module Simulation {
  import opened Ladder
  import M = MultimapBook
  import A = AggregatedBook
  import I = OrderBookImproveds

  /** The books know the same orders, each on its own side, under the same ids. */
  ghost predicate SameOrders(mb: M.Book, ab: A.Book)
    requires M.Sound(mb)
  {
    && (forall id :: id in ab.orders ==> Holds(mb.On(ab.orders[id].isBuy), id, ab.orders[id]))
    && (forall id :: id in mb.bids.index ==> id in ab.orders && ab.orders[id].isBuy)
    && (forall id :: id in mb.asks.index ==> id in ab.orders && !ab.orders[id].isBuy)
  }

  ghost predicate Holds(s: M.Side, id: int, o: Order) {
    id in s.index && s.index[id] in s.nodes && s.nodes[s.index[id]].order == o
  }

  ghost predicate SameLevels(mb: M.Book, ab: A.Book) {
    forall isBuy, p :: LevelAt(M.Orders(mb.On(isBuy)), isBuy, p) == LevelAt(ab.orders, isBuy, p)
  }

  ghost predicate Same(mb: M.Book, ab: A.Book) {
    && M.Sound(mb) && M.Bijective(mb) && A.Aggregates(ab)
    && SameOrders(mb, ab) && SameLevels(mb, ab)
  }

  /** New and modify messages carry an id that is not live; a cancel names the resting side. */
  predicate Agreeable(ab: A.Book, m: Message) {
    && (m.kind == 'N' ==> m.id !in ab.orders)
    && (m.kind == 'X' && m.id in ab.orders ==> ab.orders[m.id].isBuy == m.order.isBuy)
  }

  predicate Heeded(m: Message) {
    m.kind == 'N' || m.kind == 'M' || m.kind == 'X'
  }

  // ---- one message ----

  lemma AddKeepsLevels(s: M.Side, orders: map<int, Order>, isBuy: bool, next: int, id: int, o: Order, p: int)
    requires M.SideSound(s, isBuy, next) && id !in orders
    requires LevelAt(M.Orders(s), isBuy, p) == LevelAt(orders, isBuy, p)
    ensures LevelAt(M.Orders(M.Inserted(s, next, id, o)), isBuy, p) == LevelAt(orders[id := o], isBuy, p)
  {
    LevelWith(M.Orders(s), isBuy, p, next, o);
    assert M.Orders(M.Inserted(s, next, id, o)) == M.Orders(s)[next := o];
    LevelWith(orders, isBuy, p, id, o);
  }

  lemma CancelKeepsLevels(s: M.Side, orders: map<int, Order>, isBuy: bool, id: int, p: int)
    requires id in orders && Holds(s, id, orders[id])
    requires LevelAt(M.Orders(s), isBuy, p) == LevelAt(orders, isBuy, p)
    ensures LevelAt(M.Orders(M.Removed(s, id)), isBuy, p) == LevelAt(orders - {id}, isBuy, p)
  {
    LevelWithout(M.Orders(s), isBuy, p, s.index[id]);
    assert M.Orders(M.Removed(s, id)) == M.Orders(s) - {s.index[id]};
    LevelWithout(orders, isBuy, p, id);
  }

  lemma ModifyKeepsLevels(s: M.Side, orders: map<int, Order>, isBuy: bool, next: int, id: int, n: Order, p: int)
    requires M.SideSound(s, isBuy, next) && id in orders && Holds(s, id, orders[id]) && n.isBuy == isBuy
    requires LevelAt(M.Orders(s), isBuy, p) == LevelAt(orders, isBuy, p)
    ensures LevelAt(M.Orders(M.Modified(s, next, id, n)), isBuy, p) == LevelAt(orders[id := n], isBuy, p)
  {
    var h := s.index[id];
    var rest := M.Orders(s) - {h};
    LevelWithout(M.Orders(s), isBuy, p, h);
    LevelReplaced(orders, isBuy, p, id, n);
    if M.Moves(s, id, n) {
      LevelWith(rest, isBuy, p, next, n);
      assert M.Orders(M.Modified(s, next, id, n)) == rest[next := n];
    } else {
      LevelWith(rest, isBuy, p, h, n);
      assert M.Orders(M.Modified(s, next, id, n)) == rest[h := n];
    }
  }

  lemma OtherSide(orders: map<int, Order>, isBuy: bool, id: int, o: Order, p: int)
    requires o.isBuy != isBuy && (id in orders ==> orders[id].isBuy != isBuy)
    ensures LevelAt(orders[id := o], isBuy, p) == LevelAt(orders, isBuy, p)
    ensures LevelAt(orders - {id}, isBuy, p) == LevelAt(orders, isBuy, p)
  {
    if id in orders {
      LevelReplaced(orders, isBuy, p, id, o);
      LevelWithout(orders, isBuy, p, id);
    } else {
      LevelWith(orders, isBuy, p, id, o);
      assert orders - {id} == orders;
    }
  }

  lemma StepSameLevels(mb: M.Book, ab: A.Book, m: Message)
    requires Same(mb, ab) && A.Plain(ab, m) && Agreeable(ab, m)
    ensures SameLevels(M.AfterOrder(mb, m), A.After(ab, m))
  {
    var mb', ab' := M.AfterOrder(mb, m), A.After(ab, m);
    forall isBuy, p
      ensures LevelAt(M.Orders(mb'.On(isBuy)), isBuy, p) == LevelAt(ab'.orders, isBuy, p)
    {
      var s := mb.On(isBuy);
      assert LevelAt(M.Orders(s), isBuy, p) == LevelAt(ab.orders, isBuy, p);
      assert M.SideSound(s, isBuy, mb.next);
      if !Heeded(m) || (m.kind == 'X' && m.id !in ab.orders) {
        assert mb'.On(isBuy) == s && ab' == ab;
      } else if m.order.isBuy != isBuy {
        OtherSide(ab.orders, isBuy, m.id, m.order, p);
      } else if m.id !in ab.orders {
        assert m.id !in s.index;
        AddKeepsLevels(s, ab.orders, isBuy, mb.next, m.id, m.order, p);
      } else {
        CancelKeepsLevels(s, ab.orders, isBuy, m.id, p);
      }
    }
  }

  lemma StepSameOrders(mb: M.Book, ab: A.Book, m: Message)
    requires Same(mb, ab) && A.Plain(ab, m) && Agreeable(ab, m)
    ensures M.Sound(M.AfterOrder(mb, m)) && SameOrders(M.AfterOrder(mb, m), A.After(ab, m))
  {
    M.StepSound(mb, M.OrderEvent(m));
    var mb', ab' := M.AfterOrder(mb, m), A.After(ab, m);
    forall id | id in ab'.orders
      ensures Holds(mb'.On(ab'.orders[id].isBuy), id, ab'.orders[id])
    {
      if id in ab.orders {
        assert Holds(mb.On(ab.orders[id].isBuy), id, ab.orders[id]);
      }
    }
  }

  lemma StepSame(mb: M.Book, ab: A.Book, m: Message)
    requires Same(mb, ab) && A.Plain(ab, m) && Agreeable(ab, m)
    ensures Same(M.AfterOrder(mb, m), A.After(ab, m))
  {
    StepSameOrders(mb, ab, m);
    StepSameLevels(mb, ab, m);
    M.StepBijective(mb, M.OrderEvent(m));
    A.StepAggregates(ab, m);
  }

  /** A duplicate new order counts twice in one book and once in the other. */
  lemma DuplicateParts(mb: M.Book, ab: A.Book, m: Message)
    requires Same(mb, ab) && m.kind == 'N' && m.id in ab.orders
    ensures !SameLevels(M.AfterOrder(mb, m), A.After(ab, m))
  {
    var mb', o := M.AfterOrder(mb, m), m.order;
    var s := mb.On(o.isBuy);
    assert M.SideSound(s, o.isBuy, mb.next);
    assert LevelAt(M.Orders(s), o.isBuy, o.price) == LevelAt(ab.orders, o.isBuy, o.price);
    LevelWith(M.Orders(s), o.isBuy, o.price, mb.next, o);
    assert M.Orders(mb'.On(o.isBuy)) == M.Orders(s)[mb.next := o];
    assert A.After(ab, m) == ab;
    hide Same, M.Orders, M.AfterOrder, A.After;
    assert LevelAt(M.Orders(mb'.On(o.isBuy)), o.isBuy, o.price) != LevelAt(ab.orders, o.isBuy, o.price);
  }

  /** A cancel that names the wrong side is heeded by one book and ignored by the other. */
  lemma CrossCancelParts(mb: M.Book, ab: A.Book, m: Message)
    requires Same(mb, ab) && m.kind == 'X' && m.id in ab.orders && ab.orders[m.id].isBuy != m.order.isBuy
    ensures !SameLevels(M.AfterOrder(mb, m), A.After(ab, m))
  {
    var mb', ab', o := M.AfterOrder(mb, m), A.After(ab, m), ab.orders[m.id];
    assert m.id !in mb.On(m.order.isBuy).index && mb' == mb;
    LevelWithout(ab.orders, o.isBuy, o.price, m.id);
    assert ab'.orders == ab.orders - {m.id};
    assert LevelAt(M.Orders(mb.On(o.isBuy)), o.isBuy, o.price) == LevelAt(ab.orders, o.isBuy, o.price);
    hide Same, M.Orders, M.AfterOrder, A.After;
    assert LevelAt(M.Orders(mb'.On(o.isBuy)), o.isBuy, o.price) != LevelAt(ab'.orders, o.isBuy, o.price);
  }

  /** Exactly the disagreeable messages drive the two ladders apart. */
  lemma StepSameIff(mb: M.Book, ab: A.Book, m: Message)
    requires Same(mb, ab) && A.Plain(ab, m)
    ensures M.Sound(mb) && (SameLevels(M.AfterOrder(mb, m), A.After(ab, m)) <==> Agreeable(ab, m))
  {
    assert M.Sound(mb);
    hide Same, SameLevels, M.AfterOrder, A.After;
    if Agreeable(ab, m) {
      StepSameLevels(mb, ab, m);
    } else if m.kind == 'N' {
      DuplicateParts(mb, ab, m);
    } else {
      CrossCancelParts(mb, ab, m);
    }
  }

  /** A modification of a live order on its own side moves the multimap book to the levels of the modified orders. */
  lemma ModifyMovesLevels(mb: M.Book, ab: A.Book, m: Message, isBuy: bool, p: int)
    requires Same(mb, ab) && m.kind == 'M' && m.id in ab.orders && m.order.isBuy == ab.orders[m.id].isBuy
    ensures LevelAt(M.Orders(M.AfterOrder(mb, m).On(isBuy)), isBuy, p)
         == LevelAt(ab.orders[m.id := m.order], isBuy, p)
  {
    var s := mb.On(isBuy);
    assert LevelAt(M.Orders(s), isBuy, p) == LevelAt(ab.orders, isBuy, p);
    assert M.SideSound(s, isBuy, mb.next);
    if m.order.isBuy != isBuy {
      OtherSide(ab.orders, isBuy, m.id, m.order, p);
    } else {
      ModifyKeepsLevels(s, ab.orders, isBuy, mb.next, m.id, m.order, p);
    }
  }

  /** So it does the aggregated book, although the index of that book still holds the old order. */
  lemma ModifyAgreesOnce(mb: M.Book, ab: A.Book, m: Message, isBuy: bool, p: int)
    requires Same(mb, ab) && m.kind == 'M' && m.id in ab.orders
    requires m.order.qty > 0 && m.order.isBuy == ab.orders[m.id].isBuy
    ensures var modified := ab.orders[m.id := m.order];
      && LevelAt(M.Orders(M.AfterOrder(mb, m).On(isBuy)), isBuy, p) == LevelAt(modified, isBuy, p)
      && A.Aggregates(A.After(ab, m).(orders := modified))
  {
    A.ModifyReplacesOrder(ab, m.id, m.order);
    ModifyMovesLevels(mb, ab, m, isBuy, p);
  }

  /** The levels of the aggregated book are those of the orders in the multimap book. */
  ghost predicate LevelsShow(mb: M.Book, ab: A.Book) {
    forall isBuy :: A.SideAggregates(ab.Levels(isBuy), M.Orders(mb.On(isBuy)), isBuy)
  }

  /**
   A live order is modified and then cancelled: the books show the same again exactly if the
   modification changed nothing, or left an order that is alone at its price no larger.
   */
  lemma ModifyThenCancelIff(mb: M.Book, ab: A.Book, m: Message, x: Message)
    requires Same(mb, ab) && m.kind == 'M' && x.kind == 'X' && m.id == x.id && m.id in ab.orders
    requires m.order.isBuy == x.order.isBuy == ab.orders[m.id].isBuy
    ensures var o, rest := ab.orders[m.id], ab.orders - {m.id};
      M.Sound(M.AfterOrder(mb, m)) &&
      (LevelsShow(M.AfterOrder(M.AfterOrder(mb, m), x), A.After(A.After(ab, m), x)) <==>
       m.order == o || A.ShrinksAlone(o, m.order, LevelAt(rest, o.isBuy, o.price).count))
  {
    M.StepSound(mb, M.OrderEvent(m));
    var mb', ab' := M.AfterOrder(M.AfterOrder(mb, m), x), A.After(A.After(ab, m), x);
    var rest := ab.orders - {m.id};
    assert ab'.orders == rest;
    forall isBuy
      ensures A.SideAggregates(ab'.Levels(isBuy), M.Orders(mb'.On(isBuy)), isBuy)
         <==> A.SideAggregates(ab'.Levels(isBuy), rest, isBuy)
    {
      forall q
        ensures A.LevelIsRight(ab'.Levels(isBuy), M.Orders(mb'.On(isBuy)), isBuy, q)
           <==> A.LevelIsRight(ab'.Levels(isBuy), rest, isBuy, q)
      {
        ModifiedThenCancelled(mb, ab, m, x, isBuy, Prio(isBuy, q));
      }
    }
    assert AllPositive(rest);
    A.ModifyThenCancelIff(ab, m.id, m.order);
    hide A.SideAggregates, A.After, M.AfterOrder, M.Orders;
    assert LevelsShow(mb', ab') <==>
      A.SideAggregates(ab'.Levels(true), M.Orders(mb'.On(true)), true) &&
      A.SideAggregates(ab'.Levels(false), M.Orders(mb'.On(false)), false);
    assert ab'.Levels(true) == ab'.buy && ab'.Levels(false) == ab'.sell;
  }

  lemma ModifiedThenCancelled(mb: M.Book, ab: A.Book, m: Message, x: Message, isBuy: bool, p: int)
    requires Same(mb, ab) && m.kind == 'M' && x.kind == 'X' && m.id == x.id && m.id in ab.orders
    requires m.order.isBuy == x.order.isBuy == ab.orders[m.id].isBuy
    ensures M.Sound(M.AfterOrder(mb, m))
    ensures LevelAt(M.Orders(M.AfterOrder(M.AfterOrder(mb, m), x).On(isBuy)), isBuy, p)
         == LevelAt(ab.orders - {m.id}, isBuy, p)
  {
    M.StepSound(mb, M.OrderEvent(m));
    ModifyMovesLevels(mb, ab, m, isBuy, p);
    var s, modified := M.AfterOrder(mb, m).On(isBuy), ab.orders[m.id := m.order];
    assert modified - {m.id} == ab.orders - {m.id};
    if m.order.isBuy == isBuy {
      assert Holds(mb.On(isBuy), m.id, ab.orders[m.id]);
      assert Holds(s, m.id, m.order);
      CancelKeepsLevels(s, modified, isBuy, m.id, p);
    } else {
      OtherSide(modified, isBuy, m.id, m.order, p);
    }
  }

  // ---- runs ----

  predicate AgreeableRun(ab: A.Book, ms: seq<Message>)
    decreases ms
  {
    ms != [] ==> A.Plain(ab, ms[0]) && Agreeable(ab, ms[0]) && AgreeableRun(A.After(ab, ms[0]), ms[1..])
  }

  ghost function Feed(mb: M.Book, ms: seq<Message>): M.Book
    requires M.Sound(mb)
    decreases ms
  {
    if ms == [] then mb
    else
      M.StepSound(mb, M.OrderEvent(ms[0]));
      Feed(M.AfterOrder(mb, ms[0]), ms[1..])
  }

  lemma {:induction false} RunSame(mb: M.Book, ab: A.Book, ms: seq<Message>)
    requires Same(mb, ab) && AgreeableRun(ab, ms)
    ensures Same(Feed(mb, ms), A.Run(ab, ms))
    decreases ms
  {
    if ms != [] {
      M.StepSound(mb, M.OrderEvent(ms[0]));
      StepSame(mb, ab, ms[0]);
      RunSame(M.AfterOrder(mb, ms[0]), A.After(ab, ms[0]), ms[1..]);
    }
  }

  /** Before and after every message the books have the same levels. */
  ghost predicate SameThroughout(mb: M.Book, ab: A.Book, ms: seq<Message>)
    requires M.Sound(mb)
    decreases ms
  {
    && SameLevels(mb, ab)
    && (ms != [] ==>
          (M.StepSound(mb, M.OrderEvent(ms[0]));
           SameThroughout(M.AfterOrder(mb, ms[0]), A.After(ab, ms[0]), ms[1..])))
  }

  lemma {:induction false} RunSameIff(mb: M.Book, ab: A.Book, ms: seq<Message>)
    requires Same(mb, ab) && A.PlainRun(ab, ms)
    ensures SameThroughout(mb, ab, ms) <==> AgreeableRun(ab, ms)
    decreases ms
  {
    if ms != [] {
      M.StepSound(mb, M.OrderEvent(ms[0]));
      StepSameIff(mb, ab, ms[0]);
      var mb', ab' := M.AfterOrder(mb, ms[0]), A.After(ab, ms[0]);
      if Agreeable(ab, ms[0]) {
        StepSame(mb, ab, ms[0]);
        RunSameIff(mb', ab', ms[1..]);
      } else {
        assert !SameThroughout(mb', ab', ms[1..]);
      }
    }
  }

  /** On plain messages, the books have the same levels all along exactly if every message is agreeable. */
  lemma BooksStayTogetherIff(ms: seq<Message>)
    requires A.PlainRun(A.EMPTY, ms)
    ensures SameThroughout(M.EMPTY, A.EMPTY, ms) <==> AgreeableRun(A.EMPTY, ms)
  {
    StartSame();
    RunSameIff(M.EMPTY, A.EMPTY, ms);
  }

  /** On every agreeable run from empty books, the ten best levels of each side are the same. */
  lemma BooksShowTheSame(ms: seq<Message>, isBuy: bool)
    requires AgreeableRun(A.EMPTY, ms)
    ensures var mb, ab := Feed(M.EMPTY, ms), A.Run(A.EMPTY, ms);
      Same(mb, ab) && TopTen(M.Orders(mb.On(isBuy)), isBuy) == TopTen(ab.orders, isBuy)
  {
    StartSame();
    RunSame(M.EMPTY, A.EMPTY, ms);
    var mb, ab := Feed(M.EMPTY, ms), A.Run(A.EMPTY, ms);
    EqualLevelsEqualLadders(M.Orders(mb.On(isBuy)), ab.orders, isBuy);
  }

  lemma StartSame()
    ensures Same(M.EMPTY, A.EMPTY)
  {
    assert M.Orders(M.EMPTY.bids) == map[] && M.Orders(M.EMPTY.asks) == map[];
  }

  predicate Fits32(ls: seq<Level>) {
    forall i :: 0 <= i < |ls| ==> -0x8000_0000 <= ls[i].qty < 0x8000_0000
  }

  /**
   What the books print for a side agrees exactly when the level totals among the best ten fit the
   32 bits in which the multimap book sums them.
   */
  lemma PrintsAgreeIff(ms: seq<Message>, isBuy: bool)
    requires AgreeableRun(A.EMPTY, ms)
    ensures var mb, ab := Feed(M.EMPTY, ms), A.Run(A.EMPTY, ms);
      I.Narrow(TopTen(M.Orders(mb.On(isBuy)), isBuy)) == TopTen(ab.orders, isBuy)
      <==> Fits32(TopTen(ab.orders, isBuy))
  {
    BooksShowTheSame(ms, isBuy);
    NarrowKeepsIff(TopTen(A.Run(A.EMPTY, ms).orders, isBuy));
  }

  lemma NarrowKeepsIff(ls: seq<Level>)
    ensures I.Narrow(ls) == ls <==> Fits32(ls)
  {
    if Fits32(ls) {
      assert I.Narrow(ls) == ls;
    } else {
      var i :| 0 <= i < |ls| && !(-0x8000_0000 <= ls[i].qty < 0x8000_0000);
      assert I.Narrow(ls)[i].qty != ls[i].qty;
    }
  }

  /** Two orders that fit 32 bits, and a level that does not: what the books print differs. */
  lemma TwoOrdersOverflow(ms: seq<Message>)
    requires ms == [Message('N', 1, 7, Order(true, 100, 0x7FFF_FFFF)), Message('N', 2, 7, Order(true, 100, 1))]
    ensures AgreeableRun(A.EMPTY, ms)
    ensures var mb, ab := Feed(M.EMPTY, ms), A.Run(A.EMPTY, ms);
      && TopTen(ab.orders, true) == [Level(100, 0x8000_0000, 2)]
      && I.Narrow(TopTen(M.Orders(mb.On(true)), true)) == [Level(100, -0x8000_0000, 2)]
  {
    var a1 := A.After(A.EMPTY, ms[0]);
    var a2 := A.After(a1, ms[1]);
    assert ms[1..][1..] == [];
    assert a1.orders == map[1 := ms[0].order] && a2.orders == map[1 := ms[0].order, 2 := ms[1].order];
    assert A.Run(A.EMPTY, ms) == A.Run(a1, ms[1..]) == A.Run(a2, ms[1..][1..]) == a2;
    assert AgreeableRun(a2, ms[1..][1..]) && AgreeableRun(a1, ms[1..]) && AgreeableRun(A.EMPTY, ms);
    hide A.After, AgreeableRun, A.Run, Feed, TopTen;
    BooksShowTheSame(ms, true);
    TwoOrdersAtOnePrice(a2.orders, ms[0].order, ms[1].order);
  }

  lemma TwoOrdersAtOnePrice(orders: map<int, Order>, o: Order, u: Order)
    requires orders == map[1 := o, 2 := u] && o.isBuy && u.isBuy && o.price == u.price == 100
    ensures TopTen(orders, true) == [Level(100, o.qty + u.qty, 2)]
  {
    var first := map[1 := o];
    assert first == map[][1 := o] && orders == first[2 := u];
    LevelWith(map[], true, 100, 1, o);
    LevelWith(first, true, 100, 2, u);
    assert Prios(orders, true) == {-100} by {
      assert orders[1] == o;
      assert Prio(true, orders[1].price) == -100;
    }
    assert {-100} - {-100} == {};
    assert Ascending({-100}) == [-100] + Ascending({-100} - {-100});
  }

  /**
   A concrete run beyond the agreeable ones: a price change, then a cancel. The aggregated book takes
   the old price off and is left with the new level, although no order is known; the multimap book is empty.
   */
  lemma ModifyThenCancelParts(ms: seq<Message>)
    requires ms == [Message('N', 1, 7, Order(true, 100, 5)),
                    Message('M', 1, 7, Order(true, 101, 5)),
                    Message('X', 1, 7, Order(true, 101, 5))]
    ensures A.Run(A.EMPTY, ms) == A.Book(map[-101 := Level(101, 5, 1)], map[], map[])
    ensures Feed(M.EMPTY, ms).bids == M.Side(map[], map[]) && Feed(M.EMPTY, ms).asks == M.Side(map[], map[])
  {
    var a1 := A.After(A.EMPTY, ms[0]);
    var a2 := A.After(a1, ms[1]);
    var a3 := A.After(a2, ms[2]);
    assert a1 == A.Book(map[-100 := Level(100, 5, 1)], map[], map[1 := Order(true, 100, 5)]);
    assert a2 == A.Book(map[-101 := Level(101, 5, 1)], map[], map[1 := Order(true, 100, 5)]);
    assert a3 == A.Book(map[-101 := Level(101, 5, 1)], map[], map[]);
    assert ms[1..][1..][1..] == [];
    assert A.Run(A.EMPTY, ms) == A.Run(a1, ms[1..]) == A.Run(a2, ms[1..][1..]) == A.Run(a3, ms[1..][1..][1..]);
    M.StepSound(M.EMPTY, M.OrderEvent(ms[0]));
    var m1 := M.AfterOrder(M.EMPTY, ms[0]);
    M.StepSound(m1, M.OrderEvent(ms[1]));
    var m2 := M.AfterOrder(m1, ms[1]);
    M.StepSound(m2, M.OrderEvent(ms[2]));
    var m3 := M.AfterOrder(m2, ms[2]);
    assert m3.bids == M.Side(map[], map[]);
    assert Feed(M.EMPTY, ms) == Feed(m1, ms[1..]) == Feed(m2, ms[1..][1..]) == Feed(m3, ms[1..][1..][1..]);
  }
}
