/** OrderBookManagerType2 of OrderBookManager.hpp: one order book a subscribed instrument. */
module BookRouting {
  import opened Ladder
  import A = AggregatedBook

  const MAXSECURITIES: nat := 32767

  /** The books by token, as a client sees them. */
  type Desk = map<int, A.Book>

  datatype Event = Subscribe(token: int) | Deliver(m: Message)

  predicate Throws(d: Desk, e: Event) {
    match e
    case Subscribe(token) => token !in d && |d| == MAXSECURITIES
    case Deliver(m) => m.token in d ==> A.Rejects(d[m.token], m)
  }

  function After(d: Desk, e: Event): Desk {
    match e
    case Subscribe(token) => if token in d || |d| == MAXSECURITIES then d else d[token := A.EMPTY]
    case Deliver(m) => if m.token in d then d[m.token := A.After(d[m.token], m)] else d
  }

  /** A subscription fails exactly if it would open one book more than 32767; a token with a book keeps it. */
  lemma SubscribeOutcome(d: Desk, token: int)
    ensures Throws(d, Subscribe(token)) <==> token !in d && |d| == 32767
    ensures After(d, Subscribe(token)) ==
      if token in d then d else if |d| == 32767 then d else d[token := A.EMPTY]
  {
  }

  /** A message is refused exactly if its token has no book, or if it is a new order whose id the book knows. */
  lemma DeliverOutcome(d: Desk, m: Message)
    ensures Throws(d, Deliver(m)) <==> m.token !in d || (m.kind == 'N' && m.id in d[m.token].orders)
    ensures After(d, Deliver(m)).Keys == d.Keys
    ensures forall t :: t in d ==>
              After(d, Deliver(m))[t] == if t == m.token then A.After(d[t], m) else d[t]
  {
  }

  function Run(d: Desk, es: seq<Event>): Desk
    decreases es
  {
    if es == [] then d else Run(After(d, es[0]), es[1..])
  }

  /** The messages of one token that are delivered once it is subscribed. */
  function FeedOf(d: Desk, es: seq<Event>, token: int): seq<Message>
    decreases es
  {
    if es == [] then []
    else
      (if es[0].Deliver? && es[0].m.token == token && token in d then [es[0].m] else [])
      + FeedOf(After(d, es[0]), es[1..], token)
  }

  lemma {:induction false} RoutesFrom(d: Desk, es: seq<Event>, token: int)
    ensures token in Run(d, es) ==>
      Run(d, es)[token] == A.Run(if token in d then d[token] else A.EMPTY, FeedOf(d, es, token))
    ensures token in d ==> token in Run(d, es)
    decreases es
  {
    if es != [] {
      var d' := After(d, es[0]);
      RoutesFrom(d', es[1..], token);
      if es[0].Deliver? && es[0].m.token == token && token in d {
        var rest := FeedOf(d', es[1..], token);
        assert ([es[0].m] + rest)[1..] == rest;
      } else {
        assert FeedOf(d, es, token) == FeedOf(d', es[1..], token);
      }
    }
  }

  lemma {:induction false} RunConcat(d: Desk, es: seq<Event>, more: seq<Event>)
    ensures Run(d, es + more) == Run(Run(d, es), more)
    decreases es
  {
    if es == [] {
      assert es + more == more;
    } else {
      assert (es + more)[1..] == es[1..] + more && (es + more)[0] == es[0];
      RunConcat(After(d, es[0]), es[1..], more);
    }
  }

  /** A run never opens more than 32767 books, and never closes one. */
  lemma {:induction false} BooksStayOpen(d: Desk, es: seq<Event>)
    requires |d| <= 32767
    ensures d.Keys <= Run(d, es).Keys && |Run(d, es)| <= 32767
    decreases es
  {
    if es != [] { BooksStayOpen(After(d, es[0]), es[1..]); }
  }

  /** Once a subscription of a token has succeeded, every later one yields the book, and changes nothing. */
  lemma LaterSubscriptionsYield(before: seq<Event>, between: seq<Event>, token: int)
    requires !Throws(Run(map[], before), Subscribe(token))
    ensures var d := Run(map[], before + [Subscribe(token)] + between);
      token in d && !Throws(d, Subscribe(token)) && After(d, Subscribe(token)) == d
  {
    var d := Run(map[], before);
    BooksStayOpen(map[], before);
    SubscribeOutcome(d, token);
    RunConcat(map[], before, [Subscribe(token)]);
    RunConcat(map[], before + [Subscribe(token)], between);
    var d' := After(d, Subscribe(token));
    assert Run(d, [Subscribe(token)]) == d' by {
      assert [Subscribe(token)][1..] == [];
    }
    BooksStayOpen(d', between);
    SubscribeOutcome(Run(d', between), token);
  }

  /** Whatever else runs through the manager, a token's book is that of a fresh book fed its messages alone. */
  lemma EachBookSeesItsOwnFeed(es: seq<Event>, token: int)
    ensures token in Run(map[], es) ==>
      Run(map[], es)[token] == A.Run(A.EMPTY, FeedOf(map[], es, token))
  {
    RoutesFrom(map[], es, token);
  }
}

module OrderBookManagers {
  import opened Word64
  import opened HashMaps
  import opened Ladder
  import opened OrderBookType2s
  import opened BookRouting
  import A = AggregatedBook

  const NO_TOKEN := 0

  /** A 16-bit value read back as a signed one. */
  function ToInt16(x: int): int {
    (x + 0x8000) % 0x1_0000 - 0x8000
  }

  /** Positions survive the 16 bits in which they are read back exactly if there are at most 32768. */
  lemma LimitFits16(n: nat)
    ensures (forall i :: 0 <= i < n ==> ToInt16(i) == i) <==> n <= 32768
    ensures MAXSECURITIES == 32767
  {
    if n > 32768 {
      assert ToInt16(32768) != 32768;
    }
  }

  class OrderBookManager {
    const sizeHint: nat
    const hasher: int -> Word
    var books: seq<OrderBookType2>
    /** From token to the position of its book. */
    const symbols: HashMap<int, int>

    ghost predicate Valid()
      reads this, symbols, books, set b | b in books :: b.orders
    {
      && sizeHint <= TOP_BIT
      && symbols.Valid() && symbols.emptyKey == NO_TOKEN
      && |books| == symbols.size <= MAXSECURITIES
      && BooksValid(books) && Apart(books)
      && Placed(symbols.View(), |books|)
    }

    static ghost predicate BooksValid(books: seq<OrderBookType2>)
      reads books, set b | b in books :: b.orders
    {
      forall i :: 0 <= i < |books| ==> books[i].Valid()
    }

    static ghost predicate Apart(books: seq<OrderBookType2>) {
      forall i, j :: 0 <= i < |books| && 0 <= j < |books| && i != j ==>
        books[i] != books[j] && books[i].orders != books[j].orders
    }

    /** Distinct tokens have distinct positions within the books. */
    static ghost predicate Placed(at: map<int, int>, n: nat) {
      && |at| == n
      && (forall t :: t in at ==> 0 <= at[t] < n)
      && (forall t, u :: t in at && u in at && at[t] == at[u] ==> t == u)
    }

    ghost function View(): Desk
      reads this, symbols, books, set b | b in books :: b.orders
      requires Valid()
    {
      ViewOf(books, symbols.View())
    }

    static ghost function ViewOf(books: seq<OrderBookType2>, at: map<int, int>): Desk
      requires forall t :: t in at ==> 0 <= at[t] < |books|
      reads books, set b | b in books :: b.orders
    {
      map t | t in at :: books[at[t]].Snapshot()
    }

    constructor (sizeHint: nat, hasher: int -> Word)
      requires sizeHint <= TOP_BIT
      ensures Valid() && View() == map[]
    {
      this.sizeHint, this.hasher := sizeHint, hasher;
      books := [];
      symbols := new HashMap(hasher, MAXSECURITIES, NO_TOKEN, 0);
    }

    /** The book of the instrument, a new one if it had none. */
    method Subscribe(token: int) returns (book: OrderBookType2?)
      requires Valid() && token != NO_TOKEN
      modifies this, symbols
      ensures Valid()
      ensures book == null <==> token !in old(View()) && |old(View())| == 32767
      ensures book == null <==> Throws(old(View()), Event.Subscribe(token))
      ensures token in old(View()) ==>
        books == old(books) && symbols.View() == old(symbols.View()) && book == old(books[symbols.View()[token]])
      ensures token !in old(View()) && book != null ==>
        books == old(books) + [book] && symbols.View() == old(symbols.View())[token := |old(books)|]
      ensures View() == After(old(View()), Event.Subscribe(token))
      ensures book != null ==> book in books && book.Snapshot() == View()[token]
    {
      hide HashMap.Valid, HashMap.View, BooksValid, Apart, OrderBookType2.Snapshot;
      ghost var desk := View();
      assert |desk| == |books| by {
        assert desk.Keys == symbols.View().Keys;
      }
      var it := symbols.Find(token);
      if it != |symbols.buckets| {
        return books[symbols.buckets[it].second];
      }
      if |books| == MAXSECURITIES {
        return null;
      }
      book := Open(token);
    }

    method Open(token: int) returns (book: OrderBookType2)
      requires Valid() && token != NO_TOKEN && token !in View() && |books| < MAXSECURITIES
      modifies this, symbols
      ensures Valid() && View() == old(View())[token := A.EMPTY]
      ensures book in books && book.Snapshot() == A.EMPTY
      ensures books == old(books) + [book] && symbols.View() == old(symbols.View())[token := |old(books)|]
    {
      hide HashMap.Valid, HashMap.View, OrderBookType2.Valid, OrderBookType2.Snapshot, ViewOf;
      ghost var at, was, desk := symbols.View(), books, View();
      assert token !in at by { KeysOfView(was, at); }
      book := NewBook(sizeHint, hasher);
      ghost var empty := book.Snapshot();
      assert BooksValid(was) && ViewOf(was, at) == desk;
      Enter(token, book);
      ViewWith(was, book, at, token);
    }

    static method NewBook(sizeHint: nat, hasher: int -> Word) returns (book: OrderBookType2)
      requires sizeHint <= TOP_BIT
      ensures fresh(book) && fresh(book.orders) && book.Valid() && book.Snapshot() == A.EMPTY
    {
      book := new OrderBookType2(sizeHint, hasher);
    }

    /** Files a new book under its token. */
    method Enter(token: int, book: OrderBookType2)
      requires Valid() && token != NO_TOKEN && token !in symbols.View() && |books| < MAXSECURITIES
      requires book.Valid()
      requires forall b :: b in books ==> b != book && b.orders != book.orders
      modifies this`books, symbols
      ensures Valid() && books == old(books) + [book]
      ensures symbols.View() == old(symbols.View())[token := |old(books)|]
    {
      hide HashMap.Valid, HashMap.View, Apart, BooksValid, OrderBookType2.Valid, Placed;
      ghost var at, was := symbols.View(), books;
      PlacedWith(at, |was|, token);
      books := books + [book];
      var _, _ := symbols.Emplace(token, |books| - 1);
      ApartWith(was, book);
      ValidWith(was, book);
    }

    static lemma KeysOfView(books: seq<OrderBookType2>, at: map<int, int>)
      requires forall t :: t in at ==> 0 <= at[t] < |books|
      ensures ViewOf(books, at).Keys == at.Keys
    {
    }

    static lemma PlacedWith(at: map<int, int>, n: nat, token: int)
      requires Placed(at, n) && token !in at
      ensures Placed(at[token := n], n + 1)
    {
    }

    static lemma ValidWith(books: seq<OrderBookType2>, book: OrderBookType2)
      requires BooksValid(books) && book.Valid()
      ensures BooksValid(books + [book])
    {
      hide OrderBookType2.Valid;
    }

    static lemma ViewWith(books: seq<OrderBookType2>, book: OrderBookType2, at: map<int, int>, token: int)
      requires Placed(at, |books|) && token !in at
      ensures ViewOf(books + [book], at[token := |books|]) == ViewOf(books, at)[token := book.Snapshot()]
    {
      hide OrderBookType2.Snapshot;
      forall t | t in at
        ensures ViewOf(books + [book], at[token := |books|])[t] == ViewOf(books, at)[t]
      {
        assert (books + [book])[at[t]] == books[at[t]];
      }
    }

    static lemma ApartWith(books: seq<OrderBookType2>, book: OrderBookType2)
      requires Apart(books)
      requires forall b :: b in books ==> b != book && b.orders != book.orders
      ensures Apart(books + [book])
    {
    }

    method AddOrder(m: Message) returns (threw: bool)
      requires Valid() && m.token != NO_TOKEN && m.id != NO_ORDER
      requires forall b :: b in books ==> b.orders.size < MAX_ENTRIES
      modifies books, set b | b in books :: b.orders
      ensures Valid()
      ensures threw == Throws(old(View()), Deliver(m))
      ensures threw <==> m.token !in old(View()) || (m.kind == 'N' && m.id in old(View())[m.token].orders)
      ensures View() == After(old(View()), Deliver(m))
    {
      ghost var desk := View();
      threw := Route(m);
      hide Valid, HashMap.View, Throws, After;
      DeliverOutcome(desk, m);
    }

    /** Finds the book of the message by its 16-bit position. */
    method Route(m: Message) returns (threw: bool)
      requires Valid() && m.token != NO_TOKEN && m.id != NO_ORDER
      requires forall b :: b in books ==> b.orders.size < MAX_ENTRIES
      modifies books, set b | b in books :: b.orders
      ensures Valid()
      ensures threw == Throws(old(View()), Deliver(m))
      ensures View() == After(old(View()), Deliver(m))
    {
      hide HashMap.Valid, HashMap.View, BooksValid, Apart, OrderBookType2.Snapshot, A.After, A.Rejects;
      var it := symbols.Find(m.token);
      if it == |symbols.buckets| {
        return true;
      }
      var bookid := ToInt16(symbols.buckets[it].second);
      assert bookid == symbols.View()[m.token];
      threw := Pass(bookid, m);
    }

    /** Hands the message to one book; the other books do not notice. */
    method Pass(bookid: int, m: Message) returns (threw: bool)
      requires Valid() && m.id != NO_ORDER && m.token in symbols.View() && bookid == symbols.View()[m.token]
      requires 0 <= bookid < |books| && books[bookid].orders.size < MAX_ENTRIES
      modifies books[bookid], books[bookid].orders
      ensures Valid()
      ensures threw == A.Rejects(old(View())[m.token], m)
      ensures View() == old(View())[m.token := A.After(old(View())[m.token], m)]
    {
      hide HashMap.Valid, HashMap.View, OrderBookType2.Valid, OrderBookType2.Snapshot, A.After, A.Rejects;
      ghost var desk, at := View(), symbols.View();
      threw := books[bookid].ProcessOrder(m);
      assert BooksValid(books) by {
        forall i | 0 <= i < |books|
          ensures books[i].Valid()
        {
          if i != bookid { assert old(books[i].Valid()); }
        }
      }
      assert View().Keys == desk.Keys;
      forall t | t in at
        ensures View()[t] == if t == m.token then A.After(desk[t], m) else desk[t]
      {
        if t != m.token {
          assert at[t] != bookid;
        }
      }
    }
  }
}
