/** The matching engine as the object that holds and changes the books. */
module Matchers {
  import opened Domain
  import opened PriceTime
  import opened Matching
  import opened Orders
  import opened Exchange
  import opened OrderBooks

  lemma TakeTopSorted(es: seq<BookEntry>, q: real)
    requires Sorted(es) && es != []
    ensures Sorted(TakeTop(es, q))
  {
    var r := TakeTop(es, q);
    assert forall i :: 0 < i < |es| ==> !Before(es[i], es[0]);
    if es[0].qty - q == 0.0 { assert forall i :: 0 <= i < |r| ==> r[i] == es[i + 1]; }
    else { assert forall i :: 0 < i < |r| ==> r[i] == es[i]; }
  }

  /** Making sure a book exists changes nothing that is done to it next. */
  lemma CreatedFirst(books: map<Symbol, Book>, sym: Symbol, b: Book)
    ensures BookOf(books[sym := BookOf(books, sym)], sym) == BookOf(books, sym)
    ensures books[sym := BookOf(books, sym)][sym := b] == books[sym := b]
  {
  }

  lemma CreatedReplayed(books: map<Symbol, Book>, sym: Symbol, side: Side, e: BookEntry)
    ensures ReplayOrder(books[sym := BookOf(books, sym)], sym, side, e) == ReplayOrder(books, sym, side, e)
  {
    hide Insort;
    var b := BookOf(books, sym);
    CreatedFirst(books, sym, b.With(side, Insort(b.On(side), e)));
  }

  /** Adding and crossing one after the other is submitting. */
  lemma Submitted(books: map<Symbol, Book>, sym: Symbol, side: Side, e: BookEntry)
    ensures var added := ReplayOrder(books, sym, side, e);
      var m := Submit(sym, BookOf(books, sym), side, e);
      sym in added && Match(sym, added[sym]) == m && added[sym := m.book] == books[sym := m.book]
  {
    hide Match, Insort;
    CreatedFirst(books, sym, Submit(sym, BookOf(books, sym), side, e).book);
  }

  class Matcher {
    var books: map<Symbol, OrderBook>
    var seen: set<OrderId>
    var pending: seq<Event>
    ghost var Repr: set<object>

    constructor ()
      ensures Valid() && fresh(Repr) && View() == map[] && seen == {} && pending == []
    {
      books, seen, pending, Repr := map[], {}, [], {this};
    }

    ghost predicate Valid()
      reads this, Repr
      ensures Valid() ==> this in Repr
    {
      && this in Repr
      && (forall sym :: sym in books ==>
            books[sym] in Repr && books[sym].buys in Repr && books[sym].sells in Repr)
      && (forall sym :: sym in books ==> books[sym].Valid() && books[sym].symbol == sym)
      && (forall x, y :: x in books && y in books && x != y ==>
            books[x].buys != books[y].buys && books[x].sells != books[y].sells)
    }

    ghost function View(): map<Symbol, Book>
      requires Valid()
      reads this, Repr
    {
      map sym | sym in books :: books[sym].View()
    }

    method GetOrCreateBook(sym: Symbol) returns (b: OrderBook)
      requires Valid()
      modifies this
      ensures Valid() && sym in books && b == books[sym]
      ensures View() == old(View())[sym := BookOf(old(View()), sym)]
      ensures seen == old(seen) && pending == old(pending)
      ensures fresh(Repr - old(Repr)) && old(Repr) <= Repr
    {
      if sym !in books {
        CreateBook(sym);
      }
      b := books[sym];
    }

    method CreateBook(sym: Symbol)
      requires Valid() && sym !in books
      modifies this`books, this`Repr
      ensures Valid() && sym in books
      ensures View() == old(View())[sym := EMPTY_BOOK]
      ensures fresh(Repr - old(Repr)) && old(Repr) <= Repr
    {
      var created := new OrderBook(sym);
      books := books[sym := created];
      Repr := Repr + {created, created.buys, created.sells};
      BookAdded(sym);
    }

    twostate lemma BookAdded(sym: Symbol)
      requires old(Valid()) && sym !in old(books) && sym in books && books == old(books)[sym := books[sym]]
      requires fresh(books[sym]) && fresh(books[sym].buys) && fresh(books[sym].sells)
      requires books[sym].Valid() && books[sym].symbol == sym && books[sym].View() == EMPTY_BOOK
      requires Repr == old(Repr) + {books[sym], books[sym].buys, books[sym].sells}
      requires forall s :: s in old(books) ==> unchanged(old(books)[s].buys) && unchanged(old(books)[s].sells)
      ensures Valid() && View() == old(View())[sym := EMPTY_BOOK]
    {
      hide Valid;
      AddedIsValid(sym);
      hide Valid, OrderBook.Valid;
      assert forall s :: s in old(books) ==> books[s] == old(books)[s] && books[s].View() == old(books[s].View());
    }

    twostate lemma AddedIsValid(sym: Symbol)
      requires old(Valid()) && sym !in old(books) && sym in books && books == old(books)[sym := books[sym]]
      requires fresh(books[sym]) && fresh(books[sym].buys) && fresh(books[sym].sells)
      requires books[sym].Valid() && books[sym].symbol == sym && books[sym].View() == EMPTY_BOOK
      requires Repr == old(Repr) + {books[sym], books[sym].buys, books[sym].sells}
      requires forall s :: s in old(books) ==> unchanged(old(books)[s].buys) && unchanged(old(books)[s].sells)
      ensures Valid()
    {
      hide Sorted;
      assert forall s :: s in old(books) ==> books[s] == old(books)[s];
    }

    /** After one book changed, the view changed in that one place. */
    twostate lemma OneBookMoved(sym: Symbol)
      requires old(Valid()) && sym in books && books == old(books) && Repr == old(Repr)
      requires forall s :: s in books && s != sym ==> unchanged(books[s].buys) && unchanged(books[s].sells)
      requires books[sym].Valid()
      ensures Valid() && View() == old(View())[sym := books[sym].View()]
    {
      hide OrderBook.View;
    }

    /** Remember an id; the books do not change. */
    method MarkSeen(id: OrderId)
      requires Valid()
      modifies this`seen
      ensures Valid() && View() == old(View()) && seen == old(seen) + {id}
    {
      seen := seen + {id};
      assert forall sym :: sym in books ==> books[sym].View() == old(books[sym].View());
    }

    /** Report what is left of an order on the book; the books do not change. */
    method Report(e: Event)
      requires Valid()
      modifies this`pending
      ensures Valid() && View() == old(View()) && pending == old(pending) + [e]
    {
      pending := pending + [e];
      assert forall sym :: sym in books ==> books[sym].View() == old(books[sym].View());
    }

    /** Put an entry into its queue, whatever it crosses. */
    method AddEntry(id: OrderId, account: AccountId, sym: Symbol, side: Side, price: real, qty: real, time: int)
      requires Valid() && sym in books
      modifies books[sym].buys, books[sym].sells
      ensures Valid()
      ensures View() == ReplayOrder(old(View()), sym, side, EntryFor(side, price, time, id, qty, account))
    {
      var book := books[sym];
      if side == Buy {
        book.AddBuy(id, price, qty, time, account);
      } else {
        book.AddSell(id, price, qty, time, account);
      }
      OneBookMoved(sym);
    }

    /** Remember the id, make sure the book exists, and add the entry to its queue. */
    method Enter(id: OrderId, account: AccountId, sym: Symbol, side: Side, price: real, qty: real, time: int)
      requires Valid()
      modifies Repr
      ensures Valid() && fresh(Repr - old(Repr)) && sym in books
      ensures seen == old(seen) + {id} && pending == old(pending)
      ensures View() == ReplayOrder(old(View()), sym, side, EntryFor(side, price, time, id, qty, account))
    {
      hide *;
      MarkSeen(id);
      CreatedReplayed(View(), sym, side, EntryFor(side, price, time, id, qty, account));
      var book := GetOrCreateBook(sym);
      AddEntry(id, account, sym, side, price, qty, time);
    }

    method SubmitOrder(id: OrderId, account: AccountId, sym: Symbol, side: Side, price: real, qty: real, time: int)
      returns (trades: seq<Trade>)
      requires Valid()
      modifies Repr
      ensures Valid() && fresh(Repr - old(Repr))
      ensures var e := EntryFor(side, price, time, id, qty, account);
        var sub := Exchange.SubmitOrder(old(View()), old(seen), sym, side, e);
        trades == sub.trades && View() == sub.books && seen == sub.seen && pending == old(pending) + sub.remain
      ensures id in old(seen) ==> trades == [] && View() == old(View()) && seen == old(seen) && pending == old(pending)
    {
      if id in seen {
        return [];
      }
      trades := SubmitNew(id, account, sym, side, price, qty, time);
    }

    /** Add, cross, and report what still rests. */
    method SubmitNew(id: OrderId, account: AccountId, sym: Symbol, side: Side, price: real, qty: real, time: int)
      returns (trades: seq<Trade>)
      requires Valid()
      modifies Repr
      ensures Valid() && fresh(Repr - old(Repr)) && seen == old(seen) + {id}
      ensures var m := Submit(sym, BookOf(old(View()), sym), side, EntryFor(side, price, time, id, qty, account));
        trades == m.trades && View() == old(View())[sym := m.book] &&
          pending == old(pending) + Remainder(m.book, sym, side, id, qty)
    {
      hide View;
      ghost var e := EntryFor(side, price, time, id, qty, account);
      ghost var m := Submit(sym, BookOf(View(), sym), side, e);
      Submitted(View(), sym, side, e);
      hide EntryFor, Submit, ReplayOrder, Match, Remainder;
      Enter(id, account, sym, side, price, qty, time);
      trades := MatchIn(sym);
      ReportRest(id, sym, side, qty);
    }

    /** Queue the event for an order that still rests. */
    method ReportRest(id: OrderId, sym: Symbol, side: Side, qty: real)
      requires Valid() && sym in books
      modifies this`pending
      ensures Valid() && View() == old(View())
      ensures pending == old(pending) + Remainder(View()[sym], sym, side, id, qty)
    {
      hide FindEntry;
      var remaining := Locate(books[sym], id, side);
      if remaining.Some? {
        Report(OrderRemainOnBook(id, sym, side, remaining.value.qty, qty));
      }
    }

    /** Run the crossing loop on the book of one symbol. */
    method MatchIn(sym: Symbol) returns (trades: seq<Trade>)
      requires Valid() && sym in books
      modifies books[sym].buys, books[sym].sells
      ensures Valid()
      ensures trades == Match(sym, old(View())[sym]).trades
      ensures View() == old(View())[sym := Match(sym, old(View())[sym]).book]
    {
      hide Match;
      trades := MatchBook(books[sym]);
      OneBookMoved(sym);
    }

    method CancelOrder(sym: Symbol, id: OrderId) returns (found: bool)
      requires Valid()
      modifies Repr
      ensures Valid() && fresh(Repr - old(Repr))
      ensures View() == old(View())[sym := RemoveFromBook(BookOf(old(View()), sym), id)]
      ensures found <==> FindInBook(BookOf(old(View()), sym), id).Some?
      ensures seen == old(seen) && pending == old(pending)
    {
      ghost var views := View();
      var book := GetOrCreateBook(sym);
      CreatedFirst(views, sym, RemoveFromBook(BookOf(views, sym), id));
      hide RemoveFromBook, FindEntry;
      label Found:
      var removed := book.Cancel(id);
      OneBookMoved@Found(sym);
      found := removed.Some?;
    }

    method DrainRemainEvents() returns (events: seq<Event>)
      requires Valid()
      modifies this
      ensures Valid() && Repr == old(Repr)
      ensures events == old(pending) && pending == [] && View() == old(View()) && seen == old(seen)
    {
      events := pending;
      pending := [];
    }

    /** Put a resting order back without crossing. */
    method Restore(id: OrderId, account: AccountId, sym: Symbol, side: Side, price: real, qty: real, time: int)
      requires Valid()
      modifies Repr
      ensures Valid() && fresh(Repr - old(Repr))
      ensures seen == old(seen) + {id} && pending == old(pending)
      ensures View() == ReplayOrder(old(View()), sym, side, EntryFor(side, price, time, id, qty, account))
    {
      Enter(id, account, sym, side, price, qty, time);
    }

    method Locate(book: OrderBook, id: OrderId, side: Side) returns (r: Option<BookEntry>)
      ensures r == FindEntry(book.View().On(side), id)
    {
      var entries := if side == Buy then book.buys.entries else book.sells.entries;
      var i := 0;
      while i < |entries|
        invariant 0 <= i <= |entries|
        invariant FindEntry(entries, id) == FindEntry(entries[i..], id)
      {
        if entries[i].orderId == id {
          return Some(entries[i]);
        }
        assert entries[i..][1..] == entries[i + 1..];
        i := i + 1;
      }
      return None;
    }

    /** The crossing loop: trade the two best entries until they no longer cross. */
    method MatchBook(book: OrderBook) returns (trades: seq<Trade>)
      requires book.Valid()
      modifies book.buys, book.sells
      ensures book.Valid()
      ensures trades == Match(book.symbol, old(book.View())).trades
      ensures book.View() == Match(book.symbol, old(book.View())).book
    {
      hide Match, CrossOnce, TradeBetween;
      trades := [];
      ghost var sym, goal := book.symbol, Match(book.symbol, book.View());
      while book.IsCrossable()
        invariant book.Valid()
        invariant trades + Match(sym, book.View()).trades == goal.trades
        invariant Match(sym, book.View()).book == goal.book
        decreases |book.buys.entries| + |book.sells.entries|
      {
        MatchUnfolds(sym, book.View());
        var trade := CrossTops(book);
        trades := trades + [trade];
      }
      MatchUnfolds(sym, book.View());
    }

    /** One round: trade the two best entries, pop the one that is used up, reduce the other. */
    method CrossTops(book: OrderBook) returns (trade: Trade)
      requires book.Valid() && Crossable(book.View())
      modifies book.buys, book.sells
      ensures book.Valid()
      ensures book.View() == CrossOnce(old(book.View()))
      ensures trade == TradeBetween(book.symbol, old(book.View()).bids[0], old(book.View()).asks[0])
      ensures |book.buys.entries| + |book.sells.entries| < old(|book.buys.entries| + |book.sells.entries|)
    {
      var bid, ask := book.buys.Best().value, book.sells.Best().value;
      var buyerRested := bid.sortTime <= ask.sortTime;
      var price := if buyerRested then bid.price else ask.price;
      var maker := if buyerRested then Buy else Sell;
      var qty := if bid.qty <= ask.qty then bid.qty else ask.qty;
      trade := Trade(book.symbol, price, qty, bid.orderId, ask.orderId, maker);
      var leftOfBid, leftOfAsk := bid.qty - qty, ask.qty - qty;
      TakeTopSorted(book.buys.entries, qty);
      TakeTopSorted(book.sells.entries, qty);
      hide Sorted;
      if leftOfBid == 0.0 {
        var _ := book.buys.PopTop();
      } else {
        book.buys.ReduceTop(qty);
      }
      if leftOfAsk == 0.0 {
        var _ := book.sells.PopTop();
      } else {
        book.sells.ReduceTop(qty);
      }
    }
  }
}
