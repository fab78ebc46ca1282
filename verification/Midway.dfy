/** The states between two trades of one placement: the book is already final, the ledger still catching up. */
module Midway {
  import opened Domain
  import opened PriceTime
  import opened Matching
  import opened Ledger
  import opened Orders
  import opened Exchange
  import opened Agreement
  import opened Settling
  import opened Runs

  /** Quantity resting under an id. */
  function QtyOf(es: seq<BookEntry>, id: OrderId): real {
    if es == [] then 0.0 else (if es[0].orderId == id then es[0].qty else 0.0) + QtyOf(es[1..], id)
  }

  /** Quantity a run of trades fills of an id on a side. */
  function StillToFill(ts: seq<Trade>, side: Side, id: OrderId): real {
    if ts == [] then 0.0
    else
      var one := if side == Buy then ts[0].buyId else ts[0].sellId;
      (if one == id then ts[0].qty else 0.0) + StillToFill(ts[1..], side, id)
  }

  lemma TakeTopQty(es: seq<BookEntry>, q: real, id: OrderId)
    requires es != []
    ensures QtyOf(TakeTop(es, q), id) == QtyOf(es, id) - if es[0].orderId == id then q else 0.0
  {
    var r := [es[0].(qty := es[0].qty - q)] + es[1..];
    assert r[1..] == es[1..];
  }

  /** Order by order, what the loop takes off a side is what its trades fill. */
  lemma {:induction false} MatchFills(sym: Symbol, b: Book, side: Side, id: OrderId)
    ensures QtyOf(b.On(side), id)
      == QtyOf(Match(sym, b).book.On(side), id) + StillToFill(Match(sym, b).trades, side, id)
    decreases |b.bids| + |b.asks|
  {
    if Crossable(b) {
      TakeTopQty(b.On(side), Min(b.bids[0].qty, b.asks[0].qty), id);
      MatchFills(sym, CrossOnce(b), side, id);
      assert Match(sym, b).trades[1..] == Match(sym, CrossOnce(b)).trades;
    }
  }

  lemma {:induction false} QtyOfMember(es: seq<BookEntry>, e: BookEntry)
    requires e in es && forall i, j :: 0 <= i < j < |es| ==> es[i].orderId != es[j].orderId
    ensures QtyOf(es, e.orderId) == e.qty
    decreases |es|
  {
    if es[0] == e { QtyOfStranger(es[1..], e.orderId); }
    else {
      assert e in es[1..] && es[0].orderId != e.orderId by {
        var i :| 0 <= i < |es| && es[i] == e;
        assert es[1..][i - 1] == e;
      }
      QtyOfMember(es[1..], e);
    }
  }

  lemma {:induction false} QtyOfStranger(es: seq<BookEntry>, id: OrderId)
    requires forall e :: e in es ==> e.orderId != id
    ensures QtyOf(es, id) == 0.0
    decreases |es|
  {
    if es != [] {
      assert es[0] in es;
      QtyOfStranger(es[1..], id);
    }
  }

  /** What an order still has to trade: nothing if it is filled, canceled or rejected. */
  function Open(o: Order): real { if Live(o) then o.Remaining() else 0.0 }

  /**
   * Every account is balanced, and each order has on the final book plus in the pending trades exactly what it still
   * has to trade: what remains of it if it is live, nothing if it is not.
   */
  ghost predicate MidwayOk(d: Desk, pending: seq<Trade>, sym: Symbol, final: Book) {
    && (forall a :: Balanced(d.accounts.Get(a)))
    && (forall id :: id in d.repo.orders && d.repo.orders[id].symbol == sym ==>
          var o := d.repo.orders[id];
          Open(o) == QtyOf(final.On(o.side), id) + StillToFill(pending, o.side, id))
  }

  /** The same in every state from here to the end of the pending trades. */
  ghost predicate MidwayAlways(d: Desk, pending: seq<Trade>, sym: Symbol, final: Book)
    decreases |pending|
  {
    && MidwayOk(d, pending, sym, final)
    && (pending != [] ==>
          ApplyTrade(d, pending[0]).Done? && MidwayAlways(ApplyTrade(d, pending[0]).value, pending[1..], sym, final))
  }

  lemma AgreesMidway(d: Desk, books: map<Symbol, Book>, sym: Symbol)
    requires Agrees(d.accounts, d.repo, books)
    ensures var m := Match(sym, BookOf(books, sym)); MidwayOk(d, m.trades, sym, m.book)
  {
    hide Balanced;
    var m := Match(sym, BookOf(books, sym));
    forall id | id in d.repo.orders && d.repo.orders[id].symbol == sym
      ensures var o := d.repo.orders[id]; Open(o) == QtyOf(m.book.On(o.side), id) + StillToFill(m.trades, o.side, id)
    {
      var o := d.repo.orders[id];
      var es := BookOf(books, sym).On(o.side);
      assert OrderOk(id, o) && SideMatches(d.repo, books, sym, o.side);
      AgreeingSideOk(d.repo.ids, d.repo.orders, sym, o.side, es);
      if Live(o) {
        assert Entry(o) in es;
        QtyOfMember(es, Entry(o));
      } else {
        QtyOfStranger(es, id);
      }
      MatchFills(sym, BookOf(books, sym), o.side, id);
    }
  }

  /** Through the whole trade-by-trade settlement: nothing overdrawn, remaining = on the book + still to be applied. */
  lemma {:induction false} LoopMidway(d: Desk, books: map<Symbol, Book>, sym: Symbol)
    requires Agrees(d.accounts, d.repo, books)
    ensures var m := Match(sym, BookOf(books, sym)); MidwayAlways(d, m.trades, sym, m.book)
    decreases |BookOf(books, sym).bids| + |BookOf(books, sym).asks|
  {
    AgreesMidway(d, books, sym);
    var b := BookOf(books, sym);
    if Crossable(b) {
      CrossAgrees(d, books, sym);
      hide Agrees, MidwayOk;
      LoopMidway(ApplyTrade(d, TradeBetween(sym, b.bids[0], b.asks[0])).value, books[sym := CrossOnce(b)], sym);
      assert Match(sym, b).trades[1..] == Match(sym, CrossOnce(b)).trades;
    }
  }

  lemma {:induction false} AcceptedMidway(s: State, p: Placement)
    requires Inv(s) && p.id !in s.repo.ids && p.qty > 0.0 && SaneShape(p.side, p.otype, p.price)
    requires LockFunds(s.accounts, p.account, p.id, p.symbol, p.side, p.qty, p.price).rejected == None
    ensures var m := Submit(p.symbol, BookOf(s.books, p.symbol), p.side, Entry(NewOrder(p)));
      MidwayAlways(DeskFor(s, p), m.trades, p.symbol, m.book)
  {
    AcceptedAgrees(s, p);
    hide Agrees, MidwayAlways;
    LoopMidway(DeskFor(s, p), BooksWith(s.books, NewOrder(p).(status := Routed)), p.symbol);
  }

  /** For any sane run and any next placement that is accepted: the intermediate states are sound as well. */
  lemma PlacementMidway(cmds: seq<Command>, p: Placement)
    requires WellFormed(cmds + [Place(p)]) && SaneRun(cmds + [Place(p)])
    ensures Exec(cmds).Done?
    ensures var s := Exec(cmds).value;
      LockFunds(s.accounts, p.account, p.id, p.symbol, p.side, p.qty, p.price).rejected == None ==>
        var m := Submit(p.symbol, BookOf(s.books, p.symbol), p.side, Entry(NewOrder(p)));
        MidwayAlways(DeskFor(s, p), m.trades, p.symbol, m.book)
  {
    NextCommand(cmds, Place(p));
    RunsAgree(cmds);
    var s := Exec(cmds).value;
    if LockFunds(s.accounts, p.account, p.id, p.symbol, p.side, p.qty, p.price).rejected == None {
      AcceptedMidway(s, p);
    }
  }
}
