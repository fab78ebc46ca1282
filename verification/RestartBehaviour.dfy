/** What goes wrong after a restart that did not get the books back, and that it goes wrong only then. */
module RestartBehaviour {
  import opened Domain
  import opened PriceTime
  import opened Matching
  import opened Ledger
  import opened Orders
  import opened Exchange
  import opened Agreement
  import opened Runs
  import opened Midway
  import opened LogShape
  import opened Projection
  import opened ReplayRuns
  import opened ExactLocks
  import opened FairPrice
  import opened Residues
  import opened Snapshots
  import opened Rebuild
  import opened BookRebuild
  import opened Restarts
  import opened Unnamed

  // ---------- an order large enough to sweep a queue ----------

  /** What the loop leaves on a side was there before, at most reduced. */
  lemma {:induction false} MatchLeaves(sym: Symbol, b: Book, side: Side, x: BookEntry)
    requires x in Match(sym, b).book.On(side)
    ensures Offered(b.On(side), x)
    decreases |b.bids| + |b.asks|
  {
    if Crossable(b) {
      MatchLeaves(sym, CrossOnce(b), side, x);
      TakeTopOffers(b.On(side), Min(b.bids[0].qty, b.asks[0].qty), x);
    } else {
      assert SameKey(x, x);
    }
  }

  lemma {:induction false} VolumeNonNegative(es: seq<BookEntry>)
    requires forall e :: e in es ==> e.qty > 0.0
    ensures Volume(es) >= 0.0
  {
    if es != [] {
      assert es[0] in es;
      VolumeNonNegative(es[1..]);
    }
  }

  lemma {:induction false} PendingBound(ts: seq<Trade>, side: Side, id: OrderId)
    requires forall t :: t in ts ==> t.qty > 0.0
    ensures 0.0 <= StillToFill(ts, side, id) <= Traded(ts)
  {
    if ts != [] {
      assert ts[0] in ts;
      PendingBound(ts[1..], side, id);
    }
  }

  predicate Distinct(es: seq<BookEntry>) { forall i, j :: 0 <= i < j < |es| ==> es[i].orderId != es[j].orderId }

  /** An order that outweighs the opposite queue and reaches the price of an entry there trades all of that entry. */
  lemma {:induction false} SweptAway(sym: Symbol, b: Book, side: Side, e: BookEntry, x: BookEntry)
    requires BookOk(b) && EntryOk(side, e) && e.qty > Volume(b.On(Other(side)))
    requires x in b.On(Other(side)) && Distinct(b.On(Other(side)))
    requires forall y :: y in b.On(side) ==> y.orderId != e.orderId
    requires if side == Buy then e.price >= x.price else e.price <= x.price
    ensures StillToFill(Submit(sym, b, side, e).trades, Other(side), x.orderId) == x.qty
  {
    var b1 := b.With(side, Insort(b.On(side), e));
    InsortOk(side, b.On(side), e);
    InsortMembers(b.On(side), e);
    var m := Match(sym, b1);
    MatchKeepsBook(sym, b1);
    hide Insort, Match;
    assert b1.On(Other(side)) == b.On(Other(side));
    StillThere(sym, b, b1, side, e);
    MatchFills(sym, b1, Other(side), x.orderId);
    QtyOfMember(b.On(Other(side)), x);
    forall y | y in m.book.On(Other(side)) ensures y.orderId != x.orderId {
      MatchLeaves(sym, b1, Other(side), y);
      var z :| z in b.On(Other(side)) && SameKey(y, z);
      Spread(m.book);
      var rest :| rest in m.book.On(side) && rest.price == e.price;
      if y.orderId == x.orderId {
        SameEntry(b.On(Other(side)), x, z);
        assert false;
      }
    }
    QtyOfStranger(m.book.On(Other(side)), x.orderId);
  }

  lemma SameEntry(es: seq<BookEntry>, x: BookEntry, y: BookEntry)
    requires Distinct(es) && x in es && y in es && x.orderId == y.orderId
    ensures x == y
  {
  }

  /** Something of the large order is left. */
  lemma {:induction false} StillThere(sym: Symbol, b: Book, b1: Book, side: Side, e: BookEntry)
    requires b1 == b.With(side, Insort(b.On(side), e)) && BookOk(b1) && e.qty > Volume(b.On(Other(side)))
    requires forall y :: y in b.On(side) ==> y.orderId != e.orderId
    ensures exists rest :: rest in Match(sym, b1).book.On(side) && rest.price == e.price
  {
    var m := Match(sym, b1);
    MatchKeepsBook(sym, b1);
    InsortMembers(b.On(side), e);
    assert b1.On(Other(side)) == b.On(Other(side));
    hide Match, Insort;
    VolumeNonNegative(m.book.On(Other(side)));
    PendingBound(m.trades, side, e.orderId);
    MatchFills(sym, b1, side, e.orderId);
    QtyAtLeast(b1.On(side), e);
    if forall rest :: rest in m.book.On(side) ==> rest.orderId != e.orderId {
      QtyOfStranger(m.book.On(side), e.orderId);
      assert false;
    }
    var rest :| rest in m.book.On(side) && rest.orderId == e.orderId;
    MatchLeaves(sym, b1, side, rest);
    var y :| y in b1.On(side) && SameKey(rest, y);
    assert y == e;
  }

  lemma {:induction false} QtyAtLeast(es: seq<BookEntry>, e: BookEntry)
    requires e in es && forall x :: x in es ==> x.qty > 0.0
    ensures QtyOf(es, e.orderId) >= e.qty
    decreases |es|
  {
    QtyOfNonNegative(es[1..], e.orderId);
    if es[0] != e {
      assert e in es[1..];
      assert es[0] in es;
      QtyAtLeast(es[1..], e);
    }
  }

  lemma {:induction false} QtyOfNonNegative(es: seq<BookEntry>, id: OrderId)
    requires forall x :: x in es ==> x.qty > 0.0
    ensures QtyOf(es, id) >= 0.0
    decreases |es|
  {
    if es != [] {
      assert es[0] in es;
      QtyOfNonNegative(es[1..], id);
    }
  }

  lemma {:induction false} SomeTradeFills(ts: seq<Trade>, side: Side, id: OrderId)
    requires StillToFill(ts, side, id) > 0.0
    ensures exists t :: t in ts && (if side == Buy then t.buyId else t.sellId) == id
  {
    if (if side == Buy then ts[0].buyId else ts[0].sellId) == id {
      assert ts[0] in ts;
    } else {
      SomeTradeFills(ts[1..], side, id);
      var t :| t in ts[1..] && (if side == Buy then t.buyId else t.sellId) == id;
      assert t in ts;
    }
  }

  // ---------- a rejected order that is traded ----------

  predicate RejectedWith(repo: Repo, id: OrderId, filled: real) {
    id in repo.orders && repo.orders[id].status == Rejected && repo.orders[id].filled == filled < repo.orders[id].qty
  }

  function FilledBy(t: Trade, id: OrderId): real {
    (if t.buyId == id then t.qty else 0.0) + (if t.sellId == id then t.qty else 0.0)
  }

  /** The state machine lets a rejected order be filled in part, but never whole. */
  lemma {:induction false} RejectedFill(d: Desk, t: Trade, id: OrderId, filled: real)
    requires ApplyTrade(d, t).Done? && RejectedWith(d.repo, id, filled)
    ensures RejectedWith(ApplyTrade(d, t).value.repo, id, filled + FilledBy(t, id))
    ensures ApplyTrade(d, t).value.repo.orders[id].qty == d.repo.orders[id].qty
  {
    hide TrySettle;
  }

  lemma {:induction false} RejectedFills(d: Desk, ts: seq<Trade>, id: OrderId, filled: real)
    requires ApplyTrades(d, ts).Done? && RejectedWith(d.repo, id, filled)
    ensures filled + StillToFill(ts, Buy, id) + StillToFill(ts, Sell, id) < d.repo.orders[id].qty
    decreases |ts|
  {
    if ts != [] {
      RejectedFill(d, ts[0], id, filled);
      hide ApplyTrade;
      RejectedFills(ApplyTrade(d, ts[0]).value, ts[1..], id, filled + FilledBy(ts[0], id));
    }
  }

  // ---------- the commands that bring it out ----------

  /** An order against o, at a price that reaches it, and the means to place it. */
  function Taker(o: Order, id: OrderId, qty: real): Placement {
    if o.side == Buy then Placement(id, "taker", o.symbol, Sell, Market, qty, None, 0)
    else Placement(id, "taker", o.symbol, Buy, Limit, qty, Some(o.MatchPrice()), 0)
  }

  function Funding(o: Order, qty: real): Command {
    if o.side == Buy then SharesIn("taker", o.symbol, qty) else CashIn("taker", Value(o.MatchPrice(), qty) + 1.0)
  }

  function Probe(o: Order, id: OrderId, qty: real): seq<Command> { [Funding(o, qty), Place(Taker(o, id, qty))] }

  lemma {:induction false} TakerAccepted(t: State, o: Order, id: OrderId, qty: real)
    requires Balanced(t.accounts.Get("taker")) && qty > 0.0
    ensures Step(t, Funding(o, qty)).Done?
    ensures var t1 := Step(t, Funding(o, qty)).value;
      && t1.repo == t.repo && t1.books == t.books && t1.seen == t.seen
      && t1.log == t.log + NewEvents(t, Funding(o, qty))
      && Accepts(t1, Taker(o, id, qty))
  {
    var x := t.accounts.Get("taker");
    assert AssetOk(Cash, x) && AssetOk(Shares(o.symbol), x);
    hide Balanced, Value;
    FundsStep(t, Funding(o, qty));
    StepLog(t, Funding(o, qty));
  }

  lemma ExecProbe(t: State, o: Order, id: OrderId, qty: real)
    requires Step(t, Funding(o, qty)).Done?
    ensures ExecFrom(t, Probe(o, id, qty)) == PlaceOrder(Step(t, Funding(o, qty)).value, Taker(o, id, qty))
  {
    hide PlaceOrder;
    var c, p := Funding(o, qty), Taker(o, id, qty);
    assert Probe(o, id, qty)[..1] == [c] && [c][..0] == [];
    StepOfPlace(Step(t, c).value, p);
    hide Step;
    assert ExecFrom(t, []) == Done(t);
    assert ExecFrom(t, [c]) == Step(t, c);
  }

  lemma TakerEntry(o: Order, id: OrderId, qty: real)
    requires qty > 0.0
    ensures var e := Entry(NewOrder(Taker(o, id, qty)));
      && EntryOk(Other(o.side), e) && e.qty == qty && e.orderId == id
      && e.price == if o.side == Buy then 0.0 else o.MatchPrice()
  {
  }

  /** A book as large orders find it: in order, no id twice, an entry for o, and the other side about other ids. */
  ghost predicate Probed(t: State, o: Order, id: OrderId, qty: real) {
    var b := BookOf(t.books, o.symbol);
    && BookOk(b) && Distinct(b.On(o.side)) && Entry(o) in b.On(o.side)
    && (forall y :: y in b.On(Other(o.side)) ==> y.orderId != id)
    && qty > 0.0 && qty > Volume(b.On(o.side)) && id !in t.seen && id !in t.repo.orders
    && o.id in t.repo.orders && t.repo.orders[o.id] == o && o.MatchPrice() >= 0.0 && o.id != id
    && Balanced(t.accounts.Get("taker"))
  }

  /** The probe trades all of o's entry. */
  lemma {:induction false} ProbeTakes(t: State, o: Order, id: OrderId, qty: real)
    requires Probed(t, o, id, qty)
    ensures var ts := TradesOf(t, Taker(o, id, qty));
      StillToFill(ts, o.side, o.id) == o.Remaining() && forall x :: x in ts ==> x.qty > 0.0
  {
    hide Submit, Volume, BookOk;
    var p := Taker(o, id, qty);
    var b := BookOf(t.books, o.symbol);
    TakerEntry(o, id, qty);
    SweptAway(o.symbol, b, p.side, Entry(NewOrder(p)), Entry(o));
    SubmitOk(o.symbol, b, p.side, Entry(NewOrder(p)));
  }

  /** A rejected order that is back on a book: the exchange raises when it is traded. */
  lemma {:induction false} PhantomRaises(t: State, o: Order, id: OrderId, qty: real)
    requires Probed(t, o, id, qty) && o.status == Rejected && o.filled == 0.0 && o.qty > 0.0
    ensures ExecFrom(t, Probe(o, id, qty)).Raised?
  {
    hide Step;
    TakerAccepted(t, o, id, qty);
    var t1, p := Step(t, Funding(o, qty)).value, Taker(o, id, qty);
    ExecProbe(t, o, id, qty);
    hide Step, Accepts, Balanced, Volume, BookOk, Submit;
    SameBooksSameTrades(t, t1, p);
    ProbeTakes(t, o, id, qty);
    PlaceUnfolds(t1, p);
    var ts := TradesOf(t1, p);
    hide PlaceOrder, TradesOf;
    if ApplyTrades(DeskFor(t1, p), ts).Done? {
      DeskRepo(t1, p);
      RejectedFills(DeskFor(t1, p), ts, o.id, 0.0);
      PendingBound(ts, Other(o.side), o.id);
      assert false;
    }
  }

  lemma SameBooksSameTrades(t: State, t1: State, p: Placement)
    requires t1.books == t.books && t1.seen == t.seen
    ensures TradesOf(t, p) == TradesOf(t1, p)
  {
  }

  // ---------- an order that is missing from its book ----------

  /** Trades between known orders are logged, every one of them. */
  lemma {:induction false} TradesLogged(repo: Repo, ts: seq<Trade>, t: Trade)
    requires t in ts && forall x :: x in ts ==> x.buyId in repo.orders && x.sellId in repo.orders
    ensures TradeExecuted(t) in TradeEvents(repo, ts)
  {
    if ts[0] != t {
      assert ts[0] in ts && t in ts[1..] && forall x :: x in ts[1..] ==> x in ts;
      TradesLogged(repo, ts[1..], t);
    }
  }

  /** Where the order rests, the probe is logged to trade with it. */
  lemma {:induction false} RestingTrades(s: State, o: Order, id: OrderId, qty: real) returns (e: Event)
    requires Inv(s) && Probed(s, o, id, qty) && o.side == Sell && o.Remaining() > 0.0
    ensures Step(s, Funding(o, qty)).Done?
    ensures e in NewEvents(Step(s, Funding(o, qty)).value, Place(Taker(o, id, qty))) && e.TradeExecuted? &&
      e.trade.sellId == o.id
  {
    TakerAccepted(s, o, id, qty);
    FundedKeepsInv(s, o, qty);
    var s1, p := Step(s, Funding(o, qty)).value, Taker(o, id, qty);
    hide Step, Accepts, Balanced, Volume, BookOk, Submit, Inv;
    SameBooksSameTrades(s, s1, p);
    ProbeTakes(s, o, id, qty);
    var ts := TradesOf(s1, p);
    SomeTradeFills(ts, Sell, o.id);
    var t :| t in ts && t.sellId == o.id;
    e := TradeExecuted(t);
    AllLogged(s1, p, t);
  }

  lemma FundedKeepsInv(s: State, o: Order, qty: real)
    requires Inv(s) && qty > 0.0 && (o.side == Sell ==> o.MatchPrice() >= 0.0) && (o.side == Buy ==> o.symbol != "")
    ensures Step(s, Funding(o, qty)).Done? && Inv(Step(s, Funding(o, qty)).value)
  {
    if o.side == Sell { ValuePositive(o.MatchPrice(), qty); }
    hide Value, Inv, Step;
    StepKeepsInv(s, Funding(o, qty));
  }

  lemma ValuePositive(price: real, qty: real)
    requires price >= 0.0 && qty > 0.0
    ensures Value(price, qty) >= 0.0
  {
  }

  lemma {:induction false} AllLogged(s: State, p: Placement, t: Trade)
    requires Inv(s) && p.id !in s.repo.orders && p.qty > 0.0 && SaneShape(p.side, p.otype, p.price) && Accepts(s, p)
    requires t in TradesOf(s, p)
    ensures TradeExecuted(t) in NewEvents(s, Place(p))
  {
    hide NewEvents, SubmitOrder, TradesOf, TradeEvents, FillEvents, Accepts, Inv, Fair;
    AcceptedEvents(s, p);
    var d := DeskFor(s, p);
    var ts := TradesOf(s, p);
    forall x | x in ts ensures x.buyId in d.repo.orders && x.sellId in d.repo.orders {
      NewTradesKnown(s, p, x);
      FairKnows(x, d.repo.orders);
    }
    TradesLogged(d.repo, ts, t);
  }

  /** Where the order does not rest, the probe is not. */
  lemma {:induction false} MissingTradesNot(t: State, o: Order, id: OrderId, qty: real, e: Event)
    requires Step(t, Funding(o, qty)).Done? && Accepts(Step(t, Funding(o, qty)).value, Taker(o, id, qty)) &&
      o.side == Sell
    requires forall y :: y in BookOf(t.books, o.symbol).asks ==> y.orderId != o.id
    requires e in NewEvents(Step(t, Funding(o, qty)).value, Place(Taker(o, id, qty))) && e.TradeExecuted?
    ensures e.trade.sellId != o.id
  {
    FundsStep(t, Funding(o, qty));
    var t1, p := Step(t, Funding(o, qty)).value, Taker(o, id, qty);
    hide Step, NewEvents, Accepts, Match;
    AcceptedTrade(t1, p, e);
    var b := BookOf(t1.books, o.symbol);
    TradersRest(o.symbol, b.With(Buy, Insort(b.bids, Entry(NewOrder(p)))), e.trade);
  }

  // ---------- the restarted exchange ----------

  lemma {:induction false} RestoredSideOk(repo: Repo, sym: Symbol, side: Side, es: seq<BookEntry>)
    requires RepoOk(repo) && SideRestored(repo, repo.ids, sym, side, es)
    ensures SideOk(side, es) && Distinct(es)
  {
    QueueSorted(repo.ids, es);
    forall e | e in es ensures e.qty > 0.0 && e.sortPrice == if side == Buy then -e.price else e.price {
      assert ReturnsTo(repo.orders[e.orderId], sym, side) && e == Entry(repo.orders[e.orderId]);
    }
    forall i, j | 0 <= i < j < |es| ensures es[i].orderId != es[j].orderId {
      assert es[i] in es && es[j] in es && Ahead(repo.ids, es[i], es[j]);
    }
  }

  /** What is true of the exchange restarted from the log of a run, whether it got its books back or not. */
  ghost predicate RestartedFrom(s: State, t: State) {
    && t.repo == s.repo && t.log == s.log && t.seen <= s.repo.orders.Keys
    && (forall a :: Balanced(t.accounts.Get(a)))
    && forall sym, side :: SideRestored(s.repo, s.repo.ids, sym, side, BookOf(t.books, sym).On(side))
  }

  lemma {:induction false} RestartedIs(cmds: seq<Command>)
    requires WellFormed(cmds) && SaneRun(cmds)
    ensures Exec(cmds).Done? && Inv(Exec(cmds).value) && Replay(NO_ACCOUNTS, Exec(cmds).value.log).Done?
    ensures RestartedFrom(Exec(cmds).value, Restarted(Exec(cmds).value.log))
  {
    RunsAgree(cmds);
    ReplayIsLive(cmds);
    RestoredOrdersAreLive(cmds);
    LogTellsOrders(cmds);
    hide Exec, SideRestored, SideAgrees;
    var s := Exec(cmds).value;
    var t := Restarted(s.log);
    IdsMatch(s);
    forall a ensures Balanced(t.accounts.Get(a)) {
      assert Twin(t.accounts.Get(a), s.accounts.Get(a), {}) && Balanced(s.accounts.Get(a));
      TwinBalanced(t.accounts.Get(a), s.accounts.Get(a));
    }
    forall sym, side ensures SideRestored(s.repo, s.repo.ids, sym, side, BookOf(t.books, sym).On(side)) {
      RebuiltSide(cmds, sym, side);
    }
  }

  /** One side of a restored book: in order, no id twice, and about known orders. */
  lemma {:induction false} SideAfterRestart(s: State, t: State, sym: Symbol, side: Side)
    requires RepoOk(s.repo) && RestartedFrom(s, t)
    ensures SideOk(side, BookOf(t.books, sym).On(side)) && Distinct(BookOf(t.books, sym).On(side))
    ensures forall y :: y in BookOf(t.books, sym).On(side) ==> y.orderId in s.repo.orders
  {
    var es := BookOf(t.books, sym).On(side);
    assert SideRestored(s.repo, s.repo.ids, sym, side, es);
    hide RepoOk, SideOk, Distinct, Balanced, Queue, Returns, ReturnsTo;
    RestoredSideOk(s.repo, sym, side, es);
  }

  lemma EntryBack(s: State, t: State, o: Order)
    requires RepoOk(s.repo) && RestartedFrom(s, t) && o.id in s.repo.orders && s.repo.orders[o.id] == o && Returns(o)
    ensures Entry(o) in BookOf(t.books, o.symbol).On(o.side)
  {
    assert o.id in s.repo.ids;
    assert SideRestored(s.repo, s.repo.ids, o.symbol, o.side, BookOf(t.books, o.symbol).On(o.side));
    hide OrderOk, Balanced, Queue, Returns, Entry;
  }

  lemma RestartReads(s: State, t: State)
    requires RestartedFrom(s, t)
    ensures t.repo == s.repo && t.seen <= s.repo.orders.Keys && Balanced(t.accounts.Get("taker"))
  {
    hide Balanced, SideRestored;
  }

  /** What makes an exchange ready for a probe. */
  lemma ReadyToProbe(t: State, o: Order, id: OrderId, qty: real)
    requires var b := BookOf(t.books, o.symbol);
      && SideOk(o.side, b.On(o.side)) && SideOk(Other(o.side), b.On(Other(o.side)))
      && Distinct(b.On(o.side)) && Entry(o) in b.On(o.side)
      && (forall y :: y in b.On(Other(o.side)) ==> y.orderId in t.repo.orders) && qty > Volume(b.On(o.side))
    requires qty > 0.0 && id !in t.repo.orders && t.seen <= t.repo.orders.Keys && o.MatchPrice() >= 0.0
    requires o.id in t.repo.orders && t.repo.orders[o.id] == o && Balanced(t.accounts.Get("taker"))
    ensures Probed(t, o, id, qty)
  {
    hide SideOk, Distinct, Entry, Volume, Balanced;
  }

  /** The restarted exchange, ready for a probe of an order that returned. */
  lemma {:induction false} ProbedAfterRestart(s: State, t: State, o: Order, id: OrderId, qty: real)
    requires Inv(s) && RestartedFrom(s, t) && o.id in s.repo.orders && s.repo.orders[o.id] == o && Returns(o) &&
      o.MatchPrice() >= 0.0
    requires id !in s.repo.orders && qty > 0.0 && qty > Volume(BookOf(t.books, o.symbol).On(o.side))
    ensures Probed(t, o, id, qty)
  {
    InvKeepsRepo(s);
    hide *;
    SideAfterRestart(s, t, o.symbol, o.side);
    SideAfterRestart(s, t, o.symbol, Other(o.side));
    EntryBack(s, t, o);
    RestartReads(s, t);
    ReadyToProbe(t, o, id, qty);
  }

  lemma InvKeepsRepo(s: State)
    requires Inv(s)
    ensures RepoOk(s.repo) && s.seen <= s.repo.orders.Keys && Balanced(s.accounts.Get("taker"))
  {
    hide RepoOk, Balanced, LocksAgree, BooksAgree, Uncrossed;
  }

  /** One side of a live book: in order, no id twice, and about known orders. */
  lemma {:induction false} SideLive(s: State, sym: Symbol, side: Side)
    requires Inv(s)
    ensures SideOk(side, BookOf(s.books, sym).On(side)) && Distinct(BookOf(s.books, sym).On(side))
    ensures forall y :: y in BookOf(s.books, sym).On(side) ==> y.orderId in s.repo.orders
  {
    assert SideMatches(s.repo, s.books, sym, side);
    hide LedgerAgrees, BooksAgree, Uncrossed, SideOk, Queue, OrderOk, Rests;
    AgreeingSideOk(s.repo.ids, s.repo.orders, sym, side, BookOf(s.books, sym).On(side));
  }

  lemma EntryLive(s: State, o: Order)
    requires Inv(s) && o.id in s.repo.orders && s.repo.orders[o.id] == o && Live(o)
    ensures Entry(o) in BookOf(s.books, o.symbol).On(o.side) && o.Remaining() > 0.0
  {
    assert OrderOk(o.id, o);
    assert SideMatches(s.repo, s.books, o.symbol, o.side);
    hide LedgerAgrees, BooksAgree, Uncrossed, Queue;
  }

  /** The live exchange, ready for a probe of an order that rests. */
  lemma {:induction false} ProbedLive(s: State, o: Order, id: OrderId, qty: real)
    requires Inv(s) && o.id in s.repo.orders && s.repo.orders[o.id] == o && Live(o) && o.MatchPrice() >= 0.0
    requires id !in s.repo.orders && qty > 0.0 && qty > Volume(BookOf(s.books, o.symbol).On(o.side))
    ensures Probed(s, o, id, qty) && o.Remaining() > 0.0
  {
    hide *;
    InvKeepsRepo(s);
    SideLive(s, o.symbol, o.side);
    SideLive(s, o.symbol, Other(o.side));
    EntryLive(s, o);
    ReadyToProbe(s, o, id, qty);
  }

  // ---------- exactly when a restart shows ----------

  /** The restarted exchange takes these commands without raising and writes what the uninterrupted one writes. */
  ghost predicate Behaves(before: seq<Command>, after: seq<Command>)
    requires Exec(before).Done? && Replay(NO_ACCOUNTS, Exec(before).value.log).Done?
  {
    var r := ExecFrom(Restarted(Exec(before).value.log), after);
    Exec(before + after).Done? && r.Done? && r.value.log == Exec(before + after).value.log
  }

  lemma {:induction false} FreshId(ids: seq<OrderId>) returns (id: OrderId)
    ensures forall x :: x in ids ==> x < id
  {
    if ids == [] { id := 0; }
    else {
      id := FreshId(ids[1..]);
      id := if id <= ids[0] then ids[0] + 1 else id;
      assert ids == [ids[0]] + ids[1..];
    }
  }

  lemma {:induction false} PlacedIdsHave(cmds: seq<Command>, i: nat)
    requires i < |cmds| && cmds[i].Place?
    ensures cmds[i].placement.id in PlacedIds(cmds)
  {
    if i < |cmds| - 1 { PlacedIdsHave(cmds[..|cmds| - 1], i); }
  }

  /** A probe may follow any run that has not used its id. */
  lemma {:induction false} ProbeMayFollow(before: seq<Command>, o: Order, id: OrderId, qty: real)
    requires WellFormed(before) && SaneRun(before) && id !in PlacedIds(before)
    requires qty > 0.0 && o.MatchPrice() >= 0.0 && (o.side == Buy ==> o.symbol != "")
    ensures MayFollow(before, Probe(o, id, qty))
  {
    ValuePositive(o.MatchPrice(), qty);
    hide Value;
    var all := before + Probe(o, id, qty);
    assert forall i :: 0 <= i < |before| ==> all[i] == before[i];
    assert all[|before|] == Funding(o, qty) && all[|before| + 1] == Place(Taker(o, id, qty));
    forall i, j | 0 <= i < j < |all| && all[i].Place? && all[j].Place?
      ensures all[i].placement.id != all[j].placement.id {
      if j == |before| + 1 { PlacedIdsHave(before, i); }
    }
  }

  lemma {:induction false} RunOf(before: seq<Command>, o: Order, id: OrderId, qty: real)
    requires Exec(before).Done?
    requires Step(Exec(before).value, Funding(o, qty)).Done?
    ensures Exec(before + Probe(o, id, qty))
      == Step(Step(Exec(before).value, Funding(o, qty)).value, Place(Taker(o, id, qty)))
  {
    var c, d := Funding(o, qty), Place(Taker(o, id, qty));
    var all := before + Probe(o, id, qty);
    assert all[..|all| - 1] == before + [c] && all[|all| - 1] == d;
    assert (before + [c])[..|before|] == before;
    hide Step;
  }

  /** A probe that shows a phantom. */
  lemma {:induction false} PhantomShows(before: seq<Command>, o: Order) returns (after: seq<Command>)
    requires WellFormed(before) && SaneRun(before)
    requires Exec(before).Done? && Replay(NO_ACCOUNTS, Exec(before).value.log).Done?
    requires o.id in Exec(before).value.repo.orders && Exec(before).value.repo.orders[o.id] == o && Noticed(o)
    ensures MayFollow(before, after) && ExecFrom(Restarted(Exec(before).value.log), after).Raised?
  {
    RestartedIs(before);
    RunsAgree(before);
    var s := Exec(before).value;
    var t := Restarted(s.log);
    hide Exec, RestartedFrom, Restarted;
    var id := FreshId(s.repo.ids);
    IdsMatch(s);
    PhantomPriced(s, o);
    var qty := ReachingQty(t, s, o);
    ProbedAfterRestart(s, t, o, id, qty);
    PhantomRaises(t, o, id, qty);
    ProbeMayFollow(before, o, id, qty);
    after := Probe(o, id, qty);
  }

  lemma PhantomPriced(s: State, o: Order)
    requires Inv(s) && o.id in s.repo.orders && s.repo.orders[o.id] == o && Phantom(o)
    ensures Returns(o) && o.MatchPrice() >= 0.0 && o.filled == 0.0 && o.qty > 0.0
  {
    assert OrderOk(o.id, o);
  }

  /** A quantity that outweighs the queues o may be in. */
  lemma {:induction false} ReachingQty(t: State, s: State, o: Order) returns (qty: real)
    ensures qty > 0.0 && qty > Volume(BookOf(t.books, o.symbol).On(o.side)) &&
      qty > Volume(BookOf(s.books, o.symbol).On(o.side))
  {
    var v, w := Volume(BookOf(t.books, o.symbol).On(o.side)), Volume(BookOf(s.books, o.symbol).On(o.side));
    qty := 1.0 + (if v > 0.0 then v else 0.0) + (if w > 0.0 then w else 0.0);
  }

  /** A probe that shows a lost order. */
  lemma {:induction false} LostShows(before: seq<Command>, o: Order) returns (after: seq<Command>)
    requires WellFormed(before) && SaneRun(before)
    requires Exec(before).Done? && Replay(NO_ACCOUNTS, Exec(before).value.log).Done?
    requires o.id in Exec(before).value.repo.orders && Exec(before).value.repo.orders[o.id] == o && Lost(o)
    ensures MayFollow(before, after) && !Behaves(before, after)
  {
    RestartedIs(before);
    RunsAgree(before);
    var s := Exec(before).value;
    var t := Restarted(s.log);
    var id := FreshId(s.repo.ids);
    IdsMatch(s);
    assert OrderOk(o.id, o);
    hide Exec, RestartedFrom, Restarted, Inv, Volume;
    var qty := ReachingQty(t, s, o);
    ProbedLive(s, o, id, qty);
    ProbeMayFollow(before, o, id, qty);
    after := Probe(o, id, qty);
    ProbeDiffers(before, s, t, o, id, qty);
  }

  lemma {:induction false} ProbeDiffers(before: seq<Command>, s: State, t: State, o: Order, id: OrderId, qty: real)
    requires Exec(before).Done? && s == Exec(before).value && Replay(NO_ACCOUNTS, s.log).Done? && t == Restarted(s.log)
    requires Inv(s) && RestartedFrom(s, t) && Probed(s, o, id, qty) && Lost(o) && o.side == Sell && o.Remaining() > 0.0
    ensures !Behaves(before, Probe(o, id, qty))
  {
    var e := RestingTrades(s, o, id, qty);
    NotRestored(s, t, o);
    assert Balanced(t.accounts.Get("taker"));
    TakerAccepted(t, o, id, qty);
    TakerAccepted(s, o, id, qty);
    RunOf(before, o, id, qty);
    ExecProbe(t, o, id, qty);
    var c, p := Funding(o, qty), Taker(o, id, qty);
    var s1, t1 := Step(s, c).value, Step(t, c).value;
    StepOfPlace(t1, p);
    assert NewEvents(s, c) == NewEvents(t, c);
    hide Exec, Step, PlaceOrder, RestartedFrom, Restarted, Inv, Accepts, Probed, Replay, ExecFrom;
    if Behaves(before, Probe(o, id, qty)) {
      StepLog(s1, Place(p));
      StepLog(t1, Place(p));
      SameTail(s1.log, NewEvents(s1, Place(p)), NewEvents(t1, Place(p)));
      MissingTradesNot(t, o, id, qty, e);
      assert false;
    }
  }

  /** A lost order is on no restored book. */
  lemma NotRestored(s: State, t: State, o: Order)
    requires RestartedFrom(s, t) && o.id in s.repo.orders && s.repo.orders[o.id] == o && Lost(o)
    ensures forall y :: y in BookOf(t.books, o.symbol).asks ==> y.orderId != o.id
  {
    assert SideRestored(s.repo, s.repo.ids, o.symbol, Sell, BookOf(t.books, o.symbol).On(Sell));
  }

  // ---------- and when it does not ----------

  /**
   * An order that was rejected and yet returns, where it can be traded: not a BUY of the symbol without a name, which
   * nobody can ever sell.
   */
  predicate Noticed(o: Order) { Phantom(o) && (o.side == Sell || o.symbol != "") }

  predicate Unnoticed(s: State) {
    forall id :: id in s.repo.orders ==> !Noticed(s.repo.orders[id]) && !Lost(s.repo.orders[id])
  }

  /** The restarted exchange with the live bids for the symbol without a name. */
  function WithBids(s: State, t: State): State { t.(books := t.books["" := BookOf(s.books, "")]) }

  /** With nothing to notice, the books came back but for what is bid there. */
  lemma {:induction false} BooksButForBids(s: State, t: State)
    requires Inv(s) && RestartedFrom(s, t) && Unnoticed(s) && BookOf(s.books, "").asks == []
    ensures forall sym :: sym != "" ==> SameBook(t.books, s.books, sym)
    ensures BookOf(t.books, "").asks == [] && BidsKnown(t)
  {
    hide SideAgrees, SideRestored, LedgerAgrees, Queue;
    forall sym, side | sym != "" || side == Sell
      ensures BookOf(s.books, sym).On(side) == BookOf(t.books, sym).On(side) {
      assert SideMatches(s.repo, s.books, sym, side);
      ReturnIfLive(s, sym, side);
      SameSide(s.repo, BookOf(s.books, sym).On(side), BookOf(t.books, sym).On(side), sym, side);
    }
    forall sym | sym != "" ensures SameBook(t.books, s.books, sym) {
      assert BookOf(s.books, sym).On(Buy) == BookOf(t.books, sym).On(Buy);
      assert BookOf(s.books, sym).On(Sell) == BookOf(t.books, sym).On(Sell);
    }
    assert BookOf(s.books, "").On(Sell) == BookOf(t.books, "").On(Sell);
    assert SideRestored(s.repo, s.repo.ids, "", Buy, BookOf(t.books, "").On(Buy));
    KnownWhenRestored(s.repo, BookOf(t.books, "").bids);
  }

  lemma ReturnIfLive(s: State, sym: Symbol, side: Side)
    requires RepoOk(s.repo) && Unnoticed(s) && (sym != "" || side == Sell)
    ensures forall id :: id in s.repo.orders && s.repo.orders[id].symbol == sym && s.repo.orders[id].side == side ==>
      (Returns(s.repo.orders[id]) <==> Live(s.repo.orders[id]))
  {
    forall id | id in s.repo.orders && s.repo.orders[id].symbol == sym && s.repo.orders[id].side == side
      ensures Returns(s.repo.orders[id]) <==> Live(s.repo.orders[id])
    {
      ReturnsWhen(id, s.repo.orders[id]);
    }
  }

  lemma KnownWhenRestored(repo: Repo, es: seq<BookEntry>)
    requires SideRestored(repo, repo.ids, "", Buy, es)
    ensures forall e :: e in es ==> e.orderId in repo.orders
  {
  }

  lemma {:induction false} AlikeWithBids(before: seq<Command>)
    requires WellFormed(before) && SaneRun(before) && Exec(before).Done? && Unnoticed(Exec(before).value)
    ensures Replay(NO_ACCOUNTS, Exec(before).value.log).Done?
    ensures var s, t := Exec(before).value, Restarted(Exec(before).value.log);
      && Inv(WithBids(s, t)) && Alike(s, WithBids(s, t)) && ButForBids(WithBids(s, t), t) && BidsKnown(t)
  {
    RestartedIs(before);
    ReplayIsLive(before);
    NobodyEverHolds(before);
    var s, t := Exec(before).value, Restarted(Exec(before).value.log);
    ReplayedAccounts(s.log);
    hide Exec, Inv, Restarted, Replay, NobodyHolds, Unnoticed;
    NobodyOffers(s);
    BooksButForBids(s, t);
    PatchIsAlike(s, t);
  }

  lemma ReplayedAccounts(log: seq<Event>)
    requires Replay(NO_ACCOUNTS, log).Done?
    ensures Restarted(log).accounts == Replay(NO_ACCOUNTS, log).value
  {
  }

  lemma {:induction false} PatchIsAlike(s: State, t: State)
    requires Inv(s) && RestartedFrom(s, t) && Twins(t.accounts, s.accounts, {}) && AccountsOk(t.accounts)
    requires forall sym :: sym != "" ==> SameBook(t.books, s.books, sym)
    requires BookOf(s.books, "").asks == [] && BookOf(t.books, "").asks == []
    ensures Inv(WithBids(s, t)) && Alike(s, WithBids(s, t)) && ButForBids(WithBids(s, t), t)
  {
    var u := WithBids(s, t);
    forall sym ensures SameBook(u.books, s.books, sym) {
      assert sym != "" ==> SameBook(t.books, s.books, sym);
    }
    hide Inv, Twins, SideRestored, Balanced, AccountsOk;
    AlikeInv(s, u);
    forall sym | sym != "" ensures SameBook(t.books, u.books, sym) { assert SameBook(t.books, s.books, sym); }
  }

  lemma {:induction false} UnnoticedBehaves(before: seq<Command>, after: seq<Command>)
    requires WellFormed(before) && SaneRun(before) && Exec(before).Done? && Unnoticed(Exec(before).value)
    requires Replay(NO_ACCOUNTS, Exec(before).value.log).Done? && MayFollow(before, after)
    ensures Behaves(before, after)
  {
    AlikeWithBids(before);
    var s, t := Exec(before).value, Restarted(Exec(before).value.log);
    hide Exec, Inv, Restarted, Replay, Unnoticed, BidsKnown, Alike, ButForBids, ExecFrom;
    RunsButForBids(before, WithBids(s, t), t, after);
    AlikeReads(Exec(before + after).value, ExecFrom(WithBids(s, t), after).value);
    SameButBids(ExecFrom(WithBids(s, t), after).value, ExecFrom(t, after).value);
  }

  lemma SameButBids(s: State, t: State)
    requires ButForBids(s, t)
    ensures t.log == s.log
  {
  }

  /**
   * Exactly when a restart goes unnoticed: whatever is commanded afterwards, the restarted exchange does not raise
   * and writes the same events, if and only if no order with a price to rest at was rejected, other than a BUY of the
   * symbol without a name, and no LIMIT order without a price rests.
   */
  lemma {:induction false} RestartBehavesExactly(before: seq<Command>)
    requires WellFormed(before) && SaneRun(before)
    ensures Exec(before).Done? && Replay(NO_ACCOUNTS, Exec(before).value.log).Done?
    ensures Unnoticed(Exec(before).value) <==>
      forall after {:trigger MayFollow(before, after)} :: MayFollow(before, after) ==> Behaves(before, after)
  {
    RestartedIs(before);
    var s := Exec(before).value;
    IdsMatch(s);
    hide Inv, Exec, Restarted, RestartedFrom, Behaves;
    if Unnoticed(s) {
      forall after | MayFollow(before, after) ensures Behaves(before, after) { UnnoticedBehaves(before, after); }
    } else {
      var id :| id in s.repo.orders && (Noticed(s.repo.orders[id]) || Lost(s.repo.orders[id]));
      if Lost(s.repo.orders[id]) { var after := LostShows(before, s.repo.orders[id]); }
      else {
        var after := PhantomShows(before, s.repo.orders[id]);
        RaisingMisbehaves(before, after);
      }
    }
  }

  lemma RaisingMisbehaves(before: seq<Command>, after: seq<Command>)
    requires Exec(before).Done? && Replay(NO_ACCOUNTS, Exec(before).value.log).Done?
    requires ExecFrom(Restarted(Exec(before).value.log), after).Raised?
    ensures !Behaves(before, after)
  {
  }
}
