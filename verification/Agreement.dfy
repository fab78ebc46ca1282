/** The invariant tying book, order repository and ledger together. */
module Agreement {
  import opened Domain
  import opened PriceTime
  import opened Matching
  import opened Ledger
  import opened Orders
  import opened Exchange

  // ---------- orders ----------

  /** On the book, waiting for a counterparty. */
  predicate Live(o: Order) { o.status == Routed || o.status == PartiallyFilled }

  /** Orders whose lock record exists: every live one, and every BUY that was filled. */
  predicate HoldsLock(o: Order) { Live(o) || (o.status == Status.Filled && o.side == Buy) }

  predicate OrderOk(id: OrderId, o: Order) {
    && o.id == id
    && o.qty > 0.0
    && (match o.status
        case Routed => o.filled == 0.0
        case PartiallyFilled => 0.0 < o.filled < o.qty
        case Filled => o.filled == o.qty
        case Canceled => 0.0 <= o.filled < o.qty
        case Rejected => o.filled == 0.0
        case _ => false)
    && SaneShape(o.side, o.otype, o.price)
    && (o.side == Buy && o.status != Rejected ==> o.price.Some?)
  }

  ghost predicate RepoOk(repo: Repo) {
    && (forall i, j :: 0 <= i < j < |repo.ids| ==> repo.ids[i] != repo.ids[j])
    && (forall id :: id in repo.ids <==> id in repo.orders)
    && (forall id :: id in repo.orders ==> OrderOk(id, repo.orders[id]))
  }

  // ---------- book and repository ----------

  predicate Rests(o: Order, sym: Symbol, side: Side) { Live(o) && o.symbol == sym && o.side == side }

  /** One side of one book holds exactly the entries of the live orders of that symbol and side, in priority order. */
  ghost predicate SideAgrees(ids: seq<OrderId>, orders: map<OrderId, Order>, sym: Symbol, side: Side,
                             es: seq<BookEntry>) {
    && (forall e :: e in es ==>
          e.orderId in orders && Rests(orders[e.orderId], sym, side) && e == Entry(orders[e.orderId]))
    && (forall id :: id in orders && Rests(orders[id], sym, side) ==> Entry(orders[id]) in es)
    && Queue(ids, es)
  }

  ghost predicate BooksAgree(repo: Repo, books: map<Symbol, Book>) {
    forall sym, side :: SideMatches(repo, books, sym, side)
  }

  ghost predicate SideMatches(repo: Repo, books: map<Symbol, Book>, sym: Symbol, side: Side) {
    SideAgrees(repo.ids, repo.orders, sym, side, BookOf(books, sym).On(side))
  }

  ghost predicate Uncrossed(books: map<Symbol, Book>) { forall sym :: !Crossable(BookOf(books, sym)) }

  // ---------- ledger and repository ----------

  /** The lock record an order must have: enough cash for what remains at the limit, or the shares that remain. */
  predicate LockFor(o: Order, k: Lock) {
    && HoldsLock(o)
    && k.side == o.side && k.symbol == o.symbol
    && (o.side == Buy ==> k.qty == o.qty && k.cash >= Value(o.Limit(), o.Remaining()))
    && (o.side == Sell ==> k.cash == 0.0 && k.qty == o.Remaining())
  }

  ghost predicate AccountsOk(l: Accounts) {
    && (forall i, j :: 0 <= i < j < |l.ids| ==> l.ids[i] != l.ids[j])
    && (forall a :: a in l.ids <==> a in l.table)
  }

  ghost predicate LocksAgree(l: Accounts, orders: map<OrderId, Order>) {
    && (forall a, id :: id in l.Get(a).locks ==>
          id in orders && orders[id].account == a && LockFor(orders[id], l.Get(a).locks[id]))
    && (forall id :: id in orders && HoldsLock(orders[id]) ==> id in l.Get(orders[id].account).locks)
  }

  ghost predicate LedgerAgrees(l: Accounts, orders: map<OrderId, Order>) {
    && AccountsOk(l)
    && (forall a :: Balanced(l.Get(a)))
    && LocksAgree(l, orders)
  }

  /** Everything but "no book is crossed", which fails inside the crossing loop. */
  ghost predicate Agrees(l: Accounts, repo: Repo, books: map<Symbol, Book>) {
    RepoOk(repo) && BooksAgree(repo, books) && LedgerAgrees(l, repo.orders)
  }

  ghost predicate Inv(s: State) {
    && Agrees(s.accounts, s.repo, s.books)
    && Uncrossed(s.books)
    && (forall id :: id in s.seen ==> id in s.repo.orders)
  }

  // ---------- consequences ----------

  lemma AgreeingSideOk(ids: seq<OrderId>, orders: map<OrderId, Order>, sym: Symbol, side: Side, es: seq<BookEntry>)
    requires SideAgrees(ids, orders, sym, side, es)
    requires forall id :: id in orders ==> OrderOk(id, orders[id])
    ensures SideOk(side, es)
    ensures forall i, j :: 0 <= i < j < |es| ==> es[i].orderId != es[j].orderId
  {
    QueueSorted(ids, es);
    forall i, j | 0 <= i < j < |es| ensures es[i].orderId != es[j].orderId {
      assert Ahead(ids, es[i], es[j]);
      assert es[i] in es && es[j] in es;
    }
  }

  lemma BookOkFrom(repo: Repo, books: map<Symbol, Book>, sym: Symbol)
    requires RepoOk(repo) && BooksAgree(repo, books)
    ensures BookOk(BookOf(books, sym))
  {
    assert SideMatches(repo, books, sym, Buy) && SideMatches(repo, books, sym, Sell);
    AgreeingSideOk(repo.ids, repo.orders, sym, Buy, BookOf(books, sym).bids);
    AgreeingSideOk(repo.ids, repo.orders, sym, Sell, BookOf(books, sym).asks);
  }
}
