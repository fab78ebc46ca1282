/** The exchange in order-against-order mode as a state machine: one REST command and its drain per step. */
module Exchange {
  import opened Domain
  import opened PriceTime
  import opened Matching
  import opened Ledger
  import opened Orders

  datatype Command =
    | CashIn(account: AccountId, amount: real)
    | CashOut(account: AccountId, amount: real)
    | SharesIn(account: AccountId, symbol: Symbol, qty: real)
    | Place(placement: Placement)
    | Cancel(id: OrderId)

  datatype State = State(accounts: Accounts, repo: Repo, books: map<Symbol, Book>, seen: set<OrderId>,
                         log: seq<Event>)

  const EMPTY_BOOK := Book([], [])
  const INITIAL := State(NO_ACCOUNTS, Repo([], map[]), map[], {}, [])

  function BookOf(books: map<Symbol, Book>, sym: Symbol): Book {
    if sym in books then books[sym] else EMPTY_BOOK
  }

  // ---------- matching engine commands ----------

  datatype Submission = Submission(trades: seq<Trade>, books: map<Symbol, Book>, seen: set<OrderId>, remain: seq<Event>)

  /** Insert without crossing. */
  function ReplayOrder(books: map<Symbol, Book>, sym: Symbol, side: Side, e: BookEntry): map<Symbol, Book> {
    var b := BookOf(books, sym);
    books[sym := b.With(side, Insort(b.On(side), e))]
  }

  function FindEntry(es: seq<BookEntry>, id: OrderId): Option<BookEntry> {
    if es == [] then None
    else if es[0].orderId == id then Some(es[0])
    else FindEntry(es[1..], id)
  }

  /** An id seen before is ignored; otherwise add, cross, and report what still rests. */
  function SubmitOrder(books: map<Symbol, Book>, seen: set<OrderId>, sym: Symbol, side: Side,
                       e: BookEntry): Submission {
    if e.orderId in seen then Submission([], books, seen, [])
    else
      var m := Submit(sym, BookOf(books, sym), side, e);
      Submission(m.trades, books[sym := m.book], seen + {e.orderId}, Remainder(m.book, sym, side, e.orderId, e.qty))
  }

  /** The event telling that an order is still on the book, if it is. */
  function Remainder(b: Book, sym: Symbol, side: Side, id: OrderId, qty: real): seq<Event> {
    var rest := FindEntry(b.On(side), id);
    if rest == None then [] else [OrderRemainOnBook(id, sym, side, rest.value.qty, qty)]
  }

  function RemoveEntry(es: seq<BookEntry>, id: OrderId): seq<BookEntry> {
    if es == [] then []
    else if es[0].orderId == id then es[1..]
    else [es[0]] + RemoveEntry(es[1..], id)
  }

  /** Finding nothing and removing nothing go together. */
  lemma {:induction false} FindMeans(es: seq<BookEntry>, id: OrderId)
    ensures FindEntry(es, id).Some? <==> exists e :: e in es && e.orderId == id
    ensures FindEntry(es, id).Some? ==> FindEntry(es, id).value in es && FindEntry(es, id).value.orderId == id
    ensures FindEntry(es, id).None? ==> RemoveEntry(es, id) == es
    decreases |es|
  {
    if es != [] {
      assert es == [es[0]] + es[1..];
      FindMeans(es[1..], id);
    }
  }

  /** The entry a cancellation finds. */
  function FindInBook(b: Book, id: OrderId): Option<BookEntry> {
    if FindEntry(b.bids, id).Some? then FindEntry(b.bids, id) else FindEntry(b.asks, id)
  }

  /** The BUY side is searched first, the SELL side only if the id is not there. */
  function RemoveFromBook(b: Book, id: OrderId): Book {
    if FindEntry(b.bids, id).Some? then b.(bids := RemoveEntry(b.bids, id))
    else b.(asks := RemoveEntry(b.asks, id))
  }

  // ---------- trade by trade settlement ----------

  /** What a routed order's trades act on; `fills` is the OMS queue drained after the routing. */
  datatype Desk = Desk(accounts: Accounts, repo: Repo, log: seq<Event>, fills: seq<Event>)

  function FillEvent(o: Order, qty: real): Event { OrderFilled(o.id, qty, o.filled, o.status) }

  /** The OMS reaction to one side of a trade. */
  function OnFill(repo: Repo, id: OrderId, qty: real): Outcome<Repo> {
    if id !in repo.orders then Raised(OrderNotFound)
    else
      match FillOrder(repo.orders[id], qty)
      case Raised(e) => Raised(e)
      case Done(o) => Done(Repo(repo.ids, repo.orders[id := o]))
  }

  lemma FillKeepsKeys(r: Repo, id: OrderId, qty: real)
    requires OnFill(r, id, qty).Done?
    ensures id in r.orders && OnFill(r, id, qty).value.orders.Keys == r.orders.Keys
  {
  }

  function ApplyTrade(d: Desk, t: Trade): Outcome<Desk> {
    match OnFill(d.repo, t.buyId, t.qty)
    case Raised(e) => Raised(e)
    case Done(r1) =>
      match OnFill(r1, t.sellId, t.qty)
      case Raised(e) => Raised(e)
      case Done(r2) =>
        if t.buyId !in r2.orders || t.sellId !in r2.orders then Raised(OrderNotFound)
        else
          var buyer, seller := r2.orders[t.buyId].account, r2.orders[t.sellId].account;
          match TrySettle(d.accounts, buyer, seller, t.buyId, t.sellId, t.symbol, t.price, t.qty)
          case Raised(e) => Raised(e)
          case Done(l) =>
            Done(Desk(l, r2,
                      d.log + [TradeExecuted(t),
                               TradeSettlement(buyer, seller, t.buyId, t.sellId, t.symbol, t.price, t.qty)],
                      d.fills + [FillEvent(r1.orders[t.buyId], t.qty), FillEvent(r2.orders[t.sellId], t.qty)]))
  }

  function ApplyTrades(d: Desk, ts: seq<Trade>): Outcome<Desk>
    decreases |ts|
  {
    if ts == [] then Done(d)
    else
      match ApplyTrade(d, ts[0])
      case Raised(e) => Raised(e)
      case Done(d1) => ApplyTrades(d1, ts[1..])
  }

  /** What taking an order in leaves behind: the ledger, the repository and the events to hand on. */
  datatype Intake = Intake(accounts: Accounts, repo: Repo, events: seq<Event>)

  function TakeIn(l: Accounts, repo: Repo, p: Placement): Intake {
    var lock := LockFunds(l, p.account, p.id, p.symbol, p.side, p.qty, p.price);
    match lock.rejected
    case Some(reason) => Intake(lock.accounts, repo.Add(NewOrder(p).(status := Rejected)),
      [OrderRejected(p.id, reason)])
    case None => Intake(lock.accounts, repo.Add(NewOrder(p).(status := Routed)),
      [OrderAccepted(p.id), OrderRouted(p.id, p.symbol)])
  }

  // ---------- commands ----------

  function Entry(o: Order): BookEntry {
    EntryFor(o.side, o.MatchPrice(), o.createdAt, o.id, o.Remaining(), o.account)
  }

  function Route(s: State, o: Order): Outcome<State> {
    var sub := SubmitOrder(s.books, s.seen, o.symbol, o.side, Entry(o));
    match ApplyTrades(Desk(s.accounts, s.repo, s.log, []), sub.trades)
    case Raised(e) => Raised(e)
    case Done(d) => Done(State(d.accounts, d.repo, sub.books, sub.seen, d.log + sub.remain + d.fills))
  }

  function PlaceOrder(s: State, p: Placement): Outcome<State> {
    var o := NewOrder(p);
    var lock := LockFunds(s.accounts, p.account, p.id, p.symbol, p.side, p.qty, p.price);
    var log := s.log + [OrderPlaced(p)];
    match lock.rejected
    case Some(reason) =>
      (match Transition(o, Rejected)
       case Raised(e) => Raised(e)
       case Done(o1) => Done(s.(accounts := lock.accounts, repo := s.repo.Add(o1),
                                log := log + [OrderRejected(p.id, reason)])))
    case None =>
      match Transition(o, Accepted)
      case Raised(e) => Raised(e)
      case Done(o1) =>
        match Transition(o1, Routed)
        case Raised(e) => Raised(e)
        case Done(o2) =>
          Route(s.(accounts := lock.accounts, repo := s.repo.Add(o2),
                   log := log + [OrderAccepted(p.id), OrderRouted(p.id, p.symbol)]), o2)
  }

  /** An unknown id is refused at the door and changes nothing. */
  function CancelOrder(s: State, id: OrderId): Outcome<State> {
    if id !in s.repo.orders then Done(s)
    else
      var o := s.repo.orders[id];
      if !o.IsCancelable() then Done(s.(log := s.log + [CancelRejected(id)]))
      else
        match Transition(o, Canceled)
        case Raised(e) => Raised(e)
        case Done(o1) =>
          Done(State(Unlock(s.accounts, o.account, id), Repo(s.repo.ids, s.repo.orders[id := o1]),
                     s.books[o.symbol := RemoveFromBook(BookOf(s.books, o.symbol), id)],
                     s.seen, s.log + [OrderCanceled(id)]))
  }

  /** A withdrawal that cannot be covered only makes sure the account exists. */
  function Step(s: State, c: Command): Outcome<State> {
    match c
    case CashIn(a, amount) =>
      Done(s.(accounts := Deposit(s.accounts, a, amount), log := s.log + [AccountUpdated(a, amount, "", 0.0)]))
    case CashOut(a, amount) =>
      (match Withdraw(s.accounts, a, amount)
       case Raised(e) => Done(s.(accounts := s.accounts.Put(a, s.accounts.Get(a))))
       case Done(l) => Done(s.(accounts := l, log := s.log + [AccountUpdated(a, -amount, "", 0.0)])))
    case SharesIn(a, sym, qty) =>
      Done(s.(accounts := Seed(s.accounts, a, sym, qty), log := s.log + [AccountUpdated(a, 0.0, sym, qty)]))
    case Place(p) => PlaceOrder(s, p)
    case Cancel(id) => CancelOrder(s, id)
  }

  function Exec(cmds: seq<Command>): Outcome<State> {
    if cmds == [] then Done(INITIAL)
    else
      match Exec(cmds[..|cmds| - 1])
      case Raised(e) => Raised(e)
      case Done(s) => Step(s, cmds[|cmds| - 1])
  }

  // ---------- which commands the boundary lets through ----------

  /** Amounts and quantities are positive; a seed names a symbol. */
  predicate Positive(c: Command) {
    match c
    case CashIn(_, amount) => amount > 0.0
    case CashOut(_, amount) => amount > 0.0
    case SharesIn(_, sym, qty) => sym != "" && qty > 0.0
    case Place(p) => p.qty > 0.0
    case Cancel(_) => true
  }

  /** Every placement carries an id of its own. */
  predicate FreshIds(cmds: seq<Command>) {
    forall i, j :: 0 <= i < j < |cmds| && cmds[i].Place? && cmds[j].Place? ==>
      cmds[i].placement.id != cmds[j].placement.id
  }

  /** What the REST boundary guarantees of any run. */
  predicate WellFormed(cmds: seq<Command>) {
    (forall i :: 0 <= i < |cmds| ==> Positive(cmds[i])) && FreshIds(cmds)
  }

  /**
   * The order shapes the ledger can carry: a BUY without a price (always rejected), or one whose price is no
   * less than zero and no less than what it is matched at; a SELL that is matched at no less than zero.
   */
  predicate SaneShape(side: Side, otype: OrderType, price: Option<real>) {
    match side
    case Buy => price.Some? ==> price.value >= 0.0 && price.value >= EffectivePrice(Buy, otype, price)
    case Sell => EffectivePrice(Sell, otype, price) >= 0.0
  }

  predicate Sane(c: Command) {
    c.Place? ==> SaneShape(c.placement.side, c.placement.otype, c.placement.price)
  }

  predicate SaneRun(cmds: seq<Command>) { forall i :: 0 <= i < |cmds| ==> Sane(cmds[i]) }
}
