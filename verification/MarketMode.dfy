/** The exchange in order-against-market mode: orders fill in full against the last quote of their symbol. */
module MarketMode {
  import opened Domain
  import opened Matching
  import opened Ledger
  import opened Orders
  import opened Exchange
  import opened Agreement

  datatype Quote = Quote(bid: real, ask: real)

  datatype Venue = Venue(accounts: Accounts, repo: Repo, quotes: map<Symbol, Quote>, log: seq<Event>)

  /** A command of the REST boundary, a quote that triggers a scan, or one that is only fetched into the cache. */
  datatype MarketCommand =
    | User(command: Command)
    | Tick(symbol: Symbol, quote: Quote)
    | Fetch(symbol: Symbol, quote: Quote)

  const OPENING := Venue(NO_ACCOUNTS, Repo([], map[]), map[], [])

  /** A BUY meets the ask, a SELL meets the bid; a side that is not quoted fills nothing. */
  predicate Fillable(o: Order, q: Quote) {
    match o.side
    case Buy => o.MatchPrice() >= q.ask && q.ask > 0.0
    case Sell => o.MatchPrice() <= q.bid && q.bid > 0.0
  }

  function QuotedPrice(side: Side, q: Quote): real { if side == Buy then q.ask else q.bid }

  // ---------- commands ----------

  /** The trade of a fill: there is no counterparty, so the order stands on both sides. */
  function MarketTrade(o: Order, q: Quote): Trade {
    Trade(o.symbol, QuotedPrice(o.side, q), o.Remaining(), o.id, o.id, Other(o.side))
  }

  /** Fill what remains of an order if the quote allows it. */
  function TryFill(m: Venue, id: OrderId, q: Quote): Outcome<Venue> {
    if id !in m.repo.orders then Raised(OrderNotFound)
    else
      var o := m.repo.orders[id];
      var qty := o.Remaining();
      if !Fillable(o, q) || qty <= 0.0 then Done(m)
      else
        match OnFill(m.repo, o.id, qty)
        case Raised(e) => Raised(e)
        case Done(r) =>
          Done(m.(repo := r,
                  accounts := SettleMarket(m.accounts, o.account, o.id, o.symbol, o.side, QuotedPrice(o.side, q), qty),
                  log := m.log + [TradeExecuted(MarketTrade(o, q)), FillEvent(r.orders[o.id], qty)]))
  }

  // ---------- the same, by the terms of an order ----------

  /** What a BUY pays at the most; a MARKET order names no price that matters. */
  function MostBid(o: Order): real {
    if o.otype == Market then 999999999.0 else if o.price.Some? then o.price.value else 0.0
  }

  /** What a SELL takes at the least. */
  function LeastAsked(o: Order): real {
    if o.otype == Market then 0.0 else if o.price.Some? then o.price.value else 0.0
  }

  /** The order and the quote meet: the quote names a price on the other side, and the order takes it. */
  predicate Meets(o: Order, q: Quote) {
    match o.side
    case Buy => 0.0 < q.ask <= MostBid(o)
    case Sell => 0.0 < q.bid && LeastAsked(o) <= q.bid
  }

  /** The trade of an order with the market: all of what remains, at the ask or at the bid, and nobody else's. */
  function FillAt(o: Order, q: Quote): Trade {
    match o.side
    case Buy => Trade(o.symbol, q.ask, o.qty - o.filled, o.id, o.id, Sell)
    case Sell => Trade(o.symbol, q.bid, o.qty - o.filled, o.id, o.id, Buy)
  }

  /** What a fill writes. */
  function FillLog(o: Order, q: Quote): seq<Event> {
    [TradeExecuted(FillAt(o, q)), OrderFilled(o.id, o.qty - o.filled, o.qty, Status.Filled)]
  }

  /** The order is closed, and the log tells of its trade and its fill. */
  predicate FilledAt(m: Venue, id: OrderId, q: Quote, m': Venue)
    requires id in m.repo.orders
  {
    var o := m.repo.orders[id];
    && m'.log == m.log + FillLog(o, q) && m'.quotes == m.quotes
    && m'.repo == m.repo.Set(o.(filled := o.qty, status := Status.Filled))
  }

  /** Exactly an order that meets the quote, and of which something remains, is filled. */
  lemma FillTells(m: Venue, id: OrderId, q: Quote)
    requires id in m.repo.orders && m.repo.orders[id].id == id
    ensures var o := m.repo.orders[id];
      if !Meets(o, q) || o.Remaining() <= 0.0 then TryFill(m, id, q) == Done(m)
      else TryFill(m, id, q).Done? ==> FilledAt(m, id, q, TryFill(m, id, q).value)
  {
    hide SettleMarket;
  }

  /** The orders a scan looks at. */
  predicate Scanned(o: Order, sym: Symbol) { o.symbol == sym && Live(o) && o.Remaining() > 0.0 }

  /** Go through the orders in order of arrival. */
  function ScanOrders(m: Venue, ids: seq<OrderId>, sym: Symbol, q: Quote): Outcome<Venue>
    decreases |ids|
  {
    if ids == [] then Done(m)
    else if ids[0] !in m.repo.orders || !Scanned(m.repo.orders[ids[0]], sym) then ScanOrders(m, ids[1..], sym, q)
    else
      match TryFill(m, ids[0], q)
      case Raised(e) => Raised(e)
      case Done(m1) => ScanOrders(m1, ids[1..], sym, q)
  }

  function AfterMarketIntake(m: Venue, p: Placement): Venue {
    var taken := TakeIn(m.accounts, m.repo, p);
    m.(accounts := taken.accounts, repo := taken.repo, log := m.log + [OrderPlaced(p)] + taken.events)
  }

  /** An accepted order is tried at once against the last quote, if there is one. */
  function MarketPlace(m: Venue, p: Placement): Outcome<Venue> {
    var m1 := AfterMarketIntake(m, p);
    if m1.repo.orders[p.id].status == Routed && p.symbol in m.quotes then TryFill(m1, p.id, m.quotes[p.symbol])
    else Done(m1)
  }

  /** The part of the state that the other commands work on; no order is ever on a book. */
  function Core(m: Venue): State { State(m.accounts, m.repo, map[], {}, m.log) }

  function MarketStep(m: Venue, c: MarketCommand): Outcome<Venue> {
    match c
    case Fetch(sym, q) => Done(m.(quotes := m.quotes[sym := q]))
    case Tick(sym, q) => ScanOrders(m.(quotes := m.quotes[sym := q]), m.repo.ids, sym, q)
    case User(Place(p)) => MarketPlace(m, p)
    case User(c) =>
      match Step(Core(m), c)
      case Raised(e) => Raised(e)
      case Done(s) => Done(m.(accounts := s.accounts, repo := s.repo, log := s.log))
  }

  function MarketExec(cs: seq<MarketCommand>): Outcome<Venue> {
    if cs == [] then Done(OPENING)
    else
      match MarketExec(cs[..|cs| - 1])
      case Raised(e) => Raised(e)
      case Done(m) => MarketStep(m, cs[|cs| - 1])
  }

  // ---------- which commands are let through ----------

  /** A BUY that carries a price carries one that is not negative and not below what it is matched at. */
  predicate Admissible(c: MarketCommand) {
    c.User? ==> Positive(c.command) && (c.command.Place? && c.command.placement.side == Buy ==> Sane(c.command))
  }

  predicate MarketFreshIds(cs: seq<MarketCommand>) {
    forall i, j :: 0 <= i < j < |cs| && IsPlace(cs[i]) && IsPlace(cs[j]) ==> PlacedBy(cs[i]) != PlacedBy(cs[j])
  }

  predicate IsPlace(c: MarketCommand) { c.User? && c.command.Place? }

  function PlacedBy(c: MarketCommand): OrderId
    requires IsPlace(c)
  {
    c.command.placement.id
  }

  predicate MarketWellFormed(cs: seq<MarketCommand>) {
    (forall i :: 0 <= i < |cs| ==> Admissible(cs[i])) && MarketFreshIds(cs)
  }
}
