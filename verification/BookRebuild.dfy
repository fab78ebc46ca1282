/** Rebuilding the order books from the log: what comes back, and exactly when it is the live book. */
module BookRebuild {
  import opened Domain
  import opened PriceTime
  import opened Matching
  import opened Ledger
  import opened Orders
  import opened Exchange
  import opened Agreement
  import opened Runs
  import opened LogShape
  import opened ReplayRuns

  // ---------- phase 1: what the log says about each order ----------

  /** Placements by id with the ids in order of first appearance, ids canceled, and quantity traded per id. */
  datatype Findings = Findings(ids: seq<OrderId>, placed: map<OrderId, Placement>, canceled: set<OrderId>,
                               traded: map<OrderId, real>) {
    function Traded(id: OrderId): real { if id in traded then traded[id] else 0.0 }
  }

  const NO_FINDINGS := Findings([], map[], {}, map[])

  function AddTraded(f: Findings, id: OrderId, qty: real): Findings { f.(traded := f.traded[id := f.Traded(id) + qty]) }

  function Note(f: Findings, e: Event): Findings {
    match e
    case OrderPlaced(p) =>
      f.(ids := if p.id in f.placed then f.ids else f.ids + [p.id], placed := f.placed[p.id := p])
    case OrderCanceled(id) => f.(canceled := f.canceled + {id})
    case TradeExecuted(t) => AddTraded(AddTraded(f, t.buyId, t.qty), t.sellId, t.qty)
    case _ => f
  }

  function Scan(f: Findings, es: seq<Event>): Findings
    decreases |es|
  {
    if es == [] then f else Scan(Note(f, es[0]), es[1..])
  }

  lemma {:induction false} ScanAppend(f: Findings, xs: seq<Event>, ys: seq<Event>)
    ensures Scan(f, xs + ys) == Scan(Scan(f, xs), ys)
    decreases |xs|
  {
    if xs == [] { assert xs + ys == ys; }
    else {
      assert (xs + ys)[1..] == xs[1..] + ys;
      ScanAppend(Note(f, xs[0]), xs[1..], ys);
    }
  }

  predicate NotScanned(e: Event) { !(e.OrderPlaced? || e.OrderCanceled? || e.TradeExecuted?) }

  lemma {:induction false} ScanNothing(f: Findings, es: seq<Event>)
    requires forall e :: e in es ==> NotScanned(e)
    ensures Scan(f, es) == f
    decreases |es|
  {
    if es != [] {
      assert es[0] in es;
      ScanNothing(Note(f, es[0]), es[1..]);
    }
  }

  lemma ScanOne(f: Findings, e: Event, es: seq<Event>)
    ensures Scan(f, [e] + es) == Scan(Note(f, e), es)
  {
    assert ([e] + es)[1..] == es;
  }

  // ---------- what the log says is true of the repository ----------

  predicate Matches(p: Placement, canceled: bool, traded: real, o: Order) {
    SameTerms(NewOrder(p), o) && (canceled <==> o.status == Canceled) && traded == o.filled
  }

  ghost predicate FindingsMatch(f: Findings, repo: Repo) {
    && f.ids == repo.ids
    && f.placed.Keys == repo.orders.Keys
    && (forall id :: id in f.canceled || id in f.traded ==> id in repo.orders)
    && (forall id :: id in repo.orders ==> Matches(f.placed[id], id in f.canceled, f.Traded(id), repo.orders[id]))
  }

  lemma {:induction false} NoteTrade(d: Desk, t: Trade, f: Findings)
    requires ApplyTrade(d, t).Done? && FindingsMatch(f, d.repo)
    ensures FindingsMatch(Note(f, TradeExecuted(t)), ApplyTrade(d, t).value.repo)
  {
    hide FindingsMatch, AddTraded, Settle;
    var r1 := OnFill(d.repo, t.buyId, t.qty).value;
    NoteFill(d.repo, t.buyId, t.qty, f);
    NoteFill(r1, t.sellId, t.qty, AddTraded(f, t.buyId, t.qty));
  }

  lemma NoteFill(r: Repo, id: OrderId, qty: real, f: Findings)
    requires OnFill(r, id, qty).Done? && FindingsMatch(f, r)
    ensures FindingsMatch(AddTraded(f, id, qty), OnFill(r, id, qty).value)
  {
  }

  lemma {:induction false} ScanTrades(d: Desk, ts: seq<Trade>, f: Findings)
    requires ApplyTrades(d, ts).Done? && FindingsMatch(f, d.repo)
    ensures FindingsMatch(Scan(f, TradeEvents(d.repo, ts)), ApplyTrades(d, ts).value.repo)
    decreases |ts|
  {
    if ts != [] {
      var t := ts[0];
      var d1 := ApplyTrade(d, t).value;
      TradeLog(d, t);
      NoteTrade(d, t, f);
      SameOwnersSameEvents(d.repo, d1.repo, ts[1..]);
      hide ApplyTrade, FindingsMatch, Note;
      ScanTrades(d1, ts[1..], Note(f, TradeExecuted(t)));
      ScanPair(f, TradeExecuted(t), SettlementOf(d.repo, t), TradeEvents(d.repo, ts[1..]));
    }
  }

  lemma ScanPair(f: Findings, e: Event, g: Event, es: seq<Event>)
    requires NotScanned(g)
    ensures Scan(f, [e, g] + es) == Scan(Note(f, e), es)
  {
    assert [e, g] + es == [e] + ([g] + es);
    ScanOne(f, e, [g] + es);
    ScanOne(Note(f, e), g, es);
    NoteSettlement(Note(f, e), g);
  }

  lemma NoteSettlement(f: Findings, e: Event)
    requires NotScanned(e)
    ensures Note(f, e) == f
  {
  }

  lemma NotePlaced(f: Findings, repo: Repo, p: Placement, status: Status)
    requires FindingsMatch(f, repo) && p.id !in repo.orders && status != Canceled
    ensures FindingsMatch(Note(f, OrderPlaced(p)), repo.Add(NewOrder(p).(status := status)))
  {
  }

  lemma ScanAccepted(s: State, p: Placement, f: Findings)
    requires Inv(s) && p.id !in s.repo.orders && p.qty > 0.0 && SaneShape(p.side, p.otype, p.price) && Accepts(s, p)
    requires FindingsMatch(f, s.repo)
    ensures Step(s, Place(p)).Done? && FindingsMatch(Scan(f, NewEvents(s, Place(p))), Step(s, Place(p)).value.repo)
  {
    hide Step, RoutingEvents;
    AcceptedSettles(s, p);
    AcceptedEvents(s, p);
    NotePlaced(f, s.repo, p, Routed);
    var sub := SubmitOrder(s.books, s.seen, p.symbol, p.side, Entry(NewOrder(p)));
    assert forall e :: e in sub.remain ==> e.OrderRemainOnBook?;
    hide *;
    var d := DeskFor(s, p);
    ScanRouting(d, sub.trades, sub.remain, Note(f, OrderPlaced(p)));
    ScanHeader(f, p, TradeEvents(d.repo, sub.trades) + sub.remain + FillEvents(d, sub.trades));
    DeskRepo(s, p);
  }

  lemma DeskRepo(s: State, p: Placement)
    ensures DeskFor(s, p).repo == s.repo.Add(NewOrder(p).(status := Routed))
  {
  }

  lemma ScanHeader(f: Findings, p: Placement, es: seq<Event>)
    ensures Scan(f, [OrderPlaced(p), OrderAccepted(p.id), OrderRouted(p.id, p.symbol)] + es)
      == Scan(Note(f, OrderPlaced(p)), es)
  {
    assert [OrderPlaced(p), OrderAccepted(p.id), OrderRouted(p.id, p.symbol)] + es
        == [OrderPlaced(p), OrderAccepted(p.id)] + ([OrderRouted(p.id, p.symbol)] + es);
    ScanPair(f, OrderPlaced(p), OrderAccepted(p.id), [OrderRouted(p.id, p.symbol)] + es);
    ScanOne(Note(f, OrderPlaced(p)), OrderRouted(p.id, p.symbol), es);
  }

  lemma ScanRouting(d: Desk, ts: seq<Trade>, remain: seq<Event>, f: Findings)
    requires ApplyTrades(d, ts).Done? && FindingsMatch(f, d.repo) && forall e :: e in remain ==> e.OrderRemainOnBook?
    ensures FindingsMatch(Scan(f, TradeEvents(d.repo, ts) + remain + FillEvents(d, ts)), ApplyTrades(d, ts).value.repo)
  {
    ScanTrades(d, ts, f);
    FillsAreInformational(d, ts);
    var tail := remain + FillEvents(d, ts);
    ScanNothing(Scan(f, TradeEvents(d.repo, ts)), tail);
    ScanAppend(f, TradeEvents(d.repo, ts), tail);
    Assoc(TradeEvents(d.repo, ts), remain, FillEvents(d, ts));
  }

  lemma ScanRejected(s: State, p: Placement, f: Findings)
    requires p.id !in s.repo.orders && !Accepts(s, p) && FindingsMatch(f, s.repo)
    ensures Step(s, Place(p)).Done? && FindingsMatch(Scan(f, NewEvents(s, Place(p))), Step(s, Place(p)).value.repo)
  {
    hide FindingsMatch, RoutingEvents, Note, Scan;
    NotePlaced(f, s.repo, p, Rejected);
    var e := NewEvents(s, Place(p))[1];
    assert NewEvents(s, Place(p)) == [OrderPlaced(p)] + [e];
    ScanOne(f, OrderPlaced(p), [e]);
    ScanNothing(Note(f, OrderPlaced(p)), [e]);
  }

  lemma NoteCanceled(repo: Repo, id: OrderId, f: Findings)
    requires FindingsMatch(f, repo) && id in repo.orders
    ensures FindingsMatch(Note(f, OrderCanceled(id)),
      Repo(repo.ids, repo.orders[id := repo.orders[id].(status := Canceled)]))
  {
  }

  lemma {:induction false} ScanCancel(s: State, id: OrderId, f: Findings)
    requires Inv(s) && FindingsMatch(f, s.repo)
    ensures Step(s, Cancel(id)).Done? &&
      FindingsMatch(Scan(f, NewEvents(s, Cancel(id))), Step(s, Cancel(id)).value.repo)
  {
    CancelCases(s, id);
    assert NotScanned(CancelRejected(id));
    hide *;
    if id in s.repo.orders && s.repo.orders[id].IsCancelable() {
      NoteCanceled(s.repo, id, f);
      ScanLone(f, OrderCanceled(id));
    } else {
      ScanLone(f, CancelRejected(id));
      NoteSettlement(f, CancelRejected(id));
      ScanNothing(f, []);
    }
  }

  lemma ScanLone(f: Findings, e: Event)
    ensures Scan(f, [e]) == Note(f, e)
  {
    assert [e][1..] == [];
  }

  lemma {:induction false} ScanStep(s: State, c: Command, f: Findings)
    requires Inv(s) && Positive(c) && Sane(c) && (c.Place? ==> c.placement.id !in s.repo.ids) &&
      FindingsMatch(f, s.repo)
    ensures Step(s, c).Done? && FindingsMatch(Scan(f, NewEvents(s, c)), Step(s, c).value.repo)
  {
    match c
    case Place(p) => if Accepts(s, p) { ScanAccepted(s, p, f); } else { ScanRejected(s, p, f); }
    case Cancel(id) => ScanCancel(s, id, f);
    case _ =>
      FundsStep(s, c);
      ScanNothing(f, NewEvents(s, c));
  }

  lemma {:induction false} LogTellsOrders(cmds: seq<Command>)
    requires WellFormed(cmds) && SaneRun(cmds)
    ensures Exec(cmds).Done? && FindingsMatch(Scan(NO_FINDINGS, Exec(cmds).value.log), Exec(cmds).value.repo)
  {
    RunsAgree(cmds);
    if cmds != [] {
      var init, c := cmds[..|cmds| - 1], cmds[|cmds| - 1];
      assert cmds == init + [c];
      NextCommand(init, c);
      RunsAgree(init);
      LogTellsOrders(init);
      var s := Exec(init).value;
      ScanStep(s, c, Scan(NO_FINDINGS, s.log));
      StepLog(s, c);
      ScanAppend(NO_FINDINGS, s.log, NewEvents(s, c));
    }
  }

  // ---------- phase 2: resting orders without matching ----------

  /** The price a placement is put back on the book at; LIMIT without a price is passed over. */
  function RestorePrice(p: Placement): Option<real> {
    if p.otype == Market then Some(EffectivePrice(p.side, p.otype, p.price)) else p.price
  }

  predicate PutBack(f: Findings, id: OrderId)
    requires id in f.placed
  {
    id !in f.canceled && f.placed[id].qty - f.Traded(id) > 0.0 && RestorePrice(f.placed[id]).Some?
  }

  function RestoredEntry(f: Findings, id: OrderId): BookEntry
    requires id in f.placed && PutBack(f, id)
  {
    var p := f.placed[id];
    EntryFor(p.side, RestorePrice(p).value, p.at, id, p.qty - f.Traded(id), p.account)
  }

  /** The books a matcher ends up with when the resting ids are put back on those it has. */
  function RestoreBooks(base: map<Symbol, Book>, f: Findings, ids: seq<OrderId>): map<Symbol, Book> {
    if ids == [] then base
    else
      var id := ids[|ids| - 1];
      var books := RestoreBooks(base, f, ids[..|ids| - 1]);
      if id in f.placed && PutBack(f, id)
      then ReplayOrder(books, f.placed[id].symbol, f.placed[id].side, RestoredEntry(f, id))
      else books
  }

  function RebuildBooks(log: seq<Event>): map<Symbol, Book> {
    var f := Scan(NO_FINDINGS, log);
    RestoreBooks(map[], f, f.ids)
  }

  // ---------- what comes back ----------

  /** The orders the rebuild puts on the book. */
  predicate Returns(o: Order) {
    o.status != Canceled && o.Remaining() > 0.0 && (o.otype == Market || o.price.Some?)
  }

  /** An order that was rejected and yet returns. */
  predicate Phantom(o: Order) { o.status == Rejected && (o.otype == Market || o.price.Some?) }

  /** An order that rests and does not return: LIMIT without a price. */
  predicate Lost(o: Order) { Live(o) && o.otype == Limit && o.price.None? }

  lemma ReturnsWhen(id: OrderId, o: Order)
    requires OrderOk(id, o)
    ensures Returns(o) <==> (Live(o) && !Lost(o)) || Phantom(o)
  {
  }

  predicate ReturnsTo(o: Order, sym: Symbol, side: Side) { Returns(o) && o.symbol == sym && o.side == side }

  /** One side of a rebuilt book after the first ids have been gone through. */
  ghost predicate SideRestored(repo: Repo, ids: seq<OrderId>, sym: Symbol, side: Side, es: seq<BookEntry>) {
    && (forall e :: e in es ==>
          e.orderId in ids && e.orderId in repo.orders && ReturnsTo(repo.orders[e.orderId], sym, side)
          && e == Entry(repo.orders[e.orderId]))
    && (forall id ::
      id in ids && id in repo.orders && ReturnsTo(repo.orders[id], sym, side) ==> Entry(repo.orders[id]) in es)
    && Queue(repo.ids, es)
  }

  lemma FindingsEntry(f: Findings, repo: Repo, id: OrderId)
    requires RepoOk(repo) && FindingsMatch(f, repo) && id in repo.orders
    ensures id in f.placed && (PutBack(f, id) <==> Returns(repo.orders[id]))
    ensures PutBack(f, id) ==> RestoredEntry(f, id) == Entry(repo.orders[id])
    ensures f.placed[id].symbol == repo.orders[id].symbol && f.placed[id].side == repo.orders[id].side
  {
    assert Matches(f.placed[id], id in f.canceled, f.Traded(id), repo.orders[id]);
    assert OrderOk(id, repo.orders[id]);
  }

  lemma IdAt(repo: Repo, k: nat)
    requires RepoOk(repo) && k < |repo.ids|
    ensures repo.ids[k] in repo.orders && repo.orders[repo.ids[k]].id == repo.ids[k]
  {
    assert OrderOk(repo.ids[k], repo.orders[repo.ids[k]]);
  }

  lemma RankIs(ids: seq<OrderId>, i: nat)
    requires i < |ids| && forall i, j :: 0 <= i < j < |ids| ==> ids[i] != ids[j]
    ensures Rank(ids, ids[i]) == i
  {
    RankBound(ids, ids[i]);
  }

  lemma {:induction false} RestoredSide(f: Findings, repo: Repo, k: nat, sym: Symbol, side: Side)
    requires RepoOk(repo) && FindingsMatch(f, repo) && k <= |repo.ids|
    ensures SideRestored(repo, repo.ids[..k], sym, side, BookOf(RestoreBooks(map[], f, repo.ids[..k]), sym).On(side))
    decreases k
  {
    if k > 0 {
      RestoredSide(f, repo, k - 1, sym, side);
      hide SideRestored;
      RestoreNext(f, repo, k, sym, side);
      var es := BookOf(RestoreBooks(map[], f, repo.ids[..k - 1]), sym).On(side);
      var o := repo.orders[repo.ids[k - 1]];
      if ReturnsTo(o, sym, side) { RestoreOne(repo, k, es, o); } else { RestoreOther(repo, k, sym, side, es); }
    }
  }

  /** What the rebuild does with the k-th id. */
  lemma RestoreNext(f: Findings, repo: Repo, k: nat, sym: Symbol, side: Side)
    requires RepoOk(repo) && FindingsMatch(f, repo) && 0 < k <= |repo.ids|
    ensures repo.ids[k - 1] in repo.orders && repo.orders[repo.ids[k - 1]].id == repo.ids[k - 1]
    ensures var o := repo.orders[repo.ids[k - 1]];
      var es := BookOf(RestoreBooks(map[], f, repo.ids[..k - 1]), sym).On(side);
      BookOf(RestoreBooks(map[], f, repo.ids[..k]), sym).On(side) ==
        if ReturnsTo(o, sym, side) then Insort(es, Entry(o)) else es
  {
    hide FindingsMatch, RepoOk, PutBack, Insort, Entry, Returns, RestoredEntry;
    IdAt(repo, k - 1);
    var ids, id := repo.ids[..k], repo.ids[k - 1];
    assert ids[..|ids| - 1] == repo.ids[..k - 1] && ids[|ids| - 1] == id;
    FindingsEntry(f, repo, id);
  }

  lemma RestoreOther(repo: Repo, k: nat, sym: Symbol, side: Side, es: seq<BookEntry>)
    requires 0 < k <= |repo.ids| && SideRestored(repo, repo.ids[..k - 1], sym, side, es)
    requires repo.ids[k - 1] in repo.orders && !ReturnsTo(repo.orders[repo.ids[k - 1]], sym, side)
    ensures SideRestored(repo, repo.ids[..k], sym, side, es)
  {
    assert repo.ids[..k] == repo.ids[..k - 1] + [repo.ids[k - 1]];
  }

  lemma {:induction false} RestoreOne(repo: Repo, k: nat, es: seq<BookEntry>, o: Order)
    requires RepoOk(repo) && 0 < k <= |repo.ids| && o.id == repo.ids[k - 1] && o.id in repo.orders &&
      repo.orders[o.id] == o
    requires Returns(o) && SideRestored(repo, repo.ids[..k - 1], o.symbol, o.side, es)
    ensures SideRestored(repo, repo.ids[..k], o.symbol, o.side, Insort(es, Entry(o)))
  {
    hide Insort, Queue, Rank, OrderOk;
    assert repo.ids[..k] == repo.ids[..k - 1] + [o.id];
    forall x | x in es ensures Rank(repo.ids, x.orderId) < Rank(repo.ids, o.id) {
      EarlierRank(repo.ids, k - 1, x.orderId);
    }
    InsortQueue(repo.ids, es, Entry(o));
    InsortMembers(es, Entry(o));
  }

  lemma EarlierRank(ids: seq<OrderId>, i: nat, x: OrderId)
    requires i < |ids| && x in ids[..i] && forall i, j :: 0 <= i < j < |ids| ==> ids[i] != ids[j]
    ensures Rank(ids, x) < Rank(ids, ids[i])
  {
    var k :| 0 <= k < i && ids[k] == x;
    RankIs(ids, k);
    RankIs(ids, i);
  }

  // ---------- exactly when it is the live book ----------

  predicate SameBook(books: map<Symbol, Book>, books': map<Symbol, Book>, sym: Symbol) {
    BookOf(books, sym) == BookOf(books', sym)
  }

  lemma SameSide(repo: Repo, live: seq<BookEntry>, back: seq<BookEntry>, sym: Symbol, side: Side)
    requires RepoOk(repo)
    requires SideAgrees(repo.ids, repo.orders, sym, side, live) && SideRestored(repo, repo.ids, sym, side, back)
    requires forall id :: id in repo.orders && repo.orders[id].symbol == sym && repo.orders[id].side == side ==>
      (Returns(repo.orders[id]) <==> Live(repo.orders[id]))
    ensures live == back
  {
    forall e ensures e in live <==> e in back {
    }
    QueueUnique(repo.ids, live, back);
  }

  /** An order that rests but does not return, or returns but does not rest, makes its book come back different. */
  lemma DifferentSide(repo: Repo, live: seq<BookEntry>, back: seq<BookEntry>, id: OrderId)
    requires RepoOk(repo) && id in repo.orders
    requires SideAgrees(repo.ids, repo.orders, repo.orders[id].symbol, repo.orders[id].side, live)
    requires SideRestored(repo, repo.ids, repo.orders[id].symbol, repo.orders[id].side, back)
    requires Returns(repo.orders[id]) != Live(repo.orders[id])
    ensures live != back
  {
    var o := repo.orders[id];
    assert OrderOk(id, o);
    assert Live(o) ==> Entry(o) in live;
    assert Returns(o) ==> Entry(o) in back;
    assert Entry(o) in live ==> Live(o);
    assert Entry(o) in back ==> Returns(o);
  }

  lemma {:induction false} RebuiltSide(cmds: seq<Command>, sym: Symbol, side: Side)
    requires WellFormed(cmds) && SaneRun(cmds) && Exec(cmds).Done? && Inv(Exec(cmds).value)
    ensures var s := Exec(cmds).value;
      && SideAgrees(s.repo.ids, s.repo.orders, sym, side, BookOf(s.books, sym).On(side))
      && SideRestored(s.repo, s.repo.ids, sym, side, BookOf(RebuildBooks(s.log), sym).On(side))
  {
    var s := Exec(cmds).value;
    LogTellsOrders(cmds);
    assert SideMatches(s.repo, s.books, sym, side);
    var f := Scan(NO_FINDINGS, s.log);
    RestoredSide(f, s.repo, |s.repo.ids|, sym, side);
    assert s.repo.ids[..|s.repo.ids|] == s.repo.ids == f.ids;
  }

  /** One side of the live book and of the rebuilt one, as the repository describes them. */
  ghost predicate BothSides(r: Repo, live: map<Symbol, Book>, back: map<Symbol, Book>, sym: Symbol, side: Side) {
    SideAgrees(r.ids, r.orders, sym, side, BookOf(live, sym).On(side)) &&
      SideRestored(r, r.ids, sym, side, BookOf(back, sym).On(side))
  }

  /**
   * Books so described are the same if and only if nothing returns that does not rest, and nothing rests that does
   * not return.
   */
  lemma SameWhen(r: Repo, live: map<Symbol, Book>, back: map<Symbol, Book>)
    requires RepoOk(r) && forall sym, side :: BothSides(r, live, back, sym, side)
    ensures (forall sym :: SameBook(back, live, sym)) <==>
      (forall id :: id in r.orders ==> !Phantom(r.orders[id]) && !Lost(r.orders[id]))
  {
    hide SideAgrees, SideRestored;
    if forall id :: id in r.orders ==> !Phantom(r.orders[id]) && !Lost(r.orders[id]) {
      ReturnWhenLive(r);
      forall sym ensures SameBook(back, live, sym) {
        assert BothSides(r, live, back, sym, Buy) && BothSides(r, live, back, sym, Sell);
        SameSide(r, BookOf(live, sym).bids, BookOf(back, sym).bids, sym, Buy);
        SameSide(r, BookOf(live, sym).asks, BookOf(back, sym).asks, sym, Sell);
      }
    } else {
      var id :| id in r.orders && (Phantom(r.orders[id]) || Lost(r.orders[id]));
      var o := r.orders[id];
      ReturnsWhen(id, o);
      assert BothSides(r, live, back, o.symbol, o.side);
      DifferentSide(r, BookOf(live, o.symbol).On(o.side), BookOf(back, o.symbol).On(o.side), id);
      assert !SameBook(back, live, o.symbol);
    }
  }

  lemma ReturnWhenLive(r: Repo)
    requires RepoOk(r) && forall id :: id in r.orders ==> !Phantom(r.orders[id]) && !Lost(r.orders[id])
    ensures forall id :: id in r.orders ==> (Returns(r.orders[id]) <==> Live(r.orders[id]))
  {
    forall id | id in r.orders ensures Returns(r.orders[id]) <==> Live(r.orders[id]) { ReturnsWhen(id, r.orders[id]); }
  }

  /**
   * Book rebuild, exactly: for any sane run the books rebuilt from its log, without matching, are the live
   * books (the same queues in the same order with the same prices and quantities) if and only if no order
   * that has a price to rest at was rejected, and no LIMIT order without a price is resting.
   */
  lemma RebuiltBooksAreLive(cmds: seq<Command>)
    requires WellFormed(cmds) && SaneRun(cmds)
    ensures Exec(cmds).Done?
    ensures var s := Exec(cmds).value;
      (forall sym :: SameBook(RebuildBooks(s.log), s.books, sym)) <==>
      (forall id :: id in s.repo.orders ==> !Phantom(s.repo.orders[id]) && !Lost(s.repo.orders[id]))
  {
    RunsAgree(cmds);
    hide RebuildBooks, SideAgrees, SideRestored, Exec;
    var s := Exec(cmds).value;
    forall sym, side ensures BothSides(s.repo, s.books, RebuildBooks(s.log), sym, side) {
      RebuiltSide(cmds, sym, side);
    }
    SameWhen(s.repo, s.books, RebuildBooks(s.log));
  }
}
