/** After a restart from the log, the exchange goes on as if it had never stopped. */
module Restarts {
  import opened Domain
  import opened Matching
  import opened Ledger
  import opened Orders
  import opened Exchange
  import opened Agreement
  import opened Runs
  import opened LogShape
  import opened Projection
  import opened ReplayRuns
  import opened Rebuild
  import opened BookRebuild
  import opened ColdStarts
  import opened ExactLocks

  /** What a cold start makes of the accounts of a snapshot and the events since. */
  function RestartedOn(base: Accounts, log: seq<Event>): State
    requires Replay(base, log).Done?
  {
    var f := Scan(NO_FINDINGS, log);
    State(Replay(base, log).value, RestoreOrders(Restoring(Repo([], map[]), 0), log).repo, RebuildBooks(log),
          PutBackIds(f, f.ids), log)
  }

  /** What a cold start without a snapshot makes of a log that can be replayed. */
  function Restarted(log: seq<Event>): State
    requires Replay(NO_ACCOUNTS, log).Done?
  {
    RestartedOn(NO_ACCOUNTS, log)
  }

  /** Two exchanges no command can tell apart: the same accounts to read, the same orders, books and log. */
  ghost predicate Alike(s: State, t: State) {
    && Twins(t.accounts, s.accounts, {})
    && t.repo == s.repo && t.log == s.log
    && SameBooks(t.books, s.books)
  }

  // ---------- the invariant carries over ----------

  lemma TwinBalanced(x: Account, y: Account)
    requires Twin(x, y, {}) && Balanced(y)
    ensures Balanced(x) && x.locks == y.locks
  {
    assert x.locks == y.locks;
    forall asset ensures AssetOk(asset, x) { assert AssetOk(asset, y); }
    forall sym ensures CostOk(x.Pos(sym)) { assert CostOk(y.Pos(sym)) && x.Pos(sym) == y.Pos(sym); }
  }

  lemma TwinsLedger(l: Accounts, m: Accounts, orders: map<OrderId, Order>)
    requires Twins(l, m, {}) && AccountsOk(l) && LedgerAgrees(m, orders)
    ensures LedgerAgrees(l, orders)
  {
    hide Balanced, AssetOk, LockFor;
    forall a ensures Balanced(l.Get(a)) && l.Get(a).locks == m.Get(a).locks {
      assert Twin(l.Get(a), m.Get(a), {}) && Balanced(m.Get(a));
      TwinBalanced(l.Get(a), m.Get(a));
    }
    hide Balanced, Twins, LockFor;
  }

  lemma SameBooksAgree(repo: Repo, books: map<Symbol, Book>, books': map<Symbol, Book>)
    requires BooksAgree(repo, books) && Uncrossed(books) && SameBooks(books', books)
    ensures BooksAgree(repo, books') && Uncrossed(books')
  {
    forall sym, side ensures SideMatches(repo, books', sym, side) {
      assert SideMatches(repo, books, sym, side) && SameBook(books', books, sym);
    }
    forall sym ensures !Crossable(BookOf(books', sym)) {
      assert !Crossable(BookOf(books, sym)) && SameBook(books', books, sym);
    }
  }

  lemma {:induction false} AlikeInv(s: State, t: State)
    requires Inv(s) && Alike(s, t) && AccountsOk(t.accounts) && t.seen <= s.repo.orders.Keys
    ensures Inv(t)
  {
    TwinsLedger(t.accounts, s.accounts, s.repo.orders);
    SameBooksAgree(s.repo, s.books, t.books);
    hide LedgerAgrees, BooksAgree, RepoOk, Uncrossed;
  }

  // ---------- every command keeps them alike ----------

  ghost predicate DesksAlike(d: Desk, e: Desk) {
    Twins(e.accounts, d.accounts, {}) && e.repo == d.repo && e.log == d.log && e.fills == d.fills
  }

  lemma TradeAlike(d: Desk, e: Desk, t: Trade)
    requires DesksAlike(d, e) && ApplyTrade(d, t).Done?
    ensures ApplyTrade(e, t).Done? && DesksAlike(ApplyTrade(d, t).value, ApplyTrade(e, t).value)
  {
    hide Twins, TrySettle, OnFill;
    TradeLog(d, t);
    var b, s := d.repo.orders[t.buyId].account, d.repo.orders[t.sellId].account;
    TradeSettles(d, t);
    TwinsTrySettle(e.accounts, d.accounts, {}, b, s, t.buyId, t.sellId, t.symbol, t.price, t.qty);
  }

  lemma {:induction false} TradesAlike(d: Desk, e: Desk, ts: seq<Trade>)
    requires DesksAlike(d, e) && ApplyTrades(d, ts).Done?
    ensures ApplyTrades(e, ts).Done? && DesksAlike(ApplyTrades(d, ts).value, ApplyTrades(e, ts).value)
    decreases |ts|
  {
    if ts != [] {
      hide DesksAlike, ApplyTrade;
      TradeAlike(d, e, ts[0]);
      TradesAlike(ApplyTrade(d, ts[0]).value, ApplyTrade(e, ts[0]).value, ts[1..]);
    }
  }

  lemma LocksAlike(l: Accounts, m: Accounts, p: Placement, dead: set<OrderId>)
    requires Twins(m, l, dead) && p.id !in dead
    ensures var r, q := LockFunds(l, p.account, p.id, p.symbol, p.side, p.qty, p.price),
                        LockFunds(m, p.account, p.id, p.symbol, p.side, p.qty, p.price);
      r.rejected == q.rejected && Twins(q.accounts, r.accounts, dead)
  {
    assert Twin(m.Get(p.account), l.Get(p.account), dead);
    hide LockIn, Twin;
    TwinLock(m.Get(p.account), l.Get(p.account), dead, p.id, p.symbol, p.side, p.qty, p.price);
    TwinsPut(m, l, dead, p.account, LockIn(m.Get(p.account), p.id, p.symbol, p.side, p.qty, p.price).account,
             LockIn(l.Get(p.account), p.id, p.symbol, p.side, p.qty, p.price).account);
  }

  ghost predicate SameBooks(books: map<Symbol, Book>, books': map<Symbol, Book>) {
    forall sym :: SameBook(books, books', sym)
  }

  lemma BooksAlike(books: map<Symbol, Book>, books': map<Symbol, Book>, x: Symbol, b: Book)
    requires SameBooks(books', books)
    ensures SameBooks(books'[x := b], books[x := b])
  {
    var n', n := books'[x := b], books[x := b];
    forall sym ensures SameBook(n', n, sym) { assert SameBook(books', books, sym); }
  }

  lemma RejectedAlike(s: State, t: State, p: Placement)
    requires Alike(s, t) && !Accepts(s, p)
    ensures Step(s, Place(p)).Done? && Step(t, Place(p)).Done? &&
      Alike(Step(s, Place(p)).value, Step(t, Place(p)).value)
  {
    LocksAlike(s.accounts, t.accounts, p, {});
    hide Twins, SameBooks, LockFunds;
  }

  lemma {:induction false} AcceptedAlike(s: State, t: State, p: Placement)
    requires Inv(s) && Inv(t) && Alike(s, t) && Accepts(s, p)
    requires p.id !in s.repo.orders && p.qty > 0.0 && SaneShape(p.side, p.otype, p.price)
    ensures Step(s, Place(p)).Done? && Step(t, Place(p)).Done? &&
      Alike(Step(s, Place(p)).value, Step(t, Place(p)).value)
  {
    hide LockFunds, Twins, SameBooks, PlaceOrder, SubmitOrder, ApplyTrades;
    LocksAlike(s.accounts, t.accounts, p, {});
    AcceptedSettles(s, p);
    PlaceUnfolds(s, p);
    PlaceUnfolds(t, p);
    SubmittedAlike(s, t, p);
    hide Inv;
    TradesAlike(DeskFor(s, p), DeskFor(t, p), TradesOf(s, p));
  }

  lemma SubmittedAlike(s: State, t: State, p: Placement)
    requires SameBooks(t.books, s.books) && p.id !in s.seen && p.id !in t.seen
    ensures var x, y := SubmitOrder(s.books, s.seen, p.symbol, p.side, Entry(NewOrder(p))),
                        SubmitOrder(t.books, t.seen, p.symbol, p.side, Entry(NewOrder(p)));
      x.trades == y.trades && x.remain == y.remain && SameBooks(y.books, x.books)
  {
    assert SameBook(t.books, s.books, p.symbol);
    hide Submit, Remainder;
    BooksAlike(s.books, t.books, p.symbol,
      Submit(p.symbol, BookOf(s.books, p.symbol), p.side, Entry(NewOrder(p))).book);
  }

  lemma CancelAlike(s: State, t: State, id: OrderId)
    requires Inv(s) && Inv(t) && Alike(s, t)
    ensures Step(s, Cancel(id)).Done? && Step(t, Cancel(id)).Done? &&
      Alike(Step(s, Cancel(id)).value, Step(t, Cancel(id)).value)
  {
    CancelCases(s, id);
    CancelCases(t, id);
    assert id in s.repo.orders ==> OrderOk(id, s.repo.orders[id]);
    if id in s.repo.orders && s.repo.orders[id].IsCancelable() {
      CanceledAlike(s, t, s.repo.orders[id]);
    }
  }

  lemma {:induction false} CanceledAlike(s: State, t: State, o: Order)
    requires Alike(s, t) && o.id in s.repo.orders && s.repo.orders[o.id] == o && o.IsCancelable()
    requires Step(s, Cancel(o.id)).Done? && Step(t, Cancel(o.id)).Done?
    ensures Alike(Step(s, Cancel(o.id)).value, Step(t, Cancel(o.id)).value)
  {
    UnlockAlike(s.accounts, t.accounts, o.account, o.id, {});
    assert SameBook(t.books, s.books, o.symbol);
    hide Twins, RemoveFromBook, Unlock;
    BooksAlike(s.books, t.books, o.symbol, RemoveFromBook(BookOf(s.books, o.symbol), o.id));
  }

  lemma UnlockAlike(l: Accounts, m: Accounts, a: AccountId, id: OrderId, dead: set<OrderId>)
    requires Twins(m, l, dead) && id !in dead
    ensures Twins(Unlock(m, a, id), Unlock(l, a, id), dead)
  {
    assert Twin(m.Get(a), l.Get(a), dead);
    TwinRelease(m.Get(a), l.Get(a), dead, id);
    hide Twin, Release;
    TwinsPut(m, l, dead, a, Release(m.Get(a), id), Release(l.Get(a), id));
  }

  /** Cash in or out, when there is enough of it. */
  lemma CashAlike(l: Accounts, m: Accounts, a: AccountId, amount: real, dead: set<OrderId>)
    requires Twins(m, l, dead)
    ensures m.Get(a).cashAvail == l.Get(a).cashAvail
    ensures Twins(Deposit(m, a, amount), Deposit(l, a, amount), dead)
    ensures Twins(m.Put(a, m.Get(a)), l.Put(a, l.Get(a)), dead)
  {
    var x, y := m.Get(a), l.Get(a);
    assert Twin(x, y, dead);
    TwinCash(x, y, dead, y.cashAvail + amount, y.cashLocked);
    TwinsTouch(m, l, dead, a);
    hide Twin, Twins;
    TwinsPut(m, l, dead, a, x.(cashAvail := x.cashAvail + amount), y.(cashAvail := y.cashAvail + amount));
  }

  lemma SharesAlike(l: Accounts, m: Accounts, a: AccountId, sym: Symbol, qty: real, dead: set<OrderId>)
    requires Twins(m, l, dead)
    ensures Twins(Seed(m, a, sym, qty), Seed(l, a, sym, qty), dead)
  {
    var x, y := m.Get(a), l.Get(a);
    assert Twin(x, y, dead) && x.Pos(sym) == y.Pos(sym);
    var p := y.Pos(sym).(avail := y.Pos(sym).avail + qty);
    TwinSetPos(x, y, dead, sym, p);
    hide Twin, Twins;
    TwinsPut(m, l, dead, a, x.SetPos(sym, p), y.SetPos(sym, p));
  }

  lemma FundsAlike(s: State, t: State, c: Command)
    requires Alike(s, t) && !c.Place? && !c.Cancel?
    ensures Step(s, c).Done? && Step(t, c).Done? && Alike(Step(s, c).value, Step(t, c).value)
  {
    hide Twins, SameBooks, Seed;
    match c
    case CashIn(a, amount) =>
      CashAlike(s.accounts, t.accounts, a, amount, {});
    case CashOut(a, amount) =>
      CashAlike(s.accounts, t.accounts, a, -amount, {});
    case SharesIn(a, sym, qty) =>
      SharesAlike(s.accounts, t.accounts, a, sym, qty, {});
  }

  lemma {:induction false} StepAlike(s: State, t: State, c: Command)
    requires Inv(s) && Inv(t) && Alike(s, t) && Positive(c) && Sane(c) && (c.Place? ==> c.placement.id !in s.repo.ids)
    ensures Step(s, c).Done? && Step(t, c).Done?
    ensures Inv(Step(t, c).value) && Alike(Step(s, c).value, Step(t, c).value)
  {
    StepKeepsInv(t, c);
    match c
    case Place(p) => if Accepts(s, p) { AcceptedAlike(s, t, p); } else { RejectedAlike(s, t, p); }
    case Cancel(id) => CancelAlike(s, t, id);
    case _ => FundsAlike(s, t, c);
  }

  // ---------- whole runs ----------

  function ExecFrom(s: State, cmds: seq<Command>): Outcome<State> {
    if cmds == [] then Done(s)
    else
      match ExecFrom(s, cmds[..|cmds| - 1])
      case Raised(e) => Raised(e)
      case Done(t) => Step(t, cmds[|cmds| - 1])
  }

  /** Nothing stands in the way of rebuilding the books. */
  predicate Recoverable(s: State) {
    forall id :: id in s.repo.orders ==> !Phantom(s.repo.orders[id]) && !Lost(s.repo.orders[id])
  }

  /** Exactly when the exchange rebuilt from the log of a sane run is alike the one that wrote it. */
  lemma {:induction false} RestartExactly(cmds: seq<Command>)
    requires WellFormed(cmds) && SaneRun(cmds)
    ensures Exec(cmds).Done? && Replay(NO_ACCOUNTS, Exec(cmds).value.log).Done?
    ensures Alike(Exec(cmds).value, Restarted(Exec(cmds).value.log)) <==> Recoverable(Exec(cmds).value)
  {
    ReplayIsLive(cmds);
    RestoredOrdersAreLive(cmds);
    RebuiltBooksAreLive(cmds);
  }

  lemma {:induction false} RestartedInv(cmds: seq<Command>)
    requires WellFormed(cmds) && SaneRun(cmds) && Exec(cmds).Done? && Recoverable(Exec(cmds).value)
    ensures Replay(NO_ACCOUNTS, Exec(cmds).value.log).Done?
    ensures Inv(Exec(cmds).value) && Inv(Restarted(Exec(cmds).value.log))
    ensures Alike(Exec(cmds).value, Restarted(Exec(cmds).value.log))
  {
    RunsAgree(cmds);
    RestartExactly(cmds);
    ReplayIsLive(cmds);
    LogTellsOrders(cmds);
    var s := Exec(cmds).value;
    var f := Scan(NO_FINDINGS, s.log);
    AlikeInv(s, Restarted(s.log));
  }

  lemma LastCommandFrom(t: State, cmds: seq<Command>)
    requires cmds != [] && ExecFrom(t, cmds[..|cmds| - 1]).Done?
    ensures ExecFrom(t, cmds) == Step(ExecFrom(t, cmds[..|cmds| - 1]).value, cmds[|cmds| - 1])
  {
    hide Step;
  }

  /** Whatever is commanded, an exchange alike the live one stays alike. */
  lemma {:induction false} RunsOn(before: seq<Command>, t: State, after: seq<Command>)
    requires WellFormed(before + after) && SaneRun(before + after)
    requires Exec(before).Done? && Inv(t) && Alike(Exec(before).value, t)
    ensures Exec(before + after).Done? && ExecFrom(t, after).Done? && Inv(ExecFrom(t, after).value)
    ensures Alike(Exec(before + after).value, ExecFrom(t, after).value)
    decreases |after|
  {
    hide Inv, Alike, Step, Exec;
    if after == [] {
      assert before + after == before;
    } else {
      var c, after0 := after[|after| - 1], after[..|after| - 1];
      var all0 := before + after0;
      assert before + after == all0 + [c];
      NextCommand(all0, c);
      hide WellFormed, SaneRun, ExecFrom;
      RunsOn(before, t, after0);
      RunsAgree(all0);
      LastCommand(all0, c);
      LastCommandFrom(t, after);
      StepAlike(Exec(all0).value, ExecFrom(t, after0).value, c);
    }
  }

  /**
   * Whatever is commanded after a restart, the restarted exchange refuses nothing the uninterrupted one would
   * not refuse and writes the same events: the same fills, the same balances, no trade twice.
   */
  lemma {:induction false} RestartedRunsOn(before: seq<Command>, after: seq<Command>)
    requires WellFormed(before + after) && SaneRun(before + after)
    requires Exec(before).Done? && Recoverable(Exec(before).value) && Replay(NO_ACCOUNTS, Exec(before).value.log).Done?
    ensures Exec(before + after).Done? && ExecFrom(Restarted(Exec(before).value.log), after).Done?
    ensures Inv(ExecFrom(Restarted(Exec(before).value.log), after).value)
    ensures Alike(Exec(before + after).value, ExecFrom(Restarted(Exec(before).value.log), after).value)
  {
    PrefixAdmissible(before, after);
    RestartedInv(before);
    hide *;
    RunsOn(before, Restarted(Exec(before).value.log), after);
  }

  /** Every settlement of these events moves a positive quantity, so that no cost per share is ever undefined. */
  predicate SettlesPositive(es: seq<Event>) { forall e :: e in es && e.TradeSettlement? ==> e.qty > 0.0 }

  /** The logs runs write settle positive quantities only. */
  lemma {:induction false} LogsSettlePositive(cmds: seq<Command>)
    requires WellFormed(cmds) && SaneRun(cmds)
    ensures Exec(cmds).Done? && SettlesPositive(Exec(cmds).value.log)
  {
    RunsAgree(cmds);
    if cmds != [] {
      var init, c := cmds[..|cmds| - 1], cmds[|cmds| - 1];
      assert cmds == init + [c];
      NextCommand(init, c);
      RunsAgree(init);
      LogsSettlePositive(init);
      StepLog(Exec(init).value, c);
      hide NewEvents, Inv, Step;
      StepSettlesPositive(Exec(init).value, c);
    }
  }

  lemma {:induction false} TradeEventsPositive(repo: Repo, ts: seq<Trade>)
    requires forall t :: t in ts ==> t.qty > 0.0
    ensures SettlesPositive(TradeEvents(repo, ts))
    decreases |ts|
  {
    if ts != [] {
      assert ts[0] in ts;
      TradeEventsPositive(repo, ts[1..]);
    }
  }

  lemma {:induction false} StepSettlesPositive(s: State, c: Command)
    requires Inv(s) && Positive(c) && (c.Place? ==> c.placement.id !in s.repo.ids)
    ensures SettlesPositive(NewEvents(s, c))
  {
    hide Step;
    if c.Place? && Accepts(s, c.placement) {
      var p := c.placement;
      var o := NewOrder(p);
      var d := DeskFor(s, p);
      var sub := SubmitOrder(s.books, s.seen, p.symbol, p.side, Entry(o));
      hide SubmitOrder, NewEvents, BookOk, TradesOf, DeskFor, LockFunds;
      BookOkFrom(s.repo, s.books, p.symbol);
      hide Inv;
      OnlyRemainders(s, p);
      AcceptedEvents(s, p);
      SubmittedPositive(s, p);
      TradeEventsPositive(d.repo, sub.trades);
      FillsAreInformational(d, sub.trades);
    }
  }

  lemma SubmittedPositive(s: State, p: Placement)
    requires BookOk(BookOf(s.books, p.symbol)) && p.qty > 0.0
    ensures forall t :: t in SubmitOrder(s.books, s.seen, p.symbol, p.side, Entry(NewOrder(p))).trades ==> t.qty > 0.0
  {
    hide BookOk, Submit;
    SubmitOk(p.symbol, BookOf(s.books, p.symbol), p.side, Entry(NewOrder(p)));
  }
}
