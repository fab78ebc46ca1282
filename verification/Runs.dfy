/** The agreement holds after every command of every run. */
module Runs {
  import opened Domain
  import opened PriceTime
  import opened Matching
  import opened Ledger
  import opened LedgerLaws
  import opened Orders
  import opened Exchange
  import opened Agreement
  import opened Settling

  // ---------- placing ----------

  /** Recording a new order that does not rest leaves every queue as it is. */
  lemma SideWithNewOrder(ids: seq<OrderId>, orders: map<OrderId, Order>, o: Order, sym: Symbol, side: Side,
                         es: seq<BookEntry>)
    requires SideAgrees(ids, orders, sym, side, es) && o.id !in orders && !Rests(o, sym, side)
    ensures SideAgrees(ids + [o.id], orders[o.id := o], sym, side, es)
  {
    forall i, j | 0 <= i < j < |es| ensures Ahead(ids + [o.id], es[i], es[j]) {
      assert Ahead(ids, es[i], es[j]) && es[i] in es && es[j] in es;
      RankAppend(ids, o.id, es[i].orderId);
      RankAppend(ids, o.id, es[j].orderId);
    }
  }

  /** A new order joins its queue behind everything of equal price and time. */
  lemma SideWithNewEntry(ids: seq<OrderId>, orders: map<OrderId, Order>, o: Order, es: seq<BookEntry>)
    requires SideAgrees(ids, orders, o.symbol, o.side, es) && o.id !in orders && Live(o)
    requires forall id :: id in orders ==> id in ids && orders[id].id == id
    ensures SideAgrees(ids + [o.id], orders[o.id := o], o.symbol, o.side, Insort(es, Entry(o)))
  {
    hide Insort;
    var ids' := ids + [o.id];
    forall i, j | 0 <= i < j < |es| ensures Ahead(ids', es[i], es[j]) {
      assert Ahead(ids, es[i], es[j]) && es[i] in es && es[j] in es;
      RankAppend(ids, o.id, es[i].orderId);
      RankAppend(ids, o.id, es[j].orderId);
    }
    RankAppend(ids, o.id, o.id);
    forall x | x in es ensures Rank(ids', x.orderId) < Rank(ids', o.id) {
      RankBound(ids, x.orderId);
      RankAppend(ids, o.id, x.orderId);
    }
    InsortQueue(ids', es, Entry(o));
    InsortMembers(es, Entry(o));
  }

  lemma BooksWithRejected(repo: Repo, books: map<Symbol, Book>, o: Order)
    requires BooksAgree(repo, books) && o.id !in repo.orders && !Live(o)
    ensures BooksAgree(repo.Add(o), books)
  {
    forall sym, side ensures SideMatches(repo.Add(o), books, sym, side) {
      assert SideMatches(repo, books, sym, side);
      SideWithNewOrder(repo.ids, repo.orders, o, sym, side, BookOf(books, sym).On(side));
    }
  }

  /** The books with an order's entry added and nothing crossed yet. */
  function BooksWith(books: map<Symbol, Book>, o: Order): map<Symbol, Book> {
    ReplayOrder(books, o.symbol, o.side, Entry(o))
  }

  lemma BooksWithEntry(repo: Repo, books: map<Symbol, Book>, o: Order)
    requires RepoOk(repo) && BooksAgree(repo, books) && o.id !in repo.orders && Live(o)
    ensures BooksAgree(repo.Add(o), BooksWith(books, o))
  {
    var books' := BooksWith(books, o);
    forall sym, side ensures SideMatches(repo.Add(o), books', sym, side) {
      assert SideMatches(repo, books, sym, side);
      var es := BookOf(books, sym).On(side);
      if sym == o.symbol && side == o.side { SideWithNewEntry(repo.ids, repo.orders, o, es); }
      else { SideWithNewOrder(repo.ids, repo.orders, o, sym, side, es); }
    }
  }

  lemma RepoAddOk(repo: Repo, o: Order)
    requires RepoOk(repo) && o.id !in repo.orders && OrderOk(o.id, o)
    ensures RepoOk(repo.Add(o))
  {
  }

  /** Locking for a new order, accepted or not, keeps the ledger in agreement with the repository. */
  lemma {:induction false} LockAgrees(l: Accounts, orders: map<OrderId, Order>, p: Placement, o: Order)
    requires LedgerAgrees(l, orders) && p.id !in orders && p.qty > 0.0 && SaneShape(p.side, p.otype, p.price)
    requires o == NewOrder(p).(status := o.status)
    requires o.status
      == if LockFunds(l, p.account, p.id, p.symbol, p.side, p.qty, p.price).rejected == None then Routed else Rejected
    ensures LedgerAgrees(LockFunds(l, p.account, p.id, p.symbol, p.side, p.qty, p.price).accounts, orders[p.id := o])
    ensures OrderOk(p.id, o)
  {
    var r := LockIn(l.Get(p.account), p.id, p.symbol, p.side, p.qty, p.price);
    var l' := l.Put(p.account, r.account);
    assert p.id !in l.Get(p.account).locks;
    LockKeepsBalance(l.Get(p.account), p.id, p.symbol, p.side, p.qty, p.price);
    forall a ensures Balanced(l'.Get(a)) { assert a != p.account ==> l'.Get(a) == l.Get(a); }
    LocksAfter(l, l', orders, o, o);
  }

  /** The command went through, the invariant holds after it, and exactly these orders are known. */
  ghost predicate GoodStep(ids: seq<OrderId>, r: Outcome<State>) {
    r.Done? && Inv(r.value) && r.value.repo.ids == ids
  }

  function IdsAfter(ids: seq<OrderId>, c: Command): seq<OrderId> {
    if c.Place? then ids + [c.placement.id] else ids
  }

  /** The desk at the moment an accepted order has been recorded and its funds locked. */
  function DeskFor(s: State, p: Placement): Desk {
    Desk(LockFunds(s.accounts, p.account, p.id, p.symbol, p.side, p.qty, p.price).accounts,
         s.repo.Add(NewOrder(p).(status := Routed)),
         s.log + [OrderPlaced(p), OrderAccepted(p.id), OrderRouted(p.id, p.symbol)], [])
  }

  /** An accepted order, locked, recorded and added to its book, before anything is crossed. */
  lemma {:induction false} AcceptedAgrees(s: State, p: Placement)
    requires Inv(s) && p.id !in s.repo.orders && p.qty > 0.0 && SaneShape(p.side, p.otype, p.price)
    requires LockFunds(s.accounts, p.account, p.id, p.symbol, p.side, p.qty, p.price).rejected == None
    ensures var o := NewOrder(p).(status := Routed);
      Agrees(LockFunds(s.accounts, p.account, p.id, p.symbol, p.side, p.qty, p.price).accounts, s.repo.Add(o),
        BooksWith(s.books, o))
  {
    var o := NewOrder(p).(status := Routed);
    LockAgrees(s.accounts, s.repo.orders, p, o);
    BooksWithEntry(s.repo, s.books, o);
    RepoAddOk(s.repo, o);
    hide LedgerAgrees, BooksAgree, RepoOk;
  }

  lemma {:induction false} RejectedAgrees(s: State, p: Placement)
    requires Inv(s) && p.id !in s.repo.orders && p.qty > 0.0 && SaneShape(p.side, p.otype, p.price)
    requires LockFunds(s.accounts, p.account, p.id, p.symbol, p.side, p.qty, p.price).rejected != None
    ensures Agrees(LockFunds(s.accounts, p.account, p.id, p.symbol, p.side, p.qty, p.price).accounts,
                   s.repo.Add(NewOrder(p).(status := Rejected)), s.books)
  {
    var o := NewOrder(p).(status := Rejected);
    LockAgrees(s.accounts, s.repo.orders, p, o);
    BooksWithRejected(s.repo, s.books, o);
    RepoAddOk(s.repo, o);
    hide LedgerAgrees, BooksAgree, RepoOk;
  }

  lemma PlaceKeepsInv(s: State, p: Placement)
    requires Inv(s) && p.id !in s.repo.orders && p.qty > 0.0 && SaneShape(p.side, p.otype, p.price)
    ensures GoodStep(s.repo.ids + [p.id], PlaceOrder(s, p))
  {
    hide Agrees;
    var lock := LockFunds(s.accounts, p.account, p.id, p.symbol, p.side, p.qty, p.price);
    if lock.rejected != None {
      RejectedAgrees(s, p);
    } else {
      AcceptedAgrees(s, p);
      var o := NewOrder(p).(status := Routed);
      RouteKeepsInv(s.(accounts := lock.accounts, repo := s.repo.Add(o),
                       log := s.log + [OrderPlaced(p)] + [OrderAccepted(p.id), OrderRouted(p.id, p.symbol)]), o);
    }
  }

  /** Routing, once its trades are known to settle. */
  lemma RouteIs(s: State, o: Order, m: Matched)
    requires o.id !in s.seen && m == Match(o.symbol, BookOf(BooksWith(s.books, o), o.symbol))
    requires ApplyTrades(Desk(s.accounts, s.repo, s.log, []), m.trades).Done?
    ensures var d := ApplyTrades(Desk(s.accounts, s.repo, s.log, []), m.trades).value;
      && Route(s, o).Done?
      && Route(s, o).value
        == State(d.accounts, d.repo, s.books[o.symbol := m.book], s.seen + {o.id}, Route(s, o).value.log)
  {
  }

  lemma OneBookChanged(books: map<Symbol, Book>, sym: Symbol, b: Book)
    requires Uncrossed(books) && !Crossable(b)
    ensures Uncrossed(books[sym := b])
  {
    var books' := books[sym := b];
    forall y ensures !Crossable(BookOf(books', y)) { assert !Crossable(BookOf(books, y)); }
  }

  /** Routing an accepted order: its trades settle without a refusal and the book ends uncrossed. */
  lemma {:induction false} RouteKeepsInv(s: State, o: Order)
    requires Uncrossed(s.books) && o.id !in s.seen
    requires Agrees(s.accounts, s.repo, BooksWith(s.books, o))
    requires o.id in s.repo.orders && forall id :: id in s.seen ==> id in s.repo.orders
    ensures GoodStep(s.repo.ids, Route(s, o))
  {
    hide Agrees;
    var books0 := BooksWith(s.books, o);
    var d := Desk(s.accounts, s.repo, s.log, []);
    LoopAgrees(d, books0, o.symbol);
    var m := Match(o.symbol, BookOf(books0, o.symbol));
    RepoOnlyGrows(d, m.trades);
    RouteIs(s, o, m);
    assert books0[o.symbol := m.book] == s.books[o.symbol := m.book];
    OneBookChanged(s.books, o.symbol, m.book);
  }

  /** Applying trades forgets no order. */
  lemma {:induction false} RepoOnlyGrows(d: Desk, ts: seq<Trade>)
    requires ApplyTrades(d, ts).Done?
    ensures d.repo.orders.Keys <= ApplyTrades(d, ts).value.repo.orders.Keys
    decreases |ts|
  {
    if ts != [] { RepoOnlyGrows(ApplyTrade(d, ts[0]).value, ts[1..]); }
  }

  // ---------- canceling ----------

  lemma {:induction false} RemoveMembers(ids: seq<OrderId>, es: seq<BookEntry>, id: OrderId)
    requires Queue(ids, es) && forall i, j :: 0 <= i < j < |es| ==> es[i].orderId != es[j].orderId
    ensures forall e :: e in RemoveEntry(es, id) <==> e in es && e.orderId != id
    ensures Queue(ids, RemoveEntry(es, id))
    decreases |es|
  {
    if es != [] {
      QueueHead(ids, es);
      RemoveMembers(ids, es[1..], id);
      var rest := RemoveEntry(es[1..], id);
      assert forall i :: 0 < i < |es| ==> es[1..][i - 1] == es[i];
      if es[0].orderId != id {
        var r := [es[0]] + rest;
        forall i, j | 0 <= i < j < |r| ensures Ahead(ids, r[i], r[j]) {
          if i == 0 { assert rest[j - 1] in es[1..]; }
          else { assert Ahead(ids, rest[i - 1], rest[j - 1]); }
        }
      }
    }
  }

  /** A live order's entry is found on its own side, so that is the side it is removed from. */
  lemma CancelFinds(repo: Repo, books: map<Symbol, Book>, o: Order)
    requires RepoOk(repo) && BooksAgree(repo, books) && o.id in repo.orders && repo.orders[o.id] == o && Live(o)
    ensures var b := BookOf(books, o.symbol);
      RemoveFromBook(b, o.id) == b.With(o.side, RemoveEntry(b.On(o.side), o.id))
  {
    var b := BookOf(books, o.symbol);
    assert SideMatches(repo, books, o.symbol, Buy) && SideMatches(repo, books, o.symbol, Sell);
    FindMeans(b.bids, o.id);
    assert Entry(o) in b.On(o.side);
  }

  /** Canceling takes exactly the canceled order's entry out of exactly its own queue. */
  lemma CancelBooks(repo: Repo, books: map<Symbol, Book>, o: Order, o': Order)
    requires RepoOk(repo) && BooksAgree(repo, books) && o.id in repo.orders && repo.orders[o.id] == o
    requires Live(o) && !Live(o') && o'.id == o.id
    ensures BooksAgree(Repo(repo.ids, repo.orders[o.id := o']),
                       books[o.symbol := RemoveFromBook(BookOf(books, o.symbol), o.id)])
  {
    CancelFinds(repo, books, o);
    var repo' := Repo(repo.ids, repo.orders[o.id := o']);
    var books' := books[o.symbol := RemoveFromBook(BookOf(books, o.symbol), o.id)];
    forall sym, side ensures SideMatches(repo', books', sym, side) {
      assert SideMatches(repo, books, sym, side);
      var es := BookOf(books, sym).On(side);
      if sym == o.symbol && side == o.side { CancelSide(repo.ids, repo.orders, es, o, o'); }
      else { SideUntouched(repo.ids, repo.orders, o', sym, side, es); }
    }
  }

  lemma CancelSide(ids: seq<OrderId>, orders: map<OrderId, Order>, es: seq<BookEntry>, o: Order, o': Order)
    requires SideAgrees(ids, orders, o.symbol, o.side, es)
    requires forall id :: id in orders ==> OrderOk(id, orders[id])
    requires o.id in orders && orders[o.id] == o && !Live(o') && o'.id == o.id
    ensures SideAgrees(ids, orders[o.id := o'], o.symbol, o.side, RemoveEntry(es, o.id))
  {
    hide SaneShape;
    AgreeingSideOk(ids, orders, o.symbol, o.side, es);
    RemoveMembers(ids, es, o.id);
  }

  lemma {:induction false} CancelKeepsInv(s: State, id: OrderId)
    requires Inv(s)
    ensures GoodStep(s.repo.ids, CancelOrder(s, id))
  {
    if id in s.repo.orders && s.repo.orders[id].IsCancelable() {
      assert OrderOk(id, s.repo.orders[id]);
      CancelAgrees(s, s.repo.orders[id]);
      CancelUncrossed(s, s.repo.orders[id]);
      hide Agrees, Uncrossed;
    }
  }

  lemma CancelAgrees(s: State, o: Order)
    requires Agrees(s.accounts, s.repo, s.books) && o.id in s.repo.orders && s.repo.orders[o.id] == o && Live(o)
    ensures Agrees(Unlock(s.accounts, o.account, o.id), Repo(s.repo.ids, s.repo.orders[o.id := o.(status := Canceled)]),
                   s.books[o.symbol := RemoveFromBook(BookOf(s.books, o.symbol), o.id)])
  {
    var o' := o.(status := Canceled);
    assert OrderOk(o.id, o);
    UnlockAgrees(s.accounts, s.repo.orders, o, o');
    RepoSetOk(s.repo, o');
    CancelBooks(s.repo, s.books, o, o');
    hide LedgerAgrees, BooksAgree, RepoOk;
  }

  lemma CancelUncrossed(s: State, o: Order)
    requires Inv(s)
    ensures Uncrossed(s.books[o.symbol := RemoveFromBook(BookOf(s.books, o.symbol), o.id)])
  {
    BookOkFrom(s.repo, s.books, o.symbol);
    RemovalUncrossed(BookOf(s.books, o.symbol), o.id);
    var books' := s.books[o.symbol := RemoveFromBook(BookOf(s.books, o.symbol), o.id)];
    forall sym ensures !Crossable(BookOf(books', sym)) { assert !Crossable(BookOf(s.books, sym)); }
  }

  lemma {:induction false} UnlockAgrees(l: Accounts, orders: map<OrderId, Order>, o: Order, o': Order)
    requires LedgerAgrees(l, orders) && o.id in orders && orders[o.id] == o && Live(o) && o' == o.(status := Canceled)
    ensures LedgerAgrees(Unlock(l, o.account, o.id), orders[o.id := o'])
  {
    hide LocksAgree;
    var l' := Unlock(l, o.account, o.id);
    ReleaseKeepsBalance(l.Get(o.account), o.id);
    forall a ensures Balanced(l'.Get(a)) { assert a != o.account ==> l'.Get(a) == l.Get(a); }
    LocksAfter(l, l', orders, o, o');
  }

  lemma {:induction false} RemoveIsSub(es: seq<BookEntry>, id: OrderId)
    ensures forall e :: e in RemoveEntry(es, id) ==> e in es
    decreases |es|
  {
    if es != [] {
      assert es == [es[0]] + es[1..];
      RemoveIsSub(es[1..], id);
    }
  }

  lemma RemovalUncrossed(b: Book, id: OrderId)
    requires BookOk(b) && !Crossable(b)
    ensures !Crossable(RemoveFromBook(b, id))
  {
    Spread(b);
    RemoveIsSub(b.bids, id);
    RemoveIsSub(b.asks, id);
    var b' := RemoveFromBook(b, id);
    if b'.bids != [] && b'.asks != [] { assert b'.bids[0] in b'.bids && b'.asks[0] in b'.asks; }
  }

  // ---------- cash and shares ----------

  /** Changing an account's balances but not its locks. */
  lemma {:induction false} BalanceChangeAgrees(l: Accounts, orders: map<OrderId, Order>, a: AccountId, acct: Account)
    requires LedgerAgrees(l, orders) && Balanced(acct) && acct.locks == l.Get(a).locks
    ensures LedgerAgrees(l.Put(a, acct), orders)
  {
    hide Balanced, LockFor, HoldsLock;
    var l' := l.Put(a, acct);
    forall x ensures Balanced(l'.Get(x)) && l'.Get(x).locks == l.Get(x).locks {
      assert x != a ==> l'.Get(x) == l.Get(x);
      assert Balanced(l.Get(x));
    }
  }

  lemma {:induction false} FundsKeepInv(s: State, c: Command)
    requires Inv(s) && Positive(c) && (c.CashIn? || c.CashOut? || c.SharesIn?)
    ensures GoodStep(s.repo.ids, Step(s, c))
  {
    var acct := FundsAfter(s.accounts.Get(c.account), c);
    assert LedgerAgrees(s.accounts, s.repo.orders) && Balanced(s.accounts.Get(c.account));
    hide Balanced, BooksAgree, RepoOk, Step, FundsAfter;
    FundsKeepBalance(s.accounts, c);
    BalanceChangeAgrees(s.accounts, s.repo.orders, c.account, acct);
    FundsStep(s, c);
    InvWithAccounts(s, s.accounts.Put(c.account, acct), Step(s, c).value.log);
  }

  lemma {:induction false} FundsKeepBalance(l: Accounts, c: Command)
    requires Positive(c) && (c.CashIn? || c.CashOut? || c.SharesIn?) && Balanced(l.Get(c.account))
    ensures Balanced(FundsAfter(l.Get(c.account), c))
    ensures FundsAfter(l.Get(c.account), c).locks == l.Get(c.account).locks
  {
    var acct := l.Get(c.account);
    assert AssetOk(Cash, acct);
    hide Balanced;
    if c.SharesIn? { SeedKeepsBalance(l, c.account, c.symbol, c.qty); }
    else { CashChangeKeepsBalance(acct, FundsAfter(acct, c).cashAvail); }
  }

  function FundsAfter(acct: Account, c: Command): Account
    requires c.CashIn? || c.CashOut? || c.SharesIn?
  {
    match c
    case CashIn(_, amount) => acct.(cashAvail := acct.cashAvail + amount)
    case CashOut(_, amount) => if acct.cashAvail < amount then acct else acct.(cashAvail := acct.cashAvail - amount)
    case SharesIn(_, sym, qty) => acct.SetPos(sym, acct.Pos(sym).(avail := acct.Pos(sym).avail + qty))
  }

  lemma FundsStep(s: State, c: Command)
    requires c.CashIn? || c.CashOut? || c.SharesIn?
    ensures Step(s, c).Done?
    ensures Step(s, c).value ==
      s.(accounts := s.accounts.Put(c.account, FundsAfter(s.accounts.Get(c.account), c)), log := Step(s, c).value.log)
  {
  }

  lemma InvWithAccounts(s: State, l: Accounts, log: seq<Event>)
    requires Inv(s) && LedgerAgrees(l, s.repo.orders)
    ensures Inv(s.(accounts := l, log := log))
  {
    hide LedgerAgrees, BooksAgree, RepoOk;
  }

  // ---------- whole runs ----------

  lemma StepKeepsInv(s: State, c: Command)
    requires Inv(s) && Positive(c) && Sane(c) && (c.Place? ==> c.placement.id !in s.repo.ids)
    ensures GoodStep(IdsAfter(s.repo.ids, c), Step(s, c))
  {
    match c
    case Place(p) => PlaceKeepsInv(s, p);
    case Cancel(id) => CancelKeepsInv(s, id);
    case _ => FundsKeepInv(s, c);
  }

  /** The ids of the placements of a run, in order. */
  function PlacedIds(cmds: seq<Command>): seq<OrderId> {
    if cmds == [] then [] else IdsAfter(PlacedIds(cmds[..|cmds| - 1]), cmds[|cmds| - 1])
  }

  lemma {:induction false} PlacedIdsMeaning(cmds: seq<Command>)
    ensures forall id ::
      id in PlacedIds(cmds) ==> exists i :: 0 <= i < |cmds| && cmds[i].Place? && cmds[i].placement.id == id
  {
    if cmds != [] {
      var init, c := cmds[..|cmds| - 1], cmds[|cmds| - 1];
      PlacedIdsMeaning(init);
      forall id | id in PlacedIds(cmds)
        ensures exists i :: 0 <= i < |cmds| && cmds[i].Place? && cmds[i].placement.id == id {
        if id in PlacedIds(init) {
          var i :| 0 <= i < |init| && init[i].Place? && init[i].placement.id == id;
          assert cmds[i].Place? && cmds[i].placement.id == id;
        } else {
          assert cmds[|cmds| - 1].Place?;
        }
      }
    }
  }

  /** A well-formed run is one by one command further: the next command is admissible where it is given. */
  lemma NextCommand(cmds: seq<Command>, c: Command)
    requires WellFormed(cmds + [c])
    ensures WellFormed(cmds) && Positive(c)
    ensures c.Place? ==> c.placement.id !in PlacedIds(cmds)
    ensures SaneRun(cmds + [c]) ==> SaneRun(cmds) && Sane(c)
  {
    var all := cmds + [c];
    assert all[|cmds|] == c;
    assert forall i :: 0 <= i < |cmds| ==> all[i] == cmds[i];
    PlacedIdsMeaning(cmds);
    assert forall i :: 0 <= i < |cmds| && c.Place? && cmds[i].Place? ==>
      all[i].placement.id != all[|cmds|].placement.id;
  }

  lemma PrefixAdmissible(before: seq<Command>, after: seq<Command>)
    requires WellFormed(before + after) && SaneRun(before + after)
    ensures WellFormed(before) && SaneRun(before)
  {
    var all := before + after;
    assert forall i :: 0 <= i < |before| ==> all[i] == before[i];
  }

  lemma LastCommand(cmds: seq<Command>, c: Command)
    requires Exec(cmds).Done?
    ensures Exec(cmds + [c]) == Step(Exec(cmds).value, c)
  {
    hide Step;
    assert (cmds + [c])[..|cmds|] == cmds;
  }

  lemma InitialInv()
    ensures Inv(INITIAL)
  {
    NewAccountBalanced();
  }

  /**
   * Every run the boundary lets through, of sane orders, is carried out without a single refused state
   * transition, and book, order repository and ledger agree after each of its commands.
   */
  lemma {:induction false} RunsAgree(cmds: seq<Command>)
    requires WellFormed(cmds) && SaneRun(cmds)
    ensures GoodStep(PlacedIds(cmds), Exec(cmds))
  {
    if cmds == [] { InitialInv(); }
    else {
      var init, c := cmds[..|cmds| - 1], cmds[|cmds| - 1];
      assert cmds == init + [c];
      NextCommand(init, c);
      RunsAgree(init);
      StepKeepsInv(Exec(init).value, c);
    }
  }

  /**
   * No overdraft: after any such run no account has a negative balance, available or locked, in cash or
   * in any symbol, and what is locked is exactly what the account's order locks reserve.
   */
  lemma {:induction false} NoOverdraft(cmds: seq<Command>, a: AccountId, asset: Asset)
    requires WellFormed(cmds) && SaneRun(cmds)
    ensures Exec(cmds).Done?
    ensures var acct := Exec(cmds).value.accounts.Get(a);
      Available(asset, acct) >= 0.0 && Locked(asset, acct) >= 0.0 && Locked(asset, acct) == Reserved(asset, acct.locks)
  {
    RunsAgree(cmds);
    var acct := Exec(cmds).value.accounts.Get(a);
    assert Balanced(acct);
    BalancedNonNegative(acct, asset);
    assert AssetOk(asset, acct);
  }

  /** In every reachable state the cost basis of a position is not negative, and a flat position has none. */
  lemma {:induction false} CostBasisSound(cmds: seq<Command>, a: AccountId, sym: Symbol)
    requires WellFormed(cmds) && SaneRun(cmds)
    ensures Exec(cmds).Done?
    ensures var p := Exec(cmds).value.accounts.Get(a).Pos(sym); p.cost >= 0.0 && (p.Total() == 0.0 ==> p.cost == 0.0)
  {
    RunsAgree(cmds);
    assert Balanced(Exec(cmds).value.accounts.Get(a));
    assert CostOk(Exec(cmds).value.accounts.Get(a).Pos(sym));
  }

  /**
   * Order/book agreement: after any such run an order is ROUTED or PARTIALLY_FILLED exactly when one entry
   * with its id rests in its symbol's book on its side, and that entry carries what remains of it.
   */
  lemma {:induction false} LiveIffResting(cmds: seq<Command>, id: OrderId)
    requires WellFormed(cmds) && SaneRun(cmds)
    ensures Exec(cmds).Done?
    ensures var s := Exec(cmds).value;
      id in s.repo.orders ==>
        var o := s.repo.orders[id];
        var es := BookOf(s.books, o.symbol).On(o.side);
        && (Live(o) <==> FindEntry(es, id).Some?)
        && (Live(o) ==> FindEntry(es, id).value.qty == o.Remaining() > 0.0)
        && (forall i, j :: 0 <= i < j < |es| ==> es[i].orderId != es[j].orderId)
  {
    hide Exec;
    RunsAgree(cmds);
    var s := Exec(cmds).value;
    if id in s.repo.orders {
      var o := s.repo.orders[id];
      assert OrderOk(id, o);
      assert SideMatches(s.repo, s.books, o.symbol, o.side);
      var es := BookOf(s.books, o.symbol).On(o.side);
      AgreeingSideOk(s.repo.ids, s.repo.orders, o.symbol, o.side, es);
      FindMeans(es, id);
      if Live(o) { assert Entry(o) in es; }
    }
  }
}
