/** The symbol without a name: nobody ever holds shares of it, so what is bid for there never trades. */
module Unnamed {
  import opened Domain
  import opened Sums
  import opened PriceTime
  import opened Matching
  import opened Ledger
  import opened LedgerLaws
  import opened Orders
  import opened Exchange
  import opened Agreement
  import opened Settling
  import opened Runs
  import opened LogShape
  import opened Projection
  import opened ExactLocks
  import opened BookRebuild
  import opened Restarts
  import opened Conservation

  const UNNAMED: Asset := Shares("")

  // ---------- nobody holds any ----------

  ghost predicate NobodyHolds(l: Accounts) {
    forall a :: Available(UNNAMED, l.Get(a)) == 0.0 && Locked(UNNAMED, l.Get(a)) == 0.0
  }

  lemma {:induction false} NothingComesIn(s: State, c: Command)
    requires Positive(c)
    ensures Inflow(UNNAMED, NewEvents(s, c)) == 0.0
  {
    if c.Place? || c.Cancel? { OrdersBringNothing(UNNAMED, s, c); }
    else if NewEvents(s, c) == [] { NoInflow(UNNAMED, []); }
    else { LoneInflow(UNNAMED, NewEvents(s, c)[0]); }
  }

  lemma {:induction false} NothingAtAll(cmds: seq<Command>)
    requires WellFormed(cmds) && SaneRun(cmds)
    ensures Exec(cmds).Done? && Total(UNNAMED, Exec(cmds).value.accounts) == 0.0
  {
    RunsAgree(cmds);
    if cmds == [] {
      assert Worths(UNNAMED, NO_ACCOUNTS) == map[];
    } else {
      var init, c := cmds[..|cmds| - 1], cmds[|cmds| - 1];
      assert cmds == init + [c];
      NextCommand(init, c);
      NothingAtAll(init);
      hide Total;
      StepConserves(UNNAMED, Exec(init).value, c);
      NothingComesIn(Exec(init).value, c);
    }
  }

  /** No run ever gives anybody a share of it: none comes in, and shares are only moved. */
  lemma {:induction false} NobodyEverHolds(cmds: seq<Command>)
    requires WellFormed(cmds) && SaneRun(cmds)
    ensures Exec(cmds).Done? && NobodyHolds(Exec(cmds).value.accounts)
  {
    NothingAtAll(cmds);
    var l := Exec(cmds).value.accounts;
    forall a ensures Available(UNNAMED, l.Get(a)) >= 0.0 && Locked(UNNAMED, l.Get(a)) >= 0.0 {
      NoOverdraft(cmds, a, UNNAMED);
    }
    hide Exec;
    NoneOfNothing(l);
  }

  lemma NoneOfNothing(l: Accounts)
    requires forall a :: Available(UNNAMED, l.Get(a)) >= 0.0 && Locked(UNNAMED, l.Get(a)) >= 0.0
    requires Total(UNNAMED, l) == 0.0
    ensures NobodyHolds(l)
  {
    forall a | a in l.table ensures Worth(UNNAMED, l.table[a]) == 0.0 {
      assert forall x :: x in l.table ==> l.Get(x) == l.table[x];
      MapSumBound(Worths(UNNAMED, l), a);
    }
  }

  /** So nobody can offer any. */
  lemma {:induction false} NobodyOffers(s: State)
    requires Inv(s) && NobodyHolds(s.accounts)
    ensures BookOf(s.books, "").asks == []
  {
    var asks := BookOf(s.books, "").asks;
    if asks != [] {
      OfferIsLocked(s, asks[0]);
    }
  }

  lemma OfferIsLive(s: State, e: BookEntry)
    requires Inv(s) && e in BookOf(s.books, "").asks
    ensures e.orderId in s.repo.orders
    ensures var o := s.repo.orders[e.orderId];
      o.id == e.orderId && HoldsLock(o) && o.side == Sell && o.symbol == "" && o.Remaining() > 0.0
  {
    assert SideMatches(s.repo, s.books, "", Sell);
    assert OrderOk(e.orderId, s.repo.orders[e.orderId]);
    hide LedgerAgrees, BooksAgree, Uncrossed, Queue, SaneShape;
  }

  /** A lock of a SELL order is part of what is locked. */
  lemma LockedForSale(x: Account, id: OrderId, o: Order)
    requires Balanced(x) && id in x.locks && LockFor(o, x.locks[id])
    requires o.side == Sell && o.symbol == "" && o.Remaining() > 0.0
    ensures Locked(UNNAMED, x) > 0.0
  {
    hide Balanced, Locked;
    ReserveBound(x, UNNAMED, id);
  }

  lemma {:induction false} OfferIsLocked(s: State, e: BookEntry)
    requires Inv(s) && e in BookOf(s.books, "").asks
    ensures exists a :: Locked(UNNAMED, s.accounts.Get(a)) > 0.0
  {
    OfferIsLive(s, e);
    var o := s.repo.orders[e.orderId];
    assert LedgerAgrees(s.accounts, s.repo.orders) && Balanced(s.accounts.Get(o.account));
    hide *;
    LocksRead(s.accounts, s.repo.orders, o);
    LockedForSale(s.accounts.Get(o.account), e.orderId, o);
  }

  // ---------- exchanges that differ in what is bid for it ----------

  /** The same but for the bids there; nothing is offered. */
  ghost predicate ButForBids(s: State, t: State) {
    && t == s.(books := t.books)
    && (forall sym :: sym != "" ==> SameBook(t.books, s.books, sym))
    && BookOf(s.books, "").asks == [] && BookOf(t.books, "").asks == []
  }

  predicate BidsKnown(s: State) { forall e :: e in BookOf(s.books, "").bids ==> e.orderId in s.repo.orders }

  lemma {:induction false} InvKnowsBids(s: State)
    requires Inv(s)
    ensures BidsKnown(s)
  {
    assert SideMatches(s.repo, s.books, "", Buy);
  }

  /** A new bid there meets nothing and rests with all of its quantity. */
  lemma {:induction false} BidRests(bids: seq<BookEntry>, e: BookEntry)
    requires forall x :: x in bids ==> x.orderId != e.orderId
    ensures Submit("", Book(bids, []), Buy, e) == Matched([], Book(Insort(bids, e), []))
    ensures Remainder(Book(Insort(bids, e), []), "", Buy, e.orderId, e.qty)
      == [OrderRemainOnBook(e.orderId, "", Buy, e.qty, e.qty)]
  {
    InsortMembers(bids, e);
    hide Insort;
    FindMeans(Insort(bids, e), e.orderId);
  }

  /** Only bids are accepted there. */
  lemma AcceptedBids(s: State, p: Placement)
    requires NobodyHolds(s.accounts) && p.symbol == "" && p.qty > 0.0 && Accepts(s, p)
    ensures p.side == Buy
  {
    assert Available(UNNAMED, s.accounts.Get(p.account)) == 0.0;
  }

  lemma {:induction false} SubmittedButForBids(s: State, t: State, p: Placement)
    requires ButForBids(s, t) && BidsKnown(s) && BidsKnown(t) && p.id !in s.repo.orders && p.id !in s.seen
    requires p.symbol == "" ==> p.side == Buy
    ensures var x, y := SubmitOrder(s.books, s.seen, p.symbol, p.side, Entry(NewOrder(p))),
                        SubmitOrder(t.books, t.seen, p.symbol, p.side, Entry(NewOrder(p)));
      && x.trades == y.trades && x.remain == y.remain && x.seen == y.seen
      && (forall sym :: sym != "" ==> SameBook(y.books, x.books, sym))
      && BookOf(x.books, "").asks == [] && BookOf(y.books, "").asks == []
      && (forall e :: e in BookOf(y.books, "").bids ==> e in BookOf(t.books, "").bids || e.orderId == p.id)
  {
    var e := Entry(NewOrder(p));
    assert e.orderId == p.id;
    var x, y := SubmitOrder(s.books, s.seen, p.symbol, p.side, e), SubmitOrder(t.books, t.seen, p.symbol, p.side, e);
    forall sym | sym != "" ensures SameBook(y.books, x.books, sym) { assert SameBook(t.books, s.books, sym); }
    if p.symbol == "" {
      BidRests(BookOf(s.books, "").bids, e);
      BidRests(BookOf(t.books, "").bids, e);
      InsortMembers(BookOf(t.books, "").bids, e);
      hide Submit, Remainder, Insort, Entry;
    } else {
      assert SameBook(t.books, s.books, p.symbol);
      hide Submit, Remainder, Entry;
    }
  }

  /** What holds of a step of both. */
  ghost predicate BothGoOn(r: Outcome<State>, q: Outcome<State>) {
    r.Done? && q.Done? && ButForBids(r.value, q.value) && BidsKnown(q.value)
  }

  lemma SameDesk(s: State, t: State, p: Placement)
    requires t == s.(books := t.books)
    ensures DeskFor(t, p) == DeskFor(s, p) && Accepts(t, p) == Accepts(s, p)
  {
    hide LockFunds;
  }

  lemma {:induction false} AcceptedButForBids(s: State, t: State, p: Placement)
    requires ButForBids(s, t) && BidsKnown(s) && BidsKnown(t) && Accepts(s, p) && Step(s, Place(p)).Done?
    requires p.id !in s.repo.orders && p.id !in s.seen && (p.symbol == "" ==> p.side == Buy)
    ensures BothGoOn(Step(s, Place(p)), Step(t, Place(p)))
  {
    hide Step, PlaceOrder, ApplyTrades, SubmitOrder, DeskFor, Accepts, Entry, NewOrder;
    SameDesk(s, t, p);
    SubmittedButForBids(s, t, p);
    StepOfPlace(s, p);
    StepOfPlace(t, p);
    PlaceUnfolds(s, p);
    PlaceUnfolds(t, p);
    StepKnows(s, p);
  }

  lemma StepKnows(s: State, p: Placement)
    requires Step(s, Place(p)).Done? && p.id !in s.repo.orders
    ensures s.repo.orders.Keys <= Step(s, Place(p)).value.repo.orders.Keys
    ensures p.id in Step(s, Place(p)).value.repo.orders
  {
    StepKeepsTerms(s, Place(p));
    StepAdds(s, p);
    hide Step;
  }

  lemma {:induction false} StepAdds(s: State, p: Placement)
    requires Step(s, Place(p)).Done?
    ensures p.id in Step(s, Place(p)).value.repo.orders
  {
    hide LockFunds;
    if Accepts(s, p) {
      hide Step, ApplyTrades, SubmitOrder;
      StepOfPlace(s, p);
      PlaceUnfolds(s, p);
      TradesKeepTerms(DeskFor(s, p), TradesOf(s, p));
    }
  }

  lemma {:induction false} RejectedButForBids(s: State, t: State, p: Placement)
    requires ButForBids(s, t) && BidsKnown(t) && !Accepts(s, p)
    ensures BothGoOn(Step(s, Place(p)), Step(t, Place(p)))
  {
    hide LockFunds;
  }

  lemma {:induction false} CancelButForBids(s: State, t: State, id: OrderId)
    requires ButForBids(s, t) && BidsKnown(t) && Step(s, Cancel(id)).Done?
    ensures BothGoOn(Step(s, Cancel(id)), Step(t, Cancel(id)))
  {
    hide Unlock;
    if id in s.repo.orders && s.repo.orders[id].IsCancelable() {
      var o := s.repo.orders[id];
      assert o.symbol != "" ==> SameBook(t.books, s.books, o.symbol);
      RemoveKeepsAsks(BookOf(s.books, ""), id);
      RemoveKeepsAsks(BookOf(t.books, ""), id);
      hide RemoveFromBook;
      var x, y := Step(s, Cancel(id)).value, Step(t, Cancel(id)).value;
      forall sym | sym != "" ensures SameBook(y.books, x.books, sym) { assert SameBook(t.books, s.books, sym); }
    }
  }

  lemma {:induction false} RemoveKeepsAsks(b: Book, id: OrderId)
    requires b.asks == []
    ensures RemoveFromBook(b, id).asks == []
    ensures forall e :: e in RemoveFromBook(b, id).bids ==> e in b.bids
  {
    RemovedWasThere(b.bids, id);
  }

  lemma {:induction false} RemovedWasThere(es: seq<BookEntry>, id: OrderId)
    ensures forall e :: e in RemoveEntry(es, id) ==> e in es
  {
    if es != [] { RemovedWasThere(es[1..], id); }
  }

  lemma {:induction false} FundsButForBids(s: State, t: State, c: Command)
    requires ButForBids(s, t) && BidsKnown(t) && !c.Place? && !c.Cancel?
    ensures BothGoOn(Step(s, c), Step(t, c))
  {
    hide Deposit, Seed, Withdraw;
  }

  lemma {:induction false} StepButForBids(s: State, t: State, c: Command)
    requires ButForBids(s, t) && BidsKnown(t) && Inv(s) && NobodyHolds(s.accounts) && Positive(c) && Step(s, c).Done?
    requires c.Place? ==> c.placement.id !in s.repo.ids
    ensures BothGoOn(Step(s, c), Step(t, c))
  {
    InvKnowsBids(s);
    IdsMatch(s);
    match c
    case Place(p) =>
      assert p.id !in s.seen;
      hide Inv, ButForBids, BidsKnown, Step;
      if Accepts(s, p) {
        if p.symbol == "" { AcceptedBids(s, p); }
        AcceptedButForBids(s, t, p);
      } else { RejectedButForBids(s, t, p); }
    case Cancel(id) => CancelButForBids(s, t, id);
    case _ => FundsButForBids(s, t, c);
  }

  /** Twins hold nothing either. */
  lemma TwinsHoldNothing(l: Accounts, m: Accounts)
    requires Twins(m, l, {}) && NobodyHolds(l)
    ensures NobodyHolds(m)
  {
    forall a ensures Available(UNNAMED, m.Get(a)) == 0.0 && Locked(UNNAMED, m.Get(a)) == 0.0 {
      assert Twin(m.Get(a), l.Get(a), {}) && m.Get(a).Pos("") == l.Get(a).Pos("");
      assert Available(UNNAMED, l.Get(a)) == 0.0 && Locked(UNNAMED, l.Get(a)) == 0.0;
    }
  }

  /** Whatever is commanded, an exchange that is alike the live one but for bids there stays so. */
  lemma {:induction false} RunsButForBids(before: seq<Command>, u: State, t: State, after: seq<Command>)
    requires WellFormed(before + after) && SaneRun(before + after) && Exec(before).Done?
    requires Inv(u) && Alike(Exec(before).value, u) && ButForBids(u, t) && BidsKnown(t)
    ensures Exec(before + after).Done? && ExecFrom(u, after).Done? && Inv(ExecFrom(u, after).value)
    ensures Alike(Exec(before + after).value, ExecFrom(u, after).value)
    ensures BothGoOn(ExecFrom(u, after), ExecFrom(t, after))
    decreases |after|
  {
    hide Inv, Alike, Step, ButForBids, BidsKnown, NobodyHolds, Exec;
    RunsOn(before, u, after);
    if after != [] {
      var c, after0 := after[|after| - 1], after[..|after| - 1];
      var all0 := before + after0;
      assert before + after == all0 + [c];
      NextCommand(all0, c);
      RunsButForBids(before, u, t, after0);
      hide ExecFrom;
      RunsAgree(all0);
      NobodyEverHolds(all0);
      AlikeReads(Exec(all0).value, ExecFrom(u, after0).value);
      TwinsHoldNothing(Exec(all0).value.accounts, ExecFrom(u, after0).value.accounts);
      LastCommandFrom(u, after);
      LastCommandFrom(t, after);
      StepButForBids(ExecFrom(u, after0).value, ExecFrom(t, after0).value, c);
    }
  }

  lemma AlikeReads(s: State, t: State)
    requires Alike(s, t)
    ensures Twins(t.accounts, s.accounts, {}) && t.repo == s.repo && t.log == s.log
  {
  }
}
