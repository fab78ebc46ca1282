/** Runs that show where the code does not keep what is expected of it. */
module Counterexamples {
  import opened Domain
  import opened PriceTime
  import opened Matching
  import opened Ledger
  import opened Orders
  import opened Exchange
  import opened Agreement
  import opened Runs
  import opened Projection
  import opened Snapshots
  import opened BookRebuild
  import opened Restarts
  import opened Shapes
  import opened FairPrice
  import opened Residues
  import opened ReplayRuns
  import opened MarketMode
  import opened MarketRuns
  import opened MarketReplay

  // ---------- restart ----------

  /** A BUY order nobody can pay for. */
  function Unaffordable(): Placement { Placement(1, "b", "x", Buy, Limit, 1.0, Some(1.0), 0) }

  /** The one rejected order comes back resting. */
  lemma RejectedComesBack()
    ensures WellFormed([Place(Unaffordable())]) && SaneRun([Place(Unaffordable())])
    ensures Exec([Place(Unaffordable())]).Done?
    ensures var s := Exec([Place(Unaffordable())]).value;
      && Phantom(s.repo.orders[1])
      && Replay(NO_ACCOUNTS, s.log).Done? && !Alike(s, Restarted(s.log))
  {
    assert [Place(Unaffordable())] == [] + [Place(Unaffordable())];
    RunPlace([], Unaffordable());
    RestartExactly([Place(Unaffordable())]);
    hide Alike, Restarted, Replay;
    assert Phantom(Exec([Place(Unaffordable())]).value.repo.orders[1]);
  }

  /** An offer without a price. */
  function Unpriced(): Placement { Placement(1, "s", "x", Sell, Limit, 1.0, None, 0) }

  function UnpricedRun(): seq<Command> { [SharesIn("s", "x", 1.0), Place(Unpriced())] }

  lemma RunOfTwo(c: Command, p: Placement)
    requires Step(INITIAL, c).Done?
    ensures Exec([c, Place(p)]) == PlaceOrder(Step(INITIAL, c).value, p)
  {
    hide Step, PlaceOrder;
    assert [c] == [] + [c] && [c, Place(p)] == [c] + [Place(p)];
    LastCommand([], c);
    RunPlace([c], p);
  }

  lemma UnpricedAdmissible()
    ensures WellFormed(UnpricedRun()) && SaneRun(UnpricedRun())
  {
  }

  lemma UnpricedHappens()
    ensures Exec(UnpricedRun()).Done?
    ensures var s := Exec(UnpricedRun()).value; 1 in s.repo.orders && Lost(s.repo.orders[1])
  {
    hide PlaceOrder, Exec;
    RunOfTwo(SharesIn("s", "x", 1.0), Unpriced());
    UnpricedRests(Step(INITIAL, SharesIn("s", "x", 1.0)).value);
  }

  /** The one resting order does not come back. */
  lemma UnpricedIsLost()
    ensures WellFormed(UnpricedRun()) && SaneRun(UnpricedRun()) && Exec(UnpricedRun()).Done?
    ensures var s := Exec(UnpricedRun()).value;
      && 1 in s.repo.orders && Lost(s.repo.orders[1])
      && Replay(NO_ACCOUNTS, s.log).Done? && !Alike(s, Restarted(s.log))
  {
    hide *;
    UnpricedAdmissible();
    UnpricedHappens();
    RestartExactly(UnpricedRun());
    LostIsNotRecoverable(Exec(UnpricedRun()).value, 1);
  }

  lemma LostIsNotRecoverable(s: State, id: OrderId)
    requires id in s.repo.orders && Lost(s.repo.orders[id])
    ensures !Recoverable(s)
  {
  }

  lemma UnpricedRests(s: State)
    requires s.accounts.Get("s").Pos("x").avail == 1.0 && s.repo == INITIAL.repo && s.books == map[] && s.seen == {}
    ensures PlaceOrder(s, Unpriced()).Done?
    ensures var t := PlaceOrder(s, Unpriced()).value; 1 in t.repo.orders && Lost(t.repo.orders[1])
  {
    var o := NewOrder(Unpriced()).(status := Routed);
    assert Insort([], Entry(o)) == [Entry(o)];
    assert Submit("x", EMPTY_BOOK, Sell, Entry(o)) == Matched([], Book([], [Entry(o)]));
  }

  // ---------- snapshot ----------

  /** A BUY order that its account can pay for. */
  function BidRun(): seq<Command> { [CashIn("b", 1.0), Place(Unaffordable())] }

  lemma BidAdmissible()
    ensures WellFormed(BidRun()) && SaneRun(BidRun())
  {
  }

  lemma BidHappens()
    ensures Exec(BidRun()).Done?
    ensures var t := Exec(BidRun()).value;
      1 in t.repo.orders && Live(t.repo.orders[1]) && t.repo.orders[1].side == Buy && t.repo.orders[1].Limit() == 1.0
  {
    hide PlaceOrder, Exec;
    RunOfTwo(CashIn("b", 1.0), Unaffordable());
    BidRests(Step(INITIAL, CashIn("b", 1.0)).value);
  }

  /** Taken while the order is open, the snapshot loses its lock: canceling it gives nothing back. */
  lemma {:induction false} OpenOrderIsLost()
    ensures WellFormed(BidRun()) && SaneRun(BidRun()) && Exec(BidRun()).Done?
    ensures MayFollow(BidRun(), [Cancel(1)])
    ensures !(Exec(BidRun() + [Cancel(1)]).Done? &&
      Accelerates(Exec(BidRun()).value, Exec(BidRun() + [Cancel(1)]).value))
  {
    hide *;
    BidAdmissible();
    BidHappens();
    InvAfter(BidRun());
    LostAfterAll(BidRun(), 1);
  }

  lemma InvAfter(cmds: seq<Command>)
    requires WellFormed(cmds) && SaneRun(cmds)
    ensures Exec(cmds).Done? && Inv(Exec(cmds).value)
  {
    RunsAgree(cmds);
  }

  lemma BidRests(s: State)
    requires s.accounts.Get("b").cashAvail == 1.0 && s.repo == INITIAL.repo && s.books == map[] && s.seen == {}
    ensures PlaceOrder(s, Unaffordable()).Done?
    ensures var t := PlaceOrder(s, Unaffordable()).value;
      1 in t.repo.orders && Live(t.repo.orders[1]) && t.repo.orders[1].side == Buy && t.repo.orders[1].Limit() == 1.0
  {
    var o := NewOrder(Unaffordable()).(status := Routed);
    assert Value(1.0, 1.0) == 1.0;
    assert Insort([], Entry(o)) == [Entry(o)];
    assert Submit("x", EMPTY_BOOK, Buy, Entry(o)) == Matched([], Book([Entry(o)], []));
  }

  // ---------- residue ----------

  /** A share is offered at 1 and bought by an order limited to 2: the order is filled, and 1 stays locked for it. */
  lemma {:induction false} SavingIsStranded()
    ensures var cmds := Meeting(1.0, 2.0, Limit, 2.0);
      && WellFormed(cmds) && SaneRun(cmds) && Exec(cmds).Done?
      && var t := Exec(cmds).value;
      && 2 in t.repo.orders && t.repo.orders[2].status == Status.Filled
      && 2 in t.accounts.Get("b").locks && t.accounts.Get("b").locks[2].cash > 0.0
      && Locked(Cash, t.accounts.Get("b")) == 1.0
  {
    var cmds := Meeting(1.0, 2.0, Limit, 2.0);
    hide *;
    MeetingIsClocked();
    MeetsAt();
    MeetingOutcome(1.0, 2.0, Limit, 2.0);
    OfferStands();
    ResidueOnMovingClock(cmds, 3);
    ResidueExactly(cmds, 3);
    LockedIs(Exec(cmds).value.accounts.Get("b"));
  }

  lemma MeetsAt()
    ensures EffectivePrice(Buy, Limit, Some(2.0)) == 2.0
  {
  }

  lemma LockedIs(x: Account)
    ensures Locked(Cash, x) == x.cashLocked
  {
  }

  lemma MeetingIsClocked()
    ensures var cmds := Meeting(1.0, 2.0, Limit, 2.0);
      && WellFormed(cmds) && SaneRun(cmds) && Clocked(cmds) && NotBack(cmds) && |cmds| == 4
      && cmds[3] == Place(Placement(2, "b", "x", Buy, Limit, 1.0, Some(2.0), 1))
  {
  }

  /** When the bid comes, the offer stands at 1. */
  lemma OfferStands()
    ensures var cmds := Meeting(1.0, 2.0, Limit, 2.0)[..3];
      && Exec(cmds).Done?
      && BookOf(Exec(cmds).value.books, "x").asks != [] && BookOf(Exec(cmds).value.books, "x").asks[0].price == 1.0
  {
    assert Meeting(1.0, 2.0, Limit, 2.0)[..3] == [SharesIn("s", "x", 1.0), Place(SellerOrder(1.0)), CashIn("b", 2.0)];
    hide Exec;
    OfferMade(1.0, 2.0);
  }

  // ---------- replay of the other mode ----------

  function QuotedRun(): seq<MarketCommand> {
    [User(CashIn("b", 1.0)), Fetch("x", Quote(1.0, 1.0)), User(Place(Unaffordable()))]
  }

  lemma QuotedAdmissible()
    ensures MarketWellFormed(QuotedRun()) && |QuotedRun()| == 3
  {
  }

  /** When the order comes, its account has the money and its symbol a quote. */
  lemma QuoteStands()
    ensures var cs := QuotedRun()[..2];
      && MarketExec(cs).Done? && MarketInv(MarketExec(cs).value)
      && var m := MarketExec(cs).value;
      m.accounts.Get("b").cashAvail == 1.0 && m.repo == Repo([], map[]) && "x" in m.quotes &&
        m.quotes["x"] == Quote(1.0, 1.0)
  {
    var c, d := User(CashIn("b", 1.0)), Fetch("x", Quote(1.0, 1.0));
    assert QuotedRun()[..2] == [c, d] && [c] == [] + [c] && [c, d] == [c] + [d];
    MarketLast([], c);
    MarketLast([c], d);
    MarketRunsAgree([c, d]);
    hide MarketInv;
  }

  lemma QuotedFills(m: Venue)
    requires MarketInv(m) && m.accounts.Get("b").cashAvail == 1.0 && m.repo == Repo([], map[])
    requires "x" in m.quotes && m.quotes["x"] == Quote(1.0, 1.0)
    ensures MarketStep(m, User(Place(Unaffordable()))).Done?
    ensures var r := MarketStep(m, User(Place(Unaffordable()))).value.repo;
      1 in r.orders && r.orders[1].status == Status.Filled
  {
    hide Step, TryFill;
    assert Value(1.0, 1.0) == 1.0;
    var m1 := AfterMarketIntake(m, Unaffordable());
    IntakeKeepsInv(m, Unaffordable());
    assert m1.repo.orders[1] == NewOrder(Unaffordable()).(status := Routed);
    hide MarketInv, AfterMarketIntake, TryFill;
    FillKeepsInv(m1, 1, Quote(1.0, 1.0));
  }

  /** A BUY order filled against the market: the replay does not know. */
  lemma FillIsNotReplayed()
    ensures MarketWellFormed(QuotedRun()) && MarketExec(QuotedRun()).Done?
    ensures var m := MarketExec(QuotedRun()).value;
      && 1 in m.repo.orders && m.repo.orders[1].status == Status.Filled
      && !Replays(NO_ACCOUNTS, m.log, m.accounts, {})
  {
    hide *;
    QuotedAdmissible();
    QuoteStands();
    QuotedLast();
    MarketLast(QuotedRun()[..2], User(Place(Unaffordable())));
    QuotedFills(MarketExec(QuotedRun()[..2]).value);
    MarketReplayExactly(QuotedRun());
    SomethingFilled(MarketExec(QuotedRun()).value, 1);
  }

  lemma QuotedLast()
    ensures QuotedRun() == QuotedRun()[..2] + [User(Place(Unaffordable()))]
  {
  }

  lemma SomethingFilled(m: Venue, id: OrderId)
    requires id in m.repo.orders && m.repo.orders[id].status == Status.Filled
    ensures !NothingFilled(m)
  {
  }
}
