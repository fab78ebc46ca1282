/** Rebuilding the order repository and the order books from the log at a cold start. */
module Rebuild {
  import opened Domain
  import opened Matching
  import opened Ledger
  import opened Orders
  import opened Exchange
  import opened Agreement
  import opened Runs
  import opened LogShape
  import opened ExactLocks

  // ---------- the order repository ----------

  /** The repository so far, and how many events named an unknown order and were skipped. */
  datatype Restoring = Restoring(repo: Repo, skipped: nat)

  function SetStatus(r: Restoring, id: OrderId, status: Status): Restoring {
    if id in r.repo.orders then r.(repo := r.repo.Set(r.repo.orders[id].(status := status)))
    else r.(skipped := r.skipped + 1)
  }

  /** Statuses are taken from the events as they are, without going through the state machine. */
  function RestoreOrder(r: Restoring, e: Event): Restoring {
    match e
    case OrderPlaced(p) => r.(repo := r.repo.Add(NewOrder(p)))
    case OrderAccepted(id) => SetStatus(r, id, Accepted)
    case OrderRejected(id, _) => SetStatus(r, id, Rejected)
    case OrderRouted(id, _) => SetStatus(r, id, Routed)
    case OrderCanceled(id) => SetStatus(r, id, Canceled)
    case OrderFilled(id, _, cumulative, status) =>
      if id in r.repo.orders
      then r.(repo := r.repo.Set(r.repo.orders[id].(filled := cumulative, status := status)))
      else r.(skipped := r.skipped + 1)
    case _ => r
  }

  function RestoreOrders(r: Restoring, es: seq<Event>): Restoring
    decreases |es|
  {
    if es == [] then r else RestoreOrders(RestoreOrder(r, es[0]), es[1..])
  }

  lemma {:induction false} RestoreAppend(r: Restoring, xs: seq<Event>, ys: seq<Event>)
    ensures RestoreOrders(r, xs + ys) == RestoreOrders(RestoreOrders(r, xs), ys)
    decreases |xs|
  {
    if xs == [] { assert xs + ys == ys; }
    else {
      assert (xs + ys)[1..] == xs[1..] + ys;
      RestoreAppend(RestoreOrder(r, xs[0]), xs[1..], ys);
    }
  }

  lemma RestoreOne(r: Restoring, e: Event)
    ensures RestoreOrders(r, [e]) == RestoreOrder(r, e)
  {
    assert [e][1..] == [];
  }

  lemma RestoreTwo(r: Restoring, e: Event, f: Event)
    ensures RestoreOrders(r, [e, f]) == RestoreOrder(RestoreOrder(r, e), f)
  {
    RestoreOne(RestoreOrder(r, e), f);
    assert [e, f][1..] == [f];
  }

  predicate AboutNoOrder(e: Event) {
    e.AccountUpdated? || e.CancelRejected? || e.OrderRemainOnBook? || e.TradeExecuted? || e.TradeSettlement?
  }

  lemma {:induction false} RestoreNothing(r: Restoring, es: seq<Event>)
    requires forall e :: e in es ==> AboutNoOrder(e)
    ensures RestoreOrders(r, es) == r
    decreases |es|
  {
    if es != [] {
      assert es[0] in es;
      RestoreNothing(RestoreOrder(r, es[0]), es[1..]);
    }
  }

  lemma {:induction false} TradesAboutNoOrder(repo: Repo, ts: seq<Trade>)
    ensures forall e :: e in TradeEvents(repo, ts) ==> AboutNoOrder(e)
    decreases |ts|
  {
    if ts != [] { TradesAboutNoOrder(repo, ts[1..]); }
  }

  lemma {:induction false} RestoreTrade(d: Desk, t: Trade, skipped: nat)
    requires ApplyTrade(d, t).Done? && forall id :: id in d.repo.orders ==> d.repo.orders[id].id == id
    ensures var d1 := ApplyTrade(d, t).value;
      && d.fills <= d1.fills
      && RestoreOrders(Restoring(d.repo, skipped), d1.fills[|d.fills|..]) == Restoring(d1.repo, skipped)
      && forall id :: id in d1.repo.orders ==> d1.repo.orders[id].id == id
  {
    hide TrySettle;
    var d1 := ApplyTrade(d, t).value;
    var r1 := OnFill(d.repo, t.buyId, t.qty).value;
    var e, f := FillEvent(r1.orders[t.buyId], t.qty), FillEvent(d1.repo.orders[t.sellId], t.qty);
    assert d1.fills[|d.fills|..] == [e, f];
    RestoreTwo(Restoring(d.repo, skipped), e, f);
    assert RestoreOrder(Restoring(d.repo, skipped), e) == Restoring(r1, skipped);
    assert RestoreOrder(Restoring(r1, skipped), f) == Restoring(d1.repo, skipped);
  }

  /** The fill events, replayed in the order they are published, reproduce the fills. */
  lemma {:induction false} RestoreFills(d: Desk, ts: seq<Trade>, skipped: nat)
    requires ApplyTrades(d, ts).Done? && forall id :: id in d.repo.orders ==> d.repo.orders[id].id == id
    ensures RestoreOrders(Restoring(d.repo, skipped), FillEvents(d, ts))
      == Restoring(ApplyTrades(d, ts).value.repo, skipped)
    decreases |ts|
  {
    hide ApplyTrade, RestoreOrder, RestoreOrders;
    if ts == [] {
      RestoreNothing(Restoring(d.repo, skipped), []);
    } else {
      RestoreTrade(d, ts[0], skipped);
      var d1 := ApplyTrade(d, ts[0]).value;
      RestoreFills(d1, ts[1..], skipped);
      RestoreAppend(Restoring(d.repo, skipped), d1.fills[|d.fills|..], FillEvents(d1, ts[1..]));
    }
  }

  lemma RestoreHeader(repo: Repo, p: Placement, skipped: nat)
    requires p.id !in repo.orders
    ensures RestoreOrders(Restoring(repo, skipped), [OrderPlaced(p), OrderAccepted(p.id), OrderRouted(p.id, p.symbol)])
      == Restoring(repo.Add(NewOrder(p).(status := Routed)), skipped)
  {
    var r := Restoring(repo, skipped);
    assert [OrderPlaced(p), OrderAccepted(p.id), OrderRouted(p.id, p.symbol)]
        == [OrderPlaced(p)] + [OrderAccepted(p.id), OrderRouted(p.id, p.symbol)];
    RestoreAppend(r, [OrderPlaced(p)], [OrderAccepted(p.id), OrderRouted(p.id, p.symbol)]);
    RestoreOne(r, OrderPlaced(p));
    var r1 := RestoreOrder(r, OrderPlaced(p));
    RestoreTwo(r1, OrderAccepted(p.id), OrderRouted(p.id, p.symbol));
    assert RestoreOrder(RestoreOrder(r1, OrderAccepted(p.id)), OrderRouted(p.id, p.symbol)).repo.orders
        == repo.orders[p.id := NewOrder(p).(status := Routed)];
  }

  lemma DeskKnowsIds(s: State, p: Placement)
    requires Inv(s)
    ensures var d := DeskFor(s, p);
      && d.repo == s.repo.Add(NewOrder(p).(status := Routed))
      && forall id :: id in d.repo.orders ==> d.repo.orders[id].id == id
    ensures var sub := SubmitOrder(s.books, s.seen, p.symbol, p.side, Entry(NewOrder(p)));
      forall e :: e in sub.remain ==> AboutNoOrder(e)
  {
    hide LockFunds;
    assert forall id :: id in s.repo.orders ==> OrderOk(id, s.repo.orders[id]);
  }

  lemma RestoreAccepted(s: State, p: Placement, skipped: nat)
    requires Inv(s) && p.id !in s.repo.orders && p.qty > 0.0 && SaneShape(p.side, p.otype, p.price) && Accepts(s, p)
    ensures Step(s, Place(p)).Done?
    ensures RestoreOrders(Restoring(s.repo, skipped), NewEvents(s, Place(p)))
      == Restoring(Step(s, Place(p)).value.repo, skipped)
  {
    AcceptedSettles(s, p);
    DeskKnowsIds(s, p);
    AcceptedEvents(s, p);
    hide *;
    var d := DeskFor(s, p);
    var sub := SubmitOrder(s.books, s.seen, p.symbol, p.side, Entry(NewOrder(p)));
    RestoreHeader(s.repo, p, skipped);
    var ts := TradesOf(s, p);
    TradesAboutNoOrder(d.repo, ts);
    var quiet := TradeEvents(d.repo, ts) + sub.remain;
    RestoreNothing(Restoring(d.repo, skipped), quiet);
    RestoreFills(d, ts, skipped);
    RestoreAppend(Restoring(d.repo, skipped), quiet, FillEvents(d, ts));
    RestoreAppend(Restoring(s.repo, skipped), [OrderPlaced(p), OrderAccepted(p.id), OrderRouted(p.id, p.symbol)],
                  quiet + FillEvents(d, ts));
  }

  lemma {:induction false} StepRestore(s: State, c: Command, skipped: nat)
    requires Inv(s) && Positive(c) && Sane(c) && (c.Place? ==> c.placement.id !in s.repo.ids)
    ensures Step(s, c).Done?
    ensures RestoreOrders(Restoring(s.repo, skipped), NewEvents(s, c)) == Restoring(Step(s, c).value.repo, skipped)
  {
    match c
    case Place(p) =>
      if Accepts(s, p) { RestoreAccepted(s, p, skipped); } else { RestoreRejected(s, p, skipped); }
    case Cancel(id) => RestoreCancel(s, id, skipped);
    case _ =>
      FundsStep(s, c);
      RestoreNothing(Restoring(s.repo, skipped), NewEvents(s, c));
  }

  lemma RestoreRejected(s: State, p: Placement, skipped: nat)
    requires p.id !in s.repo.orders && !Accepts(s, p)
    ensures Step(s, Place(p)).Done?
    ensures RestoreOrders(Restoring(s.repo, skipped), NewEvents(s, Place(p)))
      == Restoring(Step(s, Place(p)).value.repo, skipped)
  {
    var e := NewEvents(s, Place(p))[1];
    RestoreTwo(Restoring(s.repo, skipped), OrderPlaced(p), e);
    assert NewEvents(s, Place(p)) == [OrderPlaced(p), e];
    var o := NewOrder(p);
    assert s.repo.Add(o).Set(o.(status := Rejected)) == s.repo.Add(o.(status := Rejected));
  }

  lemma RestoreCancel(s: State, id: OrderId, skipped: nat)
    requires Inv(s)
    ensures Step(s, Cancel(id)).Done?
    ensures RestoreOrders(Restoring(s.repo, skipped), NewEvents(s, Cancel(id)))
      == Restoring(Step(s, Cancel(id)).value.repo, skipped)
  {
    hide *;
    var r := Restoring(s.repo, skipped);
    CancelCases(s, id);
    IdsMatch(s);
    if id in s.repo.orders && s.repo.orders[id].IsCancelable() {
      RestoreOne(r, OrderCanceled(id));
      RestoreMarked(r, id);
    } else if id in s.repo.orders {
      RestoreOne(r, CancelRejected(id));
      RestoreMarked(r, id);
    } else {
      RestoreNothing(r, []);
    }
  }

  lemma RestoreMarked(r: Restoring, id: OrderId)
    requires id in r.repo.orders && r.repo.orders[id].id == id
    ensures RestoreOrder(r, OrderCanceled(id))
      == r.(repo := Repo(r.repo.ids, r.repo.orders[id := r.repo.orders[id].(status := Canceled)]))
    ensures RestoreOrder(r, CancelRejected(id)) == r
  {
  }

  /**
   * Order repository rebuild: going through the log of any sane run gives back every order, rejected ones
   * included, with its live status and filled quantity, in order of arrival, and skips no event.
   */
  lemma {:induction false} RestoredOrdersAreLive(cmds: seq<Command>)
    requires WellFormed(cmds) && SaneRun(cmds)
    ensures Exec(cmds).Done?
    ensures RestoreOrders(Restoring(Repo([], map[]), 0), Exec(cmds).value.log) == Restoring(Exec(cmds).value.repo, 0)
  {
    RunsAgree(cmds);
    if cmds != [] {
      var init, c := cmds[..|cmds| - 1], cmds[|cmds| - 1];
      assert cmds == init + [c];
      NextCommand(init, c);
      RunsAgree(init);
      RestoredOrdersAreLive(init);
      var s := Exec(init).value;
      StepRestore(s, c, 0);
      StepLog(s, c);
      RestoreAppend(Restoring(Repo([], map[]), 0), s.log, NewEvents(s, c));
    }
  }
}
