/** After a cold start from a snapshot the exchange goes on as if it had never stopped. */
module SnapshotRuns {
  import opened Domain
  import opened Matching
  import opened Ledger
  import opened Orders
  import opened Exchange
  import opened Agreement
  import opened Runs
  import opened LogShape
  import opened Projection
  import opened ReplayRuns
  import opened ExactLocks
  import opened Snapshots
  import opened BookRebuild
  import opened Restarts
  import opened SnapshotRestarts

  /** Exchange t is s without what was over at the snapshot b: its locks, its orders and its part of the log. */
  ghost predicate AlikeSince(b: State, s: State, t: State) {
    && |b.repo.ids| <= |s.repo.ids| && |b.log| <= |s.log|
    && Twins(t.accounts, s.accounts, b.repo.orders.Keys)
    && t.repo == Since(b.repo, s.repo) && t.log == s.log[|b.log|..]
    && SameBooks(t.books, s.books)
  }

  // ---------- trades ----------

  ghost predicate DesksSince(b: State, d: Desk, e: Desk) {
    && |b.repo.ids| <= |d.repo.ids| && |b.log| <= |d.log|
    && Twins(e.accounts, d.accounts, b.repo.orders.Keys)
    && e.repo == Since(b.repo, d.repo) && e.log == d.log[|b.log|..] && e.fills == d.fills
  }

  /** Filling a new order and leaving out the old ones may be done in either order. */
  lemma FillSince(b: Repo, r: Repo, id: OrderId, qty: real)
    requires |b.ids| <= |r.ids| && id !in b.orders && OnFill(r, id, qty).Done?
    ensures |b.ids| <= |OnFill(r, id, qty).value.ids|
    ensures OnFill(Since(b, r), id, qty) == Done(Since(b, OnFill(r, id, qty).value))
  {
    var o := FillOrder(r.orders[id], qty).value;
    assert r.orders[id := o] - b.orders.Keys == (r.orders - b.orders.Keys)[id := o];
  }

  lemma TradeUnfoldsTo(d: Desk, t: Trade)
    requires ApplyTrade(d, t).Done?
    ensures OnFill(d.repo, t.buyId, t.qty).Done?
    ensures OnFill(OnFill(d.repo, t.buyId, t.qty).value, t.sellId, t.qty) == Done(ApplyTrade(d, t).value.repo)
  {
    hide TrySettle, OnFill;
  }

  lemma {:induction false} TradeSince(b: State, d: Desk, e: Desk, t: Trade)
    requires DesksSince(b, d, e) && ApplyTrade(d, t).Done? && t.buyId !in b.repo.orders && t.sellId !in b.repo.orders
    ensures ApplyTrade(e, t).Done? && DesksSince(b, ApplyTrade(d, t).value, ApplyTrade(e, t).value)
  {
    hide Twins, TrySettle, OnFill;
    TradeLog(d, t);
    TradeSettles(d, t);
    TradeUnfoldsTo(d, t);
    var r1 := OnFill(d.repo, t.buyId, t.qty).value;
    FillSince(b.repo, d.repo, t.buyId, t.qty);
    FillSince(b.repo, r1, t.sellId, t.qty);
    FillKeepsKeys(d.repo, t.buyId, t.qty);
    FillKeepsKeys(r1, t.sellId, t.qty);
    var x, y := d.repo.orders[t.buyId].account, d.repo.orders[t.sellId].account;
    TwinsTrySettle(e.accounts, d.accounts, b.repo.orders.Keys, x, y, t.buyId, t.sellId, t.symbol, t.price, t.qty);
  }

  lemma {:induction false} TradesSince(b: State, d: Desk, e: Desk, ts: seq<Trade>)
    requires DesksSince(b, d, e) && ApplyTrades(d, ts).Done?
    requires forall t :: t in ts ==> t.buyId !in b.repo.orders && t.sellId !in b.repo.orders
    ensures ApplyTrades(e, ts).Done? && DesksSince(b, ApplyTrades(d, ts).value, ApplyTrades(e, ts).value)
    decreases |ts|
  {
    if ts != [] {
      hide DesksSince, ApplyTrade;
      assert ts[0] in ts && forall t :: t in ts[1..] ==> t in ts;
      TradeSince(b, d, e, ts[0]);
      TradesSince(b, ApplyTrade(d, ts[0]).value, ApplyTrade(e, ts[0]).value, ts[1..]);
    }
  }

  // ---------- commands ----------

  /** What holds besides: everything that was there at the snapshot is over, and only known ids were seen. */
  ghost predicate Apart(b: State, s: State, t: State) {
    Inv(s) && Dead(s.repo, b.repo.orders.Keys) && t.seen <= s.repo.orders.Keys
  }

  lemma SinceAdd(b: Repo, r: Repo, o: Order)
    requires |b.ids| <= |r.ids| && o.id !in r.orders && o.id !in b.orders
    ensures |b.ids| <= |r.Add(o).ids| && Since(b, r.Add(o)) == Since(b, r).Add(o)
  {
  }

  lemma Cut<T>(xs: seq<T>, k: nat, ys: seq<T>)
    requires k <= |xs|
    ensures (xs + ys)[k..] == xs[k..] + ys
  {
  }

  lemma {:induction false} RejectedSince(b: State, s: State, t: State, p: Placement)
    requires AlikeSince(b, s, t) && p.id !in s.repo.orders && p.id !in b.repo.orders && !Accepts(s, p)
    ensures Step(s, Place(p)).Done? && Step(t, Place(p)).Done?
    ensures AlikeSince(b, Step(s, Place(p)).value, Step(t, Place(p)).value)
  {
    LocksAlike(s.accounts, t.accounts, p, b.repo.orders.Keys);
    hide Twins, SameBooks, LockFunds, Since;
    var o := NewOrder(p).(status := Rejected);
    SinceAdd(b.repo, s.repo, o);
    var reason := LockFunds(s.accounts, p.account, p.id, p.symbol, p.side, p.qty, p.price).rejected.value;
    Cut(s.log, |b.log|, [OrderPlaced(p)]);
    Cut(s.log + [OrderPlaced(p)], |b.log|, [OrderRejected(p.id, reason)]);
  }

  lemma {:induction false} AcceptedSince(b: State, s: State, t: State, p: Placement)
    requires AlikeSince(b, s, t) && Apart(b, s, t) && Accepts(s, p)
    requires p.id !in s.repo.orders && p.qty > 0.0 && SaneShape(p.side, p.otype, p.price) && p.id !in b.repo.orders
    ensures Step(s, Place(p)).Done? && Step(t, Place(p)).Done?
    ensures AlikeSince(b, Step(s, Place(p)).value, Step(t, Place(p)).value)
  {
    hide LockFunds, Twins, SameBooks, PlaceOrder, SubmitOrder, ApplyTrades, Since, Dead;
    LocksAlike(s.accounts, t.accounts, p, b.repo.orders.Keys);
    AcceptedSettles(s, p);
    PlaceUnfolds(s, p);
    PlaceUnfolds(t, p);
    SubmittedAlike(s, t, p);
    TradersAlive(s, p, b.repo.orders.Keys);
    hide Inv;
    SinceAdd(b.repo, s.repo, NewOrder(p).(status := Routed));
    Cut(s.log, |b.log|, [OrderPlaced(p), OrderAccepted(p.id), OrderRouted(p.id, p.symbol)]);
    TradesSince(b, DeskFor(s, p), DeskFor(t, p), TradesOf(s, p));
    var x := ApplyTrades(DeskFor(s, p), TradesOf(s, p)).value;
    var sub := SubmitOrder(s.books, s.seen, p.symbol, p.side, Entry(NewOrder(p)));
    Cut(x.log, |b.log|, sub.remain);
    Cut(x.log + sub.remain, |b.log|, x.fills);
  }

  lemma {:induction false} CanceledSince(b: State, s: State, t: State, o: Order)
    requires AlikeSince(b, s, t) && o.id !in b.repo.orders && o.id in s.repo.orders && s.repo.orders[o.id] == o &&
      o.IsCancelable()
    requires Step(s, Cancel(o.id)).Done?
    ensures Step(t, Cancel(o.id)).Done? && AlikeSince(b, Step(s, Cancel(o.id)).value, Step(t, Cancel(o.id)).value)
  {
    UnlockAlike(s.accounts, t.accounts, o.account, o.id, b.repo.orders.Keys);
    assert SameBook(t.books, s.books, o.symbol);
    hide Twins, RemoveFromBook, Unlock;
    BooksAlike(s.books, t.books, o.symbol, RemoveFromBook(BookOf(s.books, o.symbol), o.id));
    Cut(s.log, |b.log|, [OrderCanceled(o.id)]);
    var o' := o.(status := Canceled);
    assert s.repo.orders[o.id := o'] - b.repo.orders.Keys == (s.repo.orders - b.repo.orders.Keys)[o.id := o'];
  }

  lemma {:induction false} CancelSince(b: State, s: State, t: State, id: OrderId)
    requires AlikeSince(b, s, t) && Inv(s) && id !in b.repo.orders
    ensures Step(s, Cancel(id)).Done? && Step(t, Cancel(id)).Done?
    ensures AlikeSince(b, Step(s, Cancel(id)).value, Step(t, Cancel(id)).value)
  {
    hide Twins, SameBooks;
    CancelCases(s, id);
    IdsMatch(s);
    hide Inv, Unlock, RemoveFromBook;
    if id in s.repo.orders && s.repo.orders[id].IsCancelable() {
      CanceledSince(b, s, t, s.repo.orders[id]);
    } else {
      Cut(s.log, |b.log|, [CancelRejected(id)]);
    }
  }

  lemma {:induction false} FundsSince(b: State, s: State, t: State, c: Command)
    requires AlikeSince(b, s, t) && !c.Place? && !c.Cancel?
    ensures Step(s, c).Done? && Step(t, c).Done? && AlikeSince(b, Step(s, c).value, Step(t, c).value)
  {
    hide Twins, SameBooks, Seed, Since;
    var dead := b.repo.orders.Keys;
    match c
    case CashIn(a, amount) =>
      CashAlike(s.accounts, t.accounts, a, amount, dead);
      Cut(s.log, |b.log|, [AccountUpdated(a, amount, "", 0.0)]);
    case CashOut(a, amount) =>
      CashAlike(s.accounts, t.accounts, a, -amount, dead);
      Cut(s.log, |b.log|, [AccountUpdated(a, -amount, "", 0.0)]);
    case SharesIn(a, sym, qty) =>
      SharesAlike(s.accounts, t.accounts, a, sym, qty, dead);
      Cut(s.log, |b.log|, [AccountUpdated(a, 0.0, sym, qty)]);
  }

  lemma {:induction false} StepSince(b: State, s: State, t: State, c: Command)
    requires AlikeSince(b, s, t) && Apart(b, s, t) && Positive(c) && Sane(c) &&
      (c.Place? ==> c.placement.id !in s.repo.ids)
    requires c.Cancel? ==> c.id !in b.repo.orders
    ensures Step(s, c).Done? && Step(t, c).Done? && AlikeSince(b, Step(s, c).value, Step(t, c).value)
  {
    hide AlikeSince, Step, Accepts;
    IdsMatch(s);
    match c
    case Place(p) => if Accepts(s, p) { AcceptedSince(b, s, t, p); } else { RejectedSince(b, s, t, p); }
    case Cancel(id) => CancelSince(b, s, t, id);
    case _ => FundsSince(b, s, t, c);
  }

  // ---------- whole runs ----------

  lemma StepSees(t: State, c: Command)
    requires Step(t, c).Done?
    ensures Step(t, c).value.seen <= if c.Place? then t.seen + {c.placement.id} else t.seen
  {
    if c.Place? && Accepts(t, c.placement) { PlaceUnfolds(t, c.placement); }
  }

  /** Everything placed before the snapshot is over, and the run may go on. */
  lemma {:induction false} StepKeepsApart(b: State, s: State, t: State, c: Command)
    requires Apart(b, s, t) && Positive(c) && Sane(c) && (c.Place? ==> c.placement.id !in s.repo.ids)
    requires Step(s, c).Done? && Step(t, c).Done?
    ensures Apart(b, Step(s, c).value, Step(t, c).value)
  {
    hide Step, Inv, Dead, KeepsOver, Positive, Sane;
    StepKeepsInv(s, c);
    IdsMatch(s);
    StepSees(t, c);
    StepKeepsOver(s, c);
    StepKeepsTerms(s, c);
    IdsMatch(Step(s, c).value);
    StillDead(s, Step(s, c).value.repo, b.repo.orders.Keys);
  }

  lemma StillDead(s: State, r: Repo, dead: set<OrderId>)
    requires Inv(s) && Dead(s.repo, dead) && KeepsOver(s.repo, r)
    ensures Dead(r, dead)
  {
    forall id | id in dead ensures id in r.orders && !Live(r.orders[id]) {
      assert OrderOk(id, s.repo.orders[id]) && Over(s.repo.orders[id]);
    }
  }

  lemma {:induction false} OneMoreSince(b: State, s: State, t: State, c: Command)
    requires AlikeSince(b, s, t) && Apart(b, s, t) && Positive(c) && Sane(c) &&
      (c.Place? ==> c.placement.id !in s.repo.ids)
    requires c.Cancel? ==> c.id !in b.repo.orders
    ensures Step(s, c).Done? && Step(t, c).Done?
    ensures AlikeSince(b, Step(s, c).value, Step(t, c).value) && Apart(b, Step(s, c).value, Step(t, c).value)
  {
    hide *;
    StepSince(b, s, t, c);
    StepKeepsApart(b, s, t, c);
  }

  lemma {:induction false} RestartedSince(before: seq<Command>, middle: seq<Command>)
    requires WellFormed(before + middle) && SaneRun(before + middle)
    requires Exec(before).Done? && Exec(before + middle).Done? && NothingOpen(Exec(before).value)
    requires RecoverableSince(Exec(before).value, Exec(before + middle).value)
    ensures var b, s := Exec(before).value, Exec(before + middle).value;
      && b.log <= s.log && Replay(Restored(b.accounts), s.log[|b.log|..]).Done?
      && var t := RestartedOn(Restored(b.accounts), s.log[|b.log|..]);
      && AlikeSince(b, s, t) && Apart(b, s, t)
  {
    SnapshotRestart(before, middle);
    FindingsBack(before, middle);
    PrefixInv(before, middle);
    RunsAgree(before + middle);
    hide *;
    var b, s := Exec(before).value, Exec(before + middle).value;
    BackIsAlike(b, s);
  }

  lemma {:induction false} BackIsAlike(b: State, s: State)
    requires Inv(b) && Inv(s) && LaterThan(b, s) && NothingOpen(b) && RecoverableSince(b, s)
    requires Replay(Restored(b.accounts), s.log[|b.log|..]).Done?
    requires FindingsMatch(Trimmed(Scan(NO_FINDINGS, s.log[|b.log|..])), Since(b.repo, s.repo))
    requires var t := RestartedOn(Restored(b.accounts), s.log[|b.log|..]);
      && Twins(t.accounts, s.accounts, b.repo.orders.Keys) && t.repo == Since(b.repo, s.repo)
      && (SameBooks(t.books, s.books) <==> RecoverableSince(b, s))
    ensures var t := RestartedOn(Restored(b.accounts), s.log[|b.log|..]); AlikeSince(b, s, t) && Apart(b, s, t)
  {
    hide Replay;
    StillOver(b, s);
    IdsMatch(s);
    hide Inv, RebuildBooks, Scan, Replay, Restored, Twins, SameBooks, RecoverableSince, NothingOpen;
  }

  // ---------- commands do not read the log ----------

  lemma {:induction false} TradeBlind(d: Desk, e: Desk, t: Trade)
    requires e == d.(log := e.log) && ApplyTrade(d, t).Done?
    ensures ApplyTrade(e, t).Done?
    ensures var d1, e1 := ApplyTrade(d, t).value, ApplyTrade(e, t).value; e1 == d1.(log := e1.log)
  {
    hide TrySettle, OnFill;
  }

  lemma {:induction false} TradesBlind(d: Desk, e: Desk, ts: seq<Trade>)
    requires e == d.(log := e.log) && ApplyTrades(d, ts).Done?
    ensures ApplyTrades(e, ts).Done?
    ensures var d1, e1 := ApplyTrades(d, ts).value, ApplyTrades(e, ts).value; e1 == d1.(log := e1.log)
    decreases |ts|
  {
    if ts != [] {
      TradeBlind(d, e, ts[0]);
      hide ApplyTrade;
      TradesBlind(ApplyTrade(d, ts[0]).value, ApplyTrade(e, ts[0]).value, ts[1..]);
    }
  }

  lemma {:induction false} FillsBlind(d: Desk, e: Desk, ts: seq<Trade>)
    requires e == d.(log := e.log) && ApplyTrades(d, ts).Done?
    ensures FillEvents(d, ts) == FillEvents(e, ts)
  {
    TradesBlind(d, e, ts);
    DeskFills(d, ts);
    DeskFills(e, ts);
    hide ApplyTrades, FillEvents;
    SameTail(d.fills, FillEvents(d, ts), FillEvents(e, ts));
  }

  /** Exchanges that differ in their log only do the same and write the same events. */
  lemma {:induction false} StepBlind(s: State, t: State, c: Command)
    requires t == s.(log := t.log) && Step(s, c).Done?
    ensures Step(t, c).Done? && NewEvents(s, c) == NewEvents(t, c)
    ensures Step(t, c).value == Step(s, c).value.(log := Step(t, c).value.log)
  {
    if c.Place? && Accepts(s, c.placement) {
      hide Step, NewEvents;
      AcceptedBlind(s, t, c.placement);
    }
  }

  lemma {:induction false} AcceptedBlind(s: State, t: State, p: Placement)
    requires t == s.(log := t.log) && Accepts(s, p) && Step(s, Place(p)).Done?
    ensures Step(t, Place(p)).Done? && NewEvents(s, Place(p)) == NewEvents(t, Place(p))
    ensures Step(t, Place(p)).value == Step(s, Place(p)).value.(log := Step(t, Place(p)).value.log)
  {
    StepOfPlace(s, p);
    StepOfPlace(t, p);
    PlaceUnfolds(s, p);
    PlaceUnfolds(t, p);
    AcceptedEvents(s, p);
    AcceptedEvents(t, p);
    var d, e := DeskFor(s, p), DeskFor(t, p);
    assert e == d.(log := e.log);
    hide Step, PlaceOrder, NewEvents, SubmitOrder, ApplyTrades, DeskFor, Accepts, TradeEvents, FillEvents;
    var ts := SubmitOrder(s.books, s.seen, p.symbol, p.side, Entry(NewOrder(p))).trades;
    TradesBlind(d, e, ts);
    FillsBlind(d, e, ts);
  }

  // ---------- what the restarted exchange has no words for ----------

  /** The events without the refusals to cancel one of these orders. */
  function Heard(es: seq<Event>, gone: set<OrderId>): seq<Event> {
    if es == [] then []
    else (if es[0].CancelRejected? && es[0].id in gone then [] else [es[0]]) + Heard(es[1..], gone)
  }

  lemma {:induction false} HeardAppend(xs: seq<Event>, ys: seq<Event>, gone: set<OrderId>)
    ensures Heard(xs + ys, gone) == Heard(xs, gone) + Heard(ys, gone)
    decreases |xs|
  {
    if xs == [] { assert xs + ys == ys; }
    else {
      var first := if xs[0].CancelRejected? && xs[0].id in gone then [] else [xs[0]];
      assert Heard(xs, gone) == first + Heard(xs[1..], gone);
      assert (xs + ys)[0] == xs[0] && (xs + ys)[1..] == xs[1..] + ys;
      assert Heard(xs + ys, gone) == first + Heard(xs[1..] + ys, gone);
      HeardAppend(xs[1..], ys, gone);
      hide Heard;
      Assoc(first, Heard(xs[1..], gone), Heard(ys, gone));
    }
  }

  lemma {:induction false} AllHeard(es: seq<Event>, gone: set<OrderId>)
    requires forall e :: e in es && e.CancelRejected? ==> e.id !in gone
    ensures Heard(es, gone) == es
    decreases |es|
  {
    if es != [] {
      assert es[0] in es;
      AllHeard(es[1..], gone);
    }
  }

  /** Only a cancellation is answered by a refusal to cancel. */
  lemma {:induction false} StepRefuses(s: State, c: Command)
    ensures forall e :: e in NewEvents(s, c) && e.CancelRejected? ==> c == Cancel(e.id)
  {
    hide Step, RoutingEvents;
    if c.Place? && Accepts(s, c.placement) {
      hide NewEvents;
      AcceptedRefusesNothing(s, c.placement);
    }
  }

  lemma {:induction false} AcceptedRefusesNothing(s: State, p: Placement)
    requires Accepts(s, p)
    ensures forall e :: e in NewEvents(s, Place(p)) ==> !e.CancelRejected?
  {
    hide *;
    var d := DeskFor(s, p);
    var sub := SubmitOrder(s.books, s.seen, p.symbol, p.side, Entry(NewOrder(p)));
    OnlyRemainders(s, p);
    AcceptedEvents(s, p);
    TradesRefuseNothing(d.repo, sub.trades);
    FillsAreInformational(d, sub.trades);
  }

  lemma {:induction false} TradesRefuseNothing(repo: Repo, ts: seq<Trade>)
    ensures forall e :: e in TradeEvents(repo, ts) ==> !e.CancelRejected?
    decreases |ts|
  {
    if ts != [] { TradesRefuseNothing(repo, ts[1..]); }
  }

  // ---------- whole runs ----------

  /** The log tl goes on from that of the restart with what it has words for of the log sl. */
  predicate LogsFollow(bl: seq<Event>, ml: seq<Event>, sl: seq<Event>, tl: seq<Event>, gone: set<OrderId>) {
    |bl| <= |ml| <= |sl| && tl == ml[|bl|..] + Heard(sl[|ml|..], gone)
  }

  lemma LogsGoOn(bl: seq<Event>, ml: seq<Event>, sl: seq<Event>, tl: seq<Event>, es: seq<Event>, fs: seq<Event>,
                 gone: set<OrderId>)
    requires LogsFollow(bl, ml, sl, tl, gone) && fs == Heard(es, gone)
    ensures LogsFollow(bl, ml, sl + es, tl + fs, gone)
  {
    hide Heard;
    Cut(sl, |ml|, es);
    HeardAppend(sl[|ml|..], es, gone);
  }

  lemma LogsStart(bl: seq<Event>, ml: seq<Event>, gone: set<OrderId>)
    requires |bl| <= |ml|
    ensures LogsFollow(bl, ml, ml, ml[|bl|..], gone)
  {
    assert ml[|ml|..] == [];
  }

  /** The exchange t, had it logged all that s has since the snapshot b. */
  function Logging(b: State, s: State, t: State): State
    requires |b.log| <= |s.log|
  {
    t.(log := s.log[|b.log|..])
  }

  /**
   * The exchange t was restarted at m from the snapshot b and the events since, and s is where the uninterrupted one
   * is: t is s without what was over at the snapshot, and has written what s has, but no refusal to cancel an order
   * from before the snapshot, which it does not know.
   */
  ghost predicate Follows(b: State, m: State, s: State, t: State) {
    && Apart(b, s, t) && LogsFollow(b.log, m.log, s.log, t.log, b.repo.orders.Keys)
    && AlikeSince(b, s, Logging(b, s, t))
  }

  lemma Unheard(e: Event, gone: set<OrderId>)
    requires e.CancelRejected? && e.id in gone
    ensures Heard([e], gone) == []
  {
    assert [e][1..] == [];
  }

  lemma MoreLogged(b: State, s: State, t: State, s': State, es: seq<Event>)
    requires AlikeSince(b, s, t) && s' == s.(log := s.log + es)
    ensures |b.log| <= |s'.log| && AlikeSince(b, s', Logging(b, s', t))
  {
    hide Twins, SameBooks, Since;
    Cut(s.log, |b.log|, es);
  }

  /** Canceling an order from before the snapshot: refused by the one, unknown to the other. */
  lemma {:induction false} OldCancel(b: State, s: State, t: State, id: OrderId)
    requires Apart(b, s, t) && |b.repo.ids| <= |s.repo.ids| && t.repo == Since(b.repo, s.repo) && id in b.repo.orders
    ensures Step(s, Cancel(id)) == Done(s.(log := s.log + [CancelRejected(id)])) && Step(t, Cancel(id)) == Done(t)
    ensures Apart(b, Step(s, Cancel(id)).value, t)
  {
    hide LedgerAgrees;
    assert OrderOk(id, s.repo.orders[id]);
    hide LedgerAgrees, BooksAgree, RepoOk, Uncrossed, Unlock, RemoveFromBook;
  }

  lemma {:induction false} OldCancelFollows(b: State, m: State, s: State, t: State, id: OrderId)
    requires Follows(b, m, s, t) && id in b.repo.orders
    ensures Step(s, Cancel(id)).Done? && Step(t, Cancel(id)).Done?
    ensures Follows(b, m, Step(s, Cancel(id)).value, Step(t, Cancel(id)).value)
  {
    var u := Logging(b, s, t);
    SinceOf(b, s, u);
    hide Apart, AlikeSince, LogsFollow, Since;
    OldCancel(b, s, t, id);
    hide Step;
    var s' := Step(s, Cancel(id)).value;
    Unheard(CancelRejected(id), b.repo.orders.Keys);
    LogsGoOn(b.log, m.log, s.log, t.log, [CancelRejected(id)], [], b.repo.orders.Keys);
    assert t.log + [] == t.log;
    MoreLogged(b, s, u, s', [CancelRejected(id)]);
    assert Logging(b, s', u) == Logging(b, s', t);
  }

  lemma SinceOf(b: State, s: State, t: State)
    requires AlikeSince(b, s, t)
    ensures |b.repo.ids| <= |s.repo.ids| && t.repo == Since(b.repo, s.repo)
    ensures |b.log| <= |s.log| && t.log == s.log[|b.log|..]
  {
  }

  lemma {:induction false} StepFollows(b: State, m: State, s: State, t: State, c: Command)
    requires Follows(b, m, s, t) && Positive(c) && Sane(c) && (c.Place? ==> c.placement.id !in s.repo.ids)
    ensures Step(s, c).Done? && Step(t, c).Done? && Follows(b, m, Step(s, c).value, Step(t, c).value)
  {
    if c.Cancel? && c.id in b.repo.orders {
      OldCancelFollows(b, m, s, t, c.id);
    } else {
      hide AlikeSince, Apart, Step, LogsFollow;
      assert |b.log| <= |s.log|;
      var u := Logging(b, s, t);
      SameApart(b, s, t, u);
      OneMoreSince(b, s, u, c);
      StepBlind(u, t, c);
      NewsAlike(b, s, u, c);
      hide Logging;
      StepLog(s, c);
      StepLog(t, c);
      var s', t', u' := Step(s, c).value, Step(t, c).value, Step(u, c).value;
      LogsGoOn(b.log, m.log, s.log, t.log, NewEvents(s, c), NewEvents(t, c), b.repo.orders.Keys);
      SameApart(b, s', u', t');
      StillLogging(b, s', t', u');
    }
  }

  /** What a step adds to both logs is the same, and all of it is heard. */
  lemma {:induction false} NewsAlike(b: State, s: State, u: State, c: Command)
    requires |b.log| <= |s.log| && u.log == s.log[|b.log|..] && !(c.Cancel? && c.id in b.repo.orders)
    requires Step(s, c).Done? && Step(u, c).Done? && AlikeSince(b, Step(s, c).value, Step(u, c).value)
    ensures NewEvents(u, c) == NewEvents(s, c) == Heard(NewEvents(s, c), b.repo.orders.Keys)
  {
    hide AlikeSince, Step, NewEvents, Heard;
    StepLog(s, c);
    StepLog(u, c);
    StepRefuses(s, c);
    AllHeard(NewEvents(s, c), b.repo.orders.Keys);
    SinceOf(b, Step(s, c).value, Step(u, c).value);
    Cut(s.log, |b.log|, NewEvents(s, c));
    SameTail(u.log, NewEvents(u, c), NewEvents(s, c));
  }

  lemma StillLogging(b: State, s: State, t: State, u: State)
    requires AlikeSince(b, s, u) && u == t.(log := u.log)
    ensures |b.log| <= |s.log| && Logging(b, s, t) == u
  {
    SinceOf(b, s, u);
  }

  lemma SameApart(b: State, s: State, t: State, u: State)
    requires Apart(b, s, t) && u.seen == t.seen
    ensures Apart(b, s, u)
  {
  }

  lemma {:induction false} RestartFollows(before: seq<Command>, middle: seq<Command>)
    requires WellFormed(before + middle) && SaneRun(before + middle)
    requires Exec(before).Done? && Exec(before + middle).Done? && NothingOpen(Exec(before).value)
    requires RecoverableSince(Exec(before).value, Exec(before + middle).value)
    ensures var b, m := Exec(before).value, Exec(before + middle).value;
      && b.log <= m.log && Replay(Restored(b.accounts), m.log[|b.log|..]).Done?
      && Follows(b, m, m, RestartedOn(Restored(b.accounts), m.log[|b.log|..]))
  {
    RestartedSince(before, middle);
    var b, m := Exec(before).value, Exec(before + middle).value;
    var t := RestartedOn(Restored(b.accounts), m.log[|b.log|..]);
    hide *;
    FollowsAtOnce(b, m, t);
  }

  lemma FollowsAtOnce(b: State, m: State, t: State)
    requires b.log <= m.log && AlikeSince(b, m, t) && Apart(b, m, t)
    ensures Follows(b, m, m, t)
  {
    SinceOf(b, m, t);
    LogsStart(b.log, m.log, b.repo.orders.Keys);
    hide AlikeSince, Apart, LogsFollow;
  }

  /**
   * After a cold start from a snapshot that was taken with nothing open, and the events since: whatever is commanded,
   * the restarted exchange does not raise and writes the same events as the uninterrupted one, except that it does
   * not answer a cancellation of an order from before the snapshot; provided that no order placed since was rejected
   * with a price or rests without one.
   */
  lemma {:induction false} SnapshotRunsOn(before: seq<Command>, middle: seq<Command>, after: seq<Command>)
    requires WellFormed(before + middle + after) && SaneRun(before + middle + after)
    requires Exec(before).Done? && Exec(before + middle).Done? && NothingOpen(Exec(before).value)
    requires RecoverableSince(Exec(before).value, Exec(before + middle).value)
    ensures Exec(before + middle + after).Done?
    ensures var b, m := Exec(before).value, Exec(before + middle).value;
      && b.log <= m.log && Replay(Restored(b.accounts), m.log[|b.log|..]).Done?
      && var r := ExecFrom(RestartedOn(Restored(b.accounts), m.log[|b.log|..]), after);
      && r.Done? && Follows(b, m, Exec(before + middle + after).value, r.value)
    decreases |after|
  {
    hide Follows, RestartedOn, Restored, Replay, Inv, Step, NothingOpen, RecoverableSince, WellFormed, SaneRun, Exec;
    PrefixAdmissible(before + middle, after);
    RestartFollows(before, middle);
    var b, m := Exec(before).value, Exec(before + middle).value;
    var t := RestartedOn(Restored(b.accounts), m.log[|b.log|..]);
    if after == [] {
      assert before + middle + after == before + middle;
    } else {
      var c, after0 := after[|after| - 1], after[..|after| - 1];
      var all0 := before + middle + after0;
      assert before + middle + after == all0 + [c];
      NextCommand(all0, c);
      hide ExecFrom;
      SnapshotRunsOn(before, middle, after0);
      RunsAgree(all0);
      StepFollows(b, m, Exec(all0).value, ExecFrom(t, after0).value, c);
      LastCommand(all0, c);
      LastCommandFrom(t, after);
    }
  }
}
