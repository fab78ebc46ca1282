/** A cold start from a snapshot: the orders and books that the events since the snapshot rebuild. */
module SnapshotRestarts {
  import opened Domain
  import opened PriceTime
  import opened Matching
  import opened Orders
  import opened Exchange
  import opened Agreement
  import opened Runs
  import opened LogShape
  import opened Projection
  import opened ReplayRuns
  import opened Snapshots
  import opened Rebuild
  import opened BookRebuild
  import opened Restarts
  import opened ExactLocks

  /** The orders that were not there before. */
  function Since(before: Repo, now: Repo): Repo
    requires |before.ids| <= |now.ids|
  {
    Repo(now.ids[|before.ids|..], now.orders - before.orders.Keys)
  }

  // ---------- only new orders are placed ----------

  predicate PlacesOnlyNew(es: seq<Event>, gone: set<OrderId>) {
    forall e :: e in es && e.OrderPlaced? ==> e.placement.id !in gone
  }

  predicate PlacesOnly(es: seq<Event>, c: Command) {
    forall e :: e in es && e.OrderPlaced? ==> c.Place? && e.placement == c.placement
  }

  lemma {:induction false} NothingPlaced(repo: Repo, ts: seq<Trade>)
    ensures forall e :: e in TradeEvents(repo, ts) ==> !e.OrderPlaced?
    decreases |ts|
  {
    if ts != [] { NothingPlaced(repo, ts[1..]); }
  }

  lemma {:induction false} StepPlaces(s: State, c: Command)
    ensures PlacesOnly(NewEvents(s, c), c)
  {
    if c.Place? && Accepts(s, c.placement) {
      AcceptedPlaces(s, c.placement);
    }
  }

  lemma {:induction false} AcceptedPlaces(s: State, p: Placement)
    requires Accepts(s, p)
    ensures PlacesOnly(NewEvents(s, Place(p)), Place(p))
  {
    AcceptedEvents(s, p);
    OnlyRemainders(s, p);
    hide NewEvents, SubmitOrder, DeskFor, TradesOf, TradeEvents, FillEvents, Accepts;
    var d := DeskFor(s, p);
    var sub := SubmitOrder(s.books, s.seen, p.symbol, p.side, Entry(NewOrder(p)));
    NothingPlaced(d.repo, sub.trades);
    FillsAreInformational(d, sub.trades);
  }

  /** What holds between the state at the snapshot and the state now. */
  ghost predicate LaterThan(s: State, t: State) {
    && s.log <= t.log && PlacesOnlyNew(t.log[|s.log|..], s.repo.orders.Keys)
    && s.repo.ids <= t.repo.ids && s.repo.orders.Keys <= t.repo.orders.Keys && KeepsOver(s.repo, t.repo)
  }

  lemma {:induction false} StepIsLater(s: State, t: State, c: Command)
    requires LaterThan(s, t) && Inv(t) && Positive(c) && Sane(c) && (c.Place? ==> c.placement.id !in t.repo.ids)
    ensures Step(t, c).Done? && LaterThan(s, Step(t, c).value)
  {
    hide Step;
    IdsMatch(t);
    StepKeepsInv(t, c);
    hide Inv, NewEvents, Step, KeepsOver;
    StepLog(t, c);
    StepPlaces(t, c);
    StepKeepsOver(t, c);
    StepKeepsTerms(t, c);
    OverTransitive(s.repo, t.repo, Step(t, c).value.repo);
    SuffixGrows(s.log, t.log, NewEvents(t, c));
  }

  lemma NotLater(s: State)
    ensures LaterThan(s, s)
  {
  }

  lemma {:induction false} RunIsLater(before: seq<Command>, after: seq<Command>)
    requires WellFormed(before + after) && SaneRun(before + after)
    ensures Exec(before).Done? && Exec(before + after).Done? &&
      LaterThan(Exec(before).value, Exec(before + after).value)
    decreases |after|
  {
    hide Inv, LaterThan;
    PrefixInv(before, after);
    if after == [] {
      assert before + after == before;
      NotLater(Exec(before).value);
    } else {
      var c := after[|after| - 1];
      var after0 := after[..|after| - 1];
      var all0 := before + after0;
      assert before + after == all0 + [c];
      NextCommand(all0, c);
      RunIsLater(before, after0);
      RunsAgree(all0);
      StepIsLater(Exec(before).value, Exec(all0).value, c);
      assert (all0 + [c])[..|all0|] == all0;
    }
  }

  // ---------- the order repository ----------

  /** The second is the first without the orders that were there before. */
  predicate OrdersSince(r: Repo, r': Repo, n: nat, gone: set<OrderId>) {
    n <= |r.ids| && r'.ids == r.ids[n..] && r'.orders == r.orders - gone
  }

  lemma RestoreOneSince(r: Restoring, r': Restoring, e: Event, n: nat, gone: set<OrderId>)
    requires OrdersSince(r.repo, r'.repo, n, gone) && PlacesOnlyNew([e], gone)
    requires forall id :: id in r.repo.orders ==> r.repo.orders[id].id == id
    ensures OrdersSince(RestoreOrder(r, e).repo, RestoreOrder(r', e).repo, n, gone)
    ensures forall id :: id in RestoreOrder(r, e).repo.orders ==> RestoreOrder(r, e).repo.orders[id].id == id
  {
    assert e in [e];
  }

  lemma {:induction false} RestoreSince(r: Restoring, r': Restoring, es: seq<Event>, n: nat, gone: set<OrderId>)
    requires OrdersSince(r.repo, r'.repo, n, gone) && PlacesOnlyNew(es, gone)
    requires forall id :: id in r.repo.orders ==> r.repo.orders[id].id == id
    ensures OrdersSince(RestoreOrders(r, es).repo, RestoreOrders(r', es).repo, n, gone)
    decreases |es|
  {
    if es != [] {
      assert es[0] in es;
      RestoreOneSince(r, r', es[0], n, gone);
      hide RestoreOrder, OrdersSince;
      RestoreSince(RestoreOrder(r, es[0]), RestoreOrder(r', es[0]), es[1..], n, gone);
    }
  }

  /** The events since the snapshot rebuild exactly the orders placed since, as they are now. */
  lemma {:induction false} OrdersBack(before: seq<Command>, after: seq<Command>)
    requires WellFormed(before + after) && SaneRun(before + after)
    ensures Exec(before).Done? && Exec(before + after).Done?
    ensures var s, t := Exec(before).value, Exec(before + after).value;
      && LaterThan(s, t)
      && RestoreOrders(Restoring(Repo([], map[]), 0), t.log[|s.log|..]).repo == Since(s.repo, t.repo)
  {
    hide *;
    RunIsLater(before, after);
    PrefixInv(before, after);
    PrefixAdmissible(before, after);
    RestoredOrdersAreLive(before);
    RestoredOrdersAreLive(before + after);
    IdsMatch(Exec(before).value);
    NewOrdersBack(Exec(before).value, Exec(before + after).value);
  }

  lemma {:induction false} NewOrdersBack(s: State, t: State)
    requires LaterThan(s, t) && forall id :: id in s.repo.orders ==> s.repo.orders[id].id == id
    requires RestoreOrders(Restoring(Repo([], map[]), 0), s.log) == Restoring(s.repo, 0)
    requires RestoreOrders(Restoring(Repo([], map[]), 0), t.log) == Restoring(t.repo, 0)
    ensures RestoreOrders(Restoring(Repo([], map[]), 0), t.log[|s.log|..]).repo == Since(s.repo, t.repo)
  {
    hide RestoreOrders, KeepsOver;
    var none := Restoring(Repo([], map[]), 0);
    assert t.log == s.log + t.log[|s.log|..];
    RestoreAppend(none, s.log, t.log[|s.log|..]);
    assert OrdersSince(s.repo, none.repo, |s.repo.ids|, s.repo.orders.Keys);
    RestoreSince(Restoring(s.repo, 0), none, t.log[|s.log|..], |s.repo.ids|, s.repo.orders.Keys);
  }

  // ---------- the order books ----------

  /** The second findings say of new orders what the first say, and have no others placed. */
  ghost predicate FindingsSince(f: Findings, g: Findings, n: nat, gone: set<OrderId>) {
    && n <= |f.ids| && g.ids == f.ids[n..] && g.placed == f.placed - gone
    && forall id :: id !in gone ==> (id in f.canceled <==> id in g.canceled) && f.Traded(id) == g.Traded(id)
  }

  lemma NoteSince(f: Findings, g: Findings, e: Event, n: nat, gone: set<OrderId>)
    requires FindingsSince(f, g, n, gone) && PlacesOnlyNew([e], gone)
    ensures FindingsSince(Note(f, e), Note(g, e), n, gone)
  {
    hide Traded;
    assert e in [e];
  }

  lemma {:induction false} ScanSince(f: Findings, g: Findings, es: seq<Event>, n: nat, gone: set<OrderId>)
    requires FindingsSince(f, g, n, gone) && PlacesOnlyNew(es, gone)
    ensures FindingsSince(Scan(f, es), Scan(g, es), n, gone)
    decreases |es|
  {
    if es != [] {
      assert es[0] in es;
      NoteSince(f, g, es[0], n, gone);
      hide Note, FindingsSince;
      ScanSince(Note(f, es[0]), Note(g, es[0]), es[1..], n, gone);
    }
  }

  /** Findings cut down to orders they know as placed. */
  function Trimmed(g: Findings): Findings {
    g.(canceled := g.canceled * g.placed.Keys, traded := map id | id in g.traded && id in g.placed :: g.traded[id])
  }

  lemma {:induction false} TrimmedSameBooks(g: Findings, ids: seq<OrderId>)
    ensures RestoreBooks(map[], Trimmed(g), ids) == RestoreBooks(map[], g, ids)
  {
    if ids != [] {
      TrimmedSameBooks(g, ids[..|ids| - 1]);
      TrimmedSameEntry(g, ids[|ids| - 1]);
      hide PutBack, RestoredEntry, ReplayOrder;
    }
  }

  lemma TrimmedSameEntry(g: Findings, id: OrderId)
    ensures id in g.placed ==> (PutBack(Trimmed(g), id) <==> PutBack(g, id))
    ensures id in g.placed && PutBack(g, id) ==> RestoredEntry(Trimmed(g), id) == RestoredEntry(g, id)
  {
  }

  lemma SinceMatches(f: Findings, g: Findings, before: Repo, now: Repo)
    requires FindingsMatch(f, now) && |before.ids| <= |now.ids| && FindingsSince(f, g, |before.ids|, before.orders.Keys)
    ensures FindingsMatch(Trimmed(g), Since(before, now))
  {
  }

  lemma {:induction false} RankSuffix(ids: seq<OrderId>, n: nat, x: OrderId)
    requires n <= |ids| && x in ids[n..]
    ensures Rank(ids, x) == n + Rank(ids[n..], x)
    decreases |ids|
  {
    if ids[|ids| - 1] != x {
      var init := ids[..|ids| - 1];
      assert ids[n..] == init[n..] + [ids[|ids| - 1]];
      RankSuffix(init, n, x);
    }
  }

  lemma SinceRepoOk(before: Repo, now: Repo)
    requires RepoOk(before) && RepoOk(now) && before.ids <= now.ids
    ensures RepoOk(Since(before, now))
  {
    var n := |before.ids|;
    assert now.ids == before.ids + now.ids[n..];
    forall id | id in now.ids[n..] ensures id !in before.ids {
      var i :| 0 <= i < |now.ids| - n && now.ids[n..][i] == id;
      assert now.ids[n + i] == id;
    }
    hide OrderOk;
  }

  /** With nothing old open, a side of a live book is about new orders only, in their order of arrival. */
  lemma SinceSide(before: Repo, now: Repo, sym: Symbol, side: Side, es: seq<BookEntry>)
    requires before.ids <= now.ids
    requires (forall id :: id in before.ids <==> id in before.orders) &&
      forall id :: id in now.ids <==> id in now.orders
    requires forall id :: id in before.orders ==> id in now.orders && !Live(now.orders[id])
    requires SideAgrees(now.ids, now.orders, sym, side, es)
    ensures SideAgrees(Since(before, now).ids, Since(before, now).orders, sym, side, es)
  {
    hide Queue, Live, Entry;
    var n := |before.ids|;
    assert forall e :: e in es ==> e.orderId in now.ids && e.orderId !in before.ids;
    InSuffix(before.ids, now.ids);
    SinceQueue(now.ids, n, es);
    SinceOrders(before, now);
  }

  lemma InSuffix(xs: seq<OrderId>, ys: seq<OrderId>)
    requires xs <= ys
    ensures forall id :: id in ys && id !in xs ==> id in ys[|xs|..]
  {
    assert ys == xs + ys[|xs|..];
  }

  lemma SinceQueue(ids: seq<OrderId>, n: nat, es: seq<BookEntry>)
    requires n <= |ids| && Queue(ids, es) && forall e :: e in es ==> e.orderId in ids[n..]
    ensures Queue(ids[n..], es)
  {
    forall i, j | 0 <= i < j < |es| ensures Ahead(ids[n..], es[i], es[j]) {
      assert Ahead(ids, es[i], es[j]) && es[i] in es && es[j] in es;
      RankSuffix(ids, n, es[i].orderId);
      RankSuffix(ids, n, es[j].orderId);
    }
  }

  /** What the events since the snapshot rebuild of one side: the orders placed since that return. */
  lemma {:induction false} SideBack(s: State, t: State, g: Findings, sym: Symbol, side: Side)
    requires Inv(s) && Inv(t) && LaterThan(s, t)
    requires g == Scan(NO_FINDINGS, t.log[|s.log|..]) && FindingsMatch(Trimmed(g), Since(s.repo, t.repo))
    ensures var r := Since(s.repo, t.repo);
      RepoOk(r) && SideRestored(r, r.ids, sym, side, BookOf(RebuildBooks(t.log[|s.log|..]), sym).On(side))
  {
    var r := Since(s.repo, t.repo);
    SinceRepoOk(s.repo, t.repo);
    hide Inv, SideRestored, RestoreBooks;
    RestoredSide(Trimmed(g), r, |r.ids|, sym, side);
    assert r.ids[..|r.ids|] == r.ids;
    TrimmedSameBooks(g, r.ids);
  }

  /** With nothing from before still open, the live side is about the orders placed since. */
  lemma {:induction false} SideNow(s: State, t: State, sym: Symbol, side: Side)
    requires Inv(s) && Inv(t) && LaterThan(s, t) && NoneStillOpen(s, t)
    ensures var r := Since(s.repo, t.repo); SideAgrees(r.ids, r.orders, sym, side, BookOf(t.books, sym).On(side))
  {
    IdsMatch(s);
    IdsMatch(t);
    assert SideMatches(t.repo, t.books, sym, side);
    hide Inv, SideAgrees;
    SinceSide(s.repo, t.repo, sym, side, BookOf(t.books, sym).On(side));
  }

  lemma StillOver(s: State, t: State)
    requires Inv(s) && NothingOpen(s) && KeepsOver(s.repo, t.repo)
    ensures NoneStillOpen(s, t)
  {
    forall id | id in s.repo.orders ensures id in t.repo.orders && !Live(t.repo.orders[id]) {
      assert OrderOk(id, s.repo.orders[id]) && Over(s.repo.orders[id]);
    }
  }

  lemma {:induction false} FindingsBack(before: seq<Command>, after: seq<Command>)
    requires WellFormed(before + after) && SaneRun(before + after)
    ensures Exec(before).Done? && Exec(before + after).Done?
    ensures var s, t := Exec(before).value, Exec(before + after).value;
      LaterThan(s, t) && FindingsMatch(Trimmed(Scan(NO_FINDINGS, t.log[|s.log|..])), Since(s.repo, t.repo))
  {
    RunIsLater(before, after);
    PrefixAdmissible(before, after);
    LogTellsOrders(before);
    LogTellsOrders(before + after);
    var s, t := Exec(before).value, Exec(before + after).value;
    hide Exec, WellFormed, SaneRun, Scan;
    var es := t.log[|s.log|..];
    assert t.log == s.log + es;
    ScanAppend(NO_FINDINGS, s.log, es);
    NoFindingsSince(Scan(NO_FINDINGS, s.log), s.repo);
    ScanSince(Scan(NO_FINDINGS, s.log), NO_FINDINGS, es, |s.repo.ids|, s.repo.orders.Keys);
    hide FindingsSince;
    SinceMatches(Scan(NO_FINDINGS, t.log), Scan(NO_FINDINGS, es), s.repo, t.repo);
  }

  lemma NoFindingsSince(f: Findings, repo: Repo)
    requires FindingsMatch(f, repo)
    ensures FindingsSince(f, NO_FINDINGS, |repo.ids|, repo.orders.Keys)
  {
  }

  /** No order that was there at the snapshot is still open. */
  predicate NoneStillOpen(s: State, t: State) {
    forall id :: id in s.repo.orders ==> id in t.repo.orders && !Live(t.repo.orders[id])
  }

  /** Every order placed since can be put back. */
  predicate RecoverableSince(s: State, t: State) {
    forall id :: id in t.repo.orders && id !in s.repo.orders ==> !Phantom(t.repo.orders[id]) && !Lost(t.repo.orders[id])
  }

  lemma {:induction false} BooksBack(s: State, t: State)
    requires Inv(s) && Inv(t) && LaterThan(s, t)
    requires FindingsMatch(Trimmed(Scan(NO_FINDINGS, t.log[|s.log|..])), Since(s.repo, t.repo))
    ensures SameBooks(RebuildBooks(t.log[|s.log|..]), t.books) <==> NoneStillOpen(s, t) && RecoverableSince(s, t)
  {
    hide Inv, RebuildBooks, FindingsMatch, Scan, Since, SideAgrees, SideRestored, NoneStillOpen, KeepsOver,
      PlacesOnlyNew;
    var r := Since(s.repo, t.repo);
    var back := RebuildBooks(t.log[|s.log|..]);
    forall sym, side ensures RepoOk(r) && SideRestored(r, r.ids, sym, side, BookOf(back, sym).On(side)) {
      SideBack(s, t, Scan(NO_FINDINGS, t.log[|s.log|..]), sym, side);
    }
    if NoneStillOpen(s, t) {
      forall sym, side ensures BothSides(r, t.books, back, sym, side) { SideNow(s, t, sym, side); }
      assert BothSides(r, t.books, back, "", Buy);
      SameWhen(r, t.books, back);
      SinceOrders(s.repo, t.repo);
    } else {
      var id := StillOpen(s, t);
      var o := t.repo.orders[id];
      OldRests(s, t, id);
      assert SideRestored(r, r.ids, o.symbol, o.side, BookOf(back, o.symbol).On(o.side));
      NotAmongNew(s, t, back, id);
      assert !SameBook(back, t.books, o.symbol);
    }
  }

  lemma StillOpen(s: State, t: State) returns (id: OrderId)
    requires s.repo.orders.Keys <= t.repo.orders.Keys && !NoneStillOpen(s, t)
    ensures id in s.repo.orders && id in t.repo.orders && Live(t.repo.orders[id])
  {
    id :| id in s.repo.orders && (id in t.repo.orders ==> Live(t.repo.orders[id]));
  }

  lemma OldRests(s: State, t: State, id: OrderId)
    requires Inv(t) && id in t.repo.orders && Live(t.repo.orders[id])
    ensures var o := t.repo.orders[id]; exists e :: e in BookOf(t.books, o.symbol).On(o.side) && e.orderId == id
  {
    var o := t.repo.orders[id];
    assert OrderOk(id, o) && SideMatches(t.repo, t.books, o.symbol, o.side);
    assert Entry(o) in BookOf(t.books, o.symbol).On(o.side);
  }

  /** What was rebuilt is about orders placed since only. */
  lemma NotAmongNew(s: State, t: State, back: map<Symbol, Book>, id: OrderId)
    requires |s.repo.ids| <= |t.repo.ids| && id in s.repo.orders && id in t.repo.orders
    requires var r, o := Since(s.repo, t.repo), t.repo.orders[id];
      SideRestored(r, r.ids, o.symbol, o.side, BookOf(back, o.symbol).On(o.side))
    ensures var o := t.repo.orders[id]; forall e :: e in BookOf(back, o.symbol).On(o.side) ==> e.orderId != id
  {
  }

  /**
   * Restart from any snapshot, exactly: the events since rebuild the live books if and only if no order from before the
   * snapshot is still open, and none placed since was rejected with a price to rest at or rests without one.
   */
  lemma {:induction false} SnapshotBooks(before: seq<Command>, after: seq<Command>)
    requires WellFormed(before + after) && SaneRun(before + after)
    ensures Exec(before).Done? && Exec(before + after).Done?
    ensures var s, t := Exec(before).value, Exec(before + after).value;
      && s.log <= t.log
      && (SameBooks(RebuildBooks(t.log[|s.log|..]), t.books) <==> NoneStillOpen(s, t) && RecoverableSince(s, t))
  {
    FindingsBack(before, after);
    PrefixInv(before, after);
    RunsAgree(before + after);
    hide Exec, WellFormed, SaneRun, Inv, Scan, RebuildBooks, FindingsMatch, NoneStillOpen, RecoverableSince;
    BooksBack(Exec(before).value, Exec(before + after).value);
  }

  lemma SinceOrders(before: Repo, now: Repo)
    requires |before.ids| <= |now.ids|
    ensures forall id :: id in Since(before, now).orders <==> id in now.orders && id !in before.orders
    ensures forall id :: id in Since(before, now).orders ==> Since(before, now).orders[id] == now.orders[id]
  {
  }

  /**
   * Restart from a snapshot taken with nothing open: the accounts are the live ones, the repository has exactly
   * the orders placed since, as they are now, and the books are the live books if and only if none of those was
   * rejected with a price to rest at or rests without one.
   */
  lemma {:induction false} SnapshotRestart(before: seq<Command>, after: seq<Command>)
    requires WellFormed(before + after) && SaneRun(before + after)
    requires Exec(before).Done? && NothingOpen(Exec(before).value)
    ensures Exec(before + after).Done?
    ensures var s, t := Exec(before).value, Exec(before + after).value;
      && LaterThan(s, t)
      && var es := t.log[|s.log|..];
      && Replay(Restored(s.accounts), es).Done?
      && var back := RestartedOn(Restored(s.accounts), es);
      && Twins(back.accounts, t.accounts, s.repo.orders.Keys)
      && back.repo == Since(s.repo, t.repo)
      && (SameBooks(back.books, t.books) <==> RecoverableSince(s, t))
  {
    SnapshotSuffices(before, after);
    OrdersBack(before, after);
    SnapshotBooks(before, after);
    PrefixInv(before, after);
    StillOver(Exec(before).value, Exec(before + after).value);
    hide Exec, WellFormed, SaneRun, Inv, NothingOpen, Scan, RestoreOrders, RebuildBooks, KeepsOver, RecoverableSince;
  }
}
