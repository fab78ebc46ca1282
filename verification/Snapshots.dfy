/** Starting from an account snapshot instead of from nothing: when it gives the same accounts. */
module Snapshots {
  import opened Domain
  import opened Matching
  import opened Ledger
  import opened Orders
  import opened Exchange
  import opened Agreement
  import opened Runs
  import opened LogShape
  import opened Projection
  import opened ReplayRuns
  import opened LedgerLaws
  import opened ExactLocks
  import opened FairPrice

  /** Restoring a snapshot of all accounts into an empty service. */
  function Restored(l: Accounts): Accounts { Accounts(l.ids, map a | a in l.table :: Kept(l.table[a])) }

  /** A snapshot lists every account, in order of creation, with what is kept of it. */
  predicate IsSnapshot(l: Accounts, saved: seq<SavedAccount>) {
    && |saved| == |l.ids|
    && forall i :: 0 <= i < |saved| ==>
      saved[i].id == l.ids[i] && TakeOver(NEW_ACCOUNT, saved[i]) == Kept(l.Get(l.ids[i]))
  }

  /** Reading a snapshot back gives what the snapshot keeps, account by account. */
  lemma SnapshotReadsBack(l: Accounts, saved: seq<SavedAccount>)
    requires AccountsOk(l) && IsSnapshot(l, saved)
    ensures ReadInto(NO_ACCOUNTS, saved) == Restored(l)
  {
    hide Kept, TakeOver;
    ReadBackUpto(l, saved, |saved|);
    assert saved[..|saved|] == saved && l.ids[..|saved|] == l.ids;
  }

  lemma {:induction false} ReadBackUpto(l: Accounts, saved: seq<SavedAccount>, k: nat)
    requires AccountsOk(l) && IsSnapshot(l, saved) && k <= |saved|
    ensures ReadInto(NO_ACCOUNTS, saved[..k]) == First(l, k)
  {
    hide Kept, TakeOver, AccountsOk;
    if k > 0 {
      ReadBackUpto(l, saved, k - 1);
      assert saved[..k][..k - 1] == saved[..k - 1] && saved[..k][k - 1] == saved[k - 1];
      FirstNext(l, k - 1);
    }
  }

  /** The first accounts, cut down to what is kept of them. */
  function First(l: Accounts, k: nat): Accounts
    requires k <= |l.ids|
  {
    Accounts(l.ids[..k], map a | a in l.ids[..k] :: Kept(l.Get(a)))
  }

  lemma FirstNext(l: Accounts, k: nat)
    requires AccountsOk(l) && k < |l.ids|
    ensures First(l, k + 1) == First(l, k).Put(l.ids[k], Kept(l.Get(l.ids[k])))
  {
    assert l.ids[k] !in l.ids[..k];
    hide AccountsOk, Kept;
    OneMoreKept(l, l.ids[..k], l.ids[k]);
    assert l.ids[..k + 1] == l.ids[..k] + [l.ids[k]];
  }

  lemma OneMoreKept(l: Accounts, ids: seq<AccountId>, a: AccountId)
    ensures (map x | x in ids + [a] :: Kept(l.Get(x))) == (map x | x in ids :: Kept(l.Get(x)))[a := Kept(l.Get(a))]
  {
    hide Kept;
  }

  /** A balanced account loses nothing but its locks. */
  lemma KeptIsTwin(x: Account, dead: set<OrderId>)
    requires Balanced(x) && x.locks.Keys <= dead
    ensures Twin(Kept(x), x, dead)
  {
    forall sym ensures Kept(x).Pos(sym) == x.Pos(sym) {
      BalancedNonNegative(x, Shares(sym));
      assert CostOk(x.Pos(sym));
    }
  }

  lemma RestoredIsTwin(l: Accounts, orders: map<OrderId, Order>)
    requires LedgerAgrees(l, orders)
    ensures Twins(Restored(l), l, orders.Keys) && AccountsOk(Restored(l))
  {
    forall a ensures Twin(Restored(l).Get(a), l.Get(a), orders.Keys) {
      assert Balanced(l.Get(a));
      forall id | id in l.Get(a).locks ensures id in orders {}
      if a in l.table { KeptIsTwin(l.Get(a), orders.Keys); }
    }
  }

  /**
   * A snapshot of any reachable state, read back: the same cash and the same positions, free and locked, with their
   * cost, but no locks; flat positions are not listed.
   */
  lemma {:induction false} SnapshotKeeps(cmds: seq<Command>, saved: seq<SavedAccount>, a: AccountId, sym: Symbol)
    requires WellFormed(cmds) && SaneRun(cmds)
    ensures Exec(cmds).Done?
    ensures IsSnapshot(Exec(cmds).value.accounts, saved) ==>
      var x, y := Exec(cmds).value.accounts.Get(a), ReadInto(NO_ACCOUNTS, saved).Get(a);
      && y.cashAvail == x.cashAvail && y.cashLocked == x.cashLocked && y.locks == map[] && y.Pos(sym) == x.Pos(sym)
      && (sym in y.positions <==> x.Pos(sym).avail + x.Pos(sym).locked > 0.0)
  {
    RunsAgree(cmds);
    var l := Exec(cmds).value.accounts;
    hide WellFormed, SaneRun, Exec, Balanced, IsSnapshot, ReadInto;
    if IsSnapshot(l, saved) {
      SnapshotReadsBack(l, saved);
      assert Balanced(l.Get(a));
      KeptReads(l.Get(a), sym);
      RestoredReads(l, a);
    }
  }

  lemma RestoredReads(l: Accounts, a: AccountId)
    ensures Restored(l).Get(a) == Kept(l.Get(a))
  {
  }

  lemma KeptReads(x: Account, sym: Symbol)
    requires Balanced(x)
    ensures var y := Kept(x);
      && y.cashAvail == x.cashAvail && y.cashLocked == x.cashLocked && y.locks == map[] && y.Pos(sym) == x.Pos(sym)
      && (sym in y.positions <==> x.Pos(sym).avail + x.Pos(sym).locked > 0.0)
  {
    BalancedNonNegative(x, Shares(sym));
    assert CostOk(x.Pos(sym));
  }

  // ---------- dead orders stay dead ----------

  predicate Over(o: Order) { o.status == Status.Filled || o.status == Canceled || o.status == Rejected }

  /** Orders that are over keep being over. */
  predicate KeepsOver(r: Repo, r': Repo) {
    forall id :: id in r.orders && Over(r.orders[id]) ==> id in r'.orders && Over(r'.orders[id])
  }

  lemma {:induction false} TradesKeepOver(d: Desk, ts: seq<Trade>)
    requires ApplyTrades(d, ts).Done?
    ensures KeepsOver(d.repo, ApplyTrades(d, ts).value.repo)
    decreases |ts|
  {
    if ts != [] {
      TradeKeepsOver(d, ts[0]);
      hide ApplyTrade;
      TradesKeepOver(ApplyTrade(d, ts[0]).value, ts[1..]);
    }
  }

  lemma FillKeepsOver(r: Repo, id: OrderId, qty: real)
    requires OnFill(r, id, qty).Done?
    ensures KeepsOver(r, OnFill(r, id, qty).value)
  {
  }

  lemma TradeKeepsOver(d: Desk, t: Trade)
    requires ApplyTrade(d, t).Done?
    ensures KeepsOver(d.repo, ApplyTrade(d, t).value.repo)
  {
    FillKeepsOver(d.repo, t.buyId, t.qty);
    FillKeepsOver(OnFill(d.repo, t.buyId, t.qty).value, t.sellId, t.qty);
    hide OnFill, Settle;
  }

  lemma {:induction false} StepKeepsOver(s: State, c: Command)
    requires Step(s, c).Done? && (c.Place? ==> c.placement.id !in s.repo.orders)
    ensures KeepsOver(s.repo, Step(s, c).value.repo)
  {
    hide ApplyTrades;
    if c.Place? && Accepts(s, c.placement) {
      PlaceUnfolds(s, c.placement);
      TradesKeepOver(DeskFor(s, c.placement), TradesOf(s, c.placement));
      assert KeepsOver(s.repo, DeskFor(s, c.placement).repo);
    }
  }

  // ---------- the theorem ----------

  predicate NothingOpen(s: State) { forall id :: id in s.repo.orders ==> !Live(s.repo.orders[id]) }

  /** No open order reserves anything: at most BUY orders limited to nothing are open. */
  predicate NothingReserved(s: State) {
    forall id :: id in s.repo.orders && Live(s.repo.orders[id]) ==>
      s.repo.orders[id].side == Buy && s.repo.orders[id].Limit() == 0.0
  }

  /**
   * From state s, snapshotted, to a later state t: replaying on the restored snapshot only what was logged
   * since never aborts and gives every account its live cash, positions and cost basis (and the locks of the
   * orders placed since).
   */
  ghost predicate Accelerates(s: State, t: State) {
    s.log <= t.log && Replays(Restored(s.accounts), t.log[|s.log|..], t.accounts, s.repo.orders.Keys)
  }

  ghost predicate SinceSnapshot(s: State, t: State) {
    && Accelerates(s, t) && KeepsOver(s.repo, t.repo) && KeepsTerms(s.repo, t.repo)
    && AccountsOk(Replay(Restored(s.accounts), t.log[|s.log|..]).value)
  }

  lemma {:induction false} SnapshotSuffices(before: seq<Command>, after: seq<Command>)
    requires WellFormed(before + after) && SaneRun(before + after)
    requires Exec(before).Done? && NothingReserved(Exec(before).value)
    ensures Exec(before + after).Done? && SinceSnapshot(Exec(before).value, Exec(before + after).value)
    decreases |after|
  {
    if after == [] {
      assert before + after == before;
      RunsAgree(before);
      SnapshotAtOnce(Exec(before).value);
    } else {
      var c := after[|after| - 1];
      var after0 := after[..|after| - 1];
      var all0 := before + after0;
      assert before + after == all0 + [c];
      NextCommand(all0, c);
      SnapshotSuffices(before, after0);
      RunsAgree(all0);
      PrefixInv(before, after0);
      hide Inv, SinceSnapshot, NothingReserved;
      NoCashAtZero(all0);
      SnapshotStep(Exec(before).value, Exec(all0).value, c);
      assert (all0 + [c])[..|all0|] == all0;
    }
  }

  lemma {:induction false} PrefixInv(before: seq<Command>, after: seq<Command>)
    requires WellFormed(before + after) && SaneRun(before + after)
    ensures Exec(before).Done? && Inv(Exec(before).value)
  {
    var all := before + after;
    assert forall i :: 0 <= i < |before| ==> all[i] == before[i];
    RunsAgree(before);
  }

  lemma SnapshotAtOnce(s: State)
    requires Inv(s)
    ensures SinceSnapshot(s, s)
  {
    RestoredIsTwin(s.accounts, s.repo.orders);
    assert s.log[|s.log|..] == [];
  }

  /** BUY orders limited to nothing have nothing locked. */
  ghost predicate EmptyAtZero(s: State) {
    forall id ::
      && id in s.repo.orders && Live(s.repo.orders[id])
      && s.repo.orders[id].side == Buy && s.repo.orders[id].Limit() == 0.0 ==>
      var a := s.repo.orders[id].account; id in s.accounts.Get(a).locks && s.accounts.Get(a).locks[id].cash == 0.0
  }

  lemma {:induction false} SpentNonNegative(es: seq<Event>, id: OrderId)
    requires forall e :: e in es && e.TradeExecuted? ==> e.trade.price >= 0.0 && e.trade.qty > 0.0
    ensures Spent(es, id) >= 0.0
  {
    hide Value;
    if es != [] {
      assert es[0] in es;
      SpentNonNegative(es[1..], id);
      if es[0].TradeExecuted? { ValueNonNegative(es[0].trade.price, es[0].trade.qty); }
    }
  }

  lemma {:induction false} NoCashAtZero(cmds: seq<Command>)
    requires WellFormed(cmds) && SaneRun(cmds)
    ensures Exec(cmds).Done? && EmptyAtZero(Exec(cmds).value)
  {
    RunsAgree(cmds);
    LocksAreExact(cmds);
    EveryTradeFair(cmds);
    hide Exec;
    EmptyWhenExact(Exec(cmds).value);
  }

  lemma {:induction false} EmptyWhenExact(s: State)
    requires Inv(s) && Exact(s) && AllFair(s)
    ensures EmptyAtZero(s)
  {
    hide Value, Spent;
    IdsMatch(s);
    assert forall x :: x in s.repo.orders ==> OrderOk(x, s.repo.orders[x]);
    forall e | e in s.log && e.TradeExecuted? ensures e.trade.price >= 0.0 && e.trade.qty > 0.0 {
      assert Fair(e.trade, s.repo.orders);
    }
    forall id | id in s.repo.orders && Live(s.repo.orders[id]) && s.repo.orders[id].side == Buy &&
      s.repo.orders[id].Limit() == 0.0
      ensures var k := s.accounts.Get(s.repo.orders[id].account).locks; id in k && k[id].cash == 0.0
    {
      ExactRead(s, id);
      SpentNonNegative(s.log, id);
      NoValue(s.repo.orders[id].qty);
      assert Balanced(s.accounts.Get(s.repo.orders[id].account));
    }
  }

  lemma NoValue(qty: real)
    ensures Value(0.0, qty) == 0.0
  {
  }

  lemma {:induction false} DormantSince(s: State, t: State)
    requires Inv(s) && NothingReserved(s) && KeepsOver(s.repo, t.repo) && KeepsTerms(s.repo, t.repo) && EmptyAtZero(t)
    ensures Dormant(t, s.repo.orders.Keys)
  {
    forall id | id in s.repo.orders.Keys
      ensures id in t.repo.orders
      ensures var o := t.repo.orders[id];
        var locks := t.accounts.Get(o.account).locks;
        Live(o) ==> o.side == Buy && id in locks && locks[id].cash == 0.0
    {
      assert OrderOk(id, s.repo.orders[id]) && SameTerms(s.repo.orders[id], t.repo.orders[id]);
    }
  }

  lemma SuffixGrows<T>(xs: seq<T>, ys: seq<T>, zs: seq<T>)
    requires xs <= ys
    ensures xs <= ys + zs && (ys + zs)[|xs|..] == ys[|xs|..] + zs
  {
  }

  /** One more command after the snapshot. */
  lemma {:induction false} SnapshotStep(s: State, t: State, c: Command)
    requires Inv(s) && Inv(t) && NothingReserved(s) && SinceSnapshot(s, t) && EmptyAtZero(t)
    requires Positive(c) && Sane(c) && (c.Place? ==> c.placement.id !in t.repo.ids)
    ensures Step(t, c).Done? && SinceSnapshot(s, Step(t, c).value)
  {
    DormantSince(s, t);
    assert c.Place? ==> c.placement.id !in t.repo.orders;
    hide Inv, Twins, AccountsOk, Dormant, NothingReserved, NewEvents, Restored, Step, KeepsOver, KeepsTerms, Replay;
    var l := Restored(s.accounts);
    StepReplay(t, c, Replay(l, t.log[|s.log|..]).value, s.repo.orders.Keys);
    StepKeepsOver(t, c);
    OverTransitive(s.repo, t.repo, Step(t, c).value.repo);
    StepKeepsTerms(t, c);
    TermsTransitive(s.repo, t.repo, Step(t, c).value.repo);
    StepLog(t, c);
    SuffixGrows(s.log, t.log, NewEvents(t, c));
    ReplayAppend(l, t.log[|s.log|..], NewEvents(t, c));
  }

  lemma OverTransitive(r: Repo, r': Repo, r'': Repo)
    requires KeepsOver(r, r') && KeepsOver(r', r'')
    ensures KeepsOver(r, r'')
  {
  }

  lemma TermsTransitive(r: Repo, r': Repo, r'': Repo)
    requires KeepsTerms(r, r') && KeepsTerms(r', r'')
    ensures KeepsTerms(r, r'')
  {
  }

  // ---------- and only then ----------

  /** Restored accounts hold no locks, so a cancellation replayed on them releases nothing. */
  lemma NothingToRelease(l: Accounts, id: OrderId)
    ensures ReplayEvent(Restored(l), OrderCanceled(id)) == Done(Restored(l))
  {
  }

  /** An open order reserves something. */
  lemma OpenReserves(s: State, id: OrderId)
    requires Inv(s) && id in s.repo.orders && Live(s.repo.orders[id])
    requires s.repo.orders[id].side == Buy ==> s.repo.orders[id].Limit() > 0.0
    ensures var o := s.repo.orders[id];
      && id in s.accounts.Get(o.account).locks && o.id == id
      && var k := s.accounts.Get(o.account).locks[id];
      if k.side == Buy then k.cash > 0.0 else k.qty > 0.0
  {
    hide Balanced;
    var o := s.repo.orders[id];
    assert OrderOk(id, o);
    var k := s.accounts.Get(o.account).locks[id];
    assert LockFor(o, k);
    if o.side == Buy { assert Value(o.Limit(), o.Remaining()) > 0.0; }
  }

  /** An order open at the snapshot and canceled after it is lost: its reserve stays locked in the restored account. */
  lemma {:induction false} OpenOrderLost(s: State, id: OrderId)
    requires Inv(s) && id in s.repo.orders && Live(s.repo.orders[id])
    requires s.repo.orders[id].side == Buy ==> s.repo.orders[id].Limit() > 0.0
    ensures Step(s, Cancel(id)).Done? && !Accelerates(s, Step(s, Cancel(id)).value)
  {
    hide LedgerAgrees;
    OpenReserves(s, id);
    var o := s.repo.orders[id];
    var x := s.accounts.Get(o.account);
    var t := Step(s, Cancel(id)).value;
    assert t.accounts.Get(o.account) == Release(x, id) && t.log == s.log + [OrderCanceled(id)];
    var l := Restored(s.accounts);
    RestoredIsTwin(s.accounts, s.repo.orders);
    hide Inv, Step, Release;
    assert t.log[|s.log|..] == [OrderCanceled(id)];
    ReplayOne(l, OrderCanceled(id));
    NothingToRelease(s.accounts, id);
    ReleaseMoves(x, id);
    NotTwins(l, s.accounts, t.accounts, s.repo.orders.Keys, o.account, x.locks[id].symbol);
  }

  /** Accounts that differ in cash or in a position are not twins. */
  lemma NotTwins(l: Accounts, m: Accounts, n: Accounts, dead: set<OrderId>, a: AccountId, sym: Symbol)
    requires Twins(l, m, dead)
    requires m.Get(a).cashAvail != n.Get(a).cashAvail || m.Get(a).Pos(sym) != n.Get(a).Pos(sym)
    ensures !Twins(l, n, dead)
  {
    assert Twin(l.Get(a), m.Get(a), dead);
    assert l.Get(a).Pos(sym) == m.Get(a).Pos(sym);
    assert Twin(l.Get(a), n.Get(a), dead) ==> l.Get(a).Pos(sym) == n.Get(a).Pos(sym);
  }

  lemma ReleaseMoves(x: Account, id: OrderId)
    requires id in x.locks
    ensures x.locks[id].side == Buy ==> Release(x, id).cashAvail == x.cashAvail + x.locks[id].cash
    ensures x.locks[id].side == Sell ==>
      Release(x, id).Pos(x.locks[id].symbol).avail == x.Pos(x.locks[id].symbol).avail + x.locks[id].qty
  {
  }

  /** What may be given after a run. */
  predicate MayFollow(before: seq<Command>, after: seq<Command>) {
    WellFormed(before + after) && SaneRun(before + after)
  }

  /**
   * Exactly when a snapshot may replace the log before it: starting from the accounts alone is right for every
   * continuation if and only if no open order reserved anything when the snapshot was taken.
   */
  lemma {:induction false} SnapshotExactly(before: seq<Command>)
    requires WellFormed(before) && SaneRun(before)
    ensures Exec(before).Done?
    ensures NothingReserved(Exec(before).value) <==>
      forall after {:trigger MayFollow(before, after)} :: MayFollow(before, after) ==>
        Exec(before + after).Done? && Accelerates(Exec(before).value, Exec(before + after).value)
  {
    hide Step;
    RunsAgree(before);
    var s := Exec(before).value;
    if NothingReserved(s) {
      forall after | MayFollow(before, after)
        ensures Exec(before + after).Done? && Accelerates(s, Exec(before + after).value)
      {
        SnapshotSuffices(before, after);
      }
    } else {
      var id :| id in s.repo.orders && Live(s.repo.orders[id])
        && !(s.repo.orders[id].side == Buy && s.repo.orders[id].Limit() == 0.0);
      assert OrderOk(id, s.repo.orders[id]);
      LostAfterAll(before, id);
    }
  }

  lemma {:induction false} LostAfterAll(before: seq<Command>, id: OrderId)
    requires WellFormed(before) && SaneRun(before) && Exec(before).Done?
    requires var s := Exec(before).value;
      Inv(s) && id in s.repo.orders && Live(s.repo.orders[id]) &&
      (s.repo.orders[id].side == Buy ==> s.repo.orders[id].Limit() > 0.0)
    ensures MayFollow(before, [Cancel(id)])
    ensures !(Exec(before + [Cancel(id)]).Done? && Accelerates(Exec(before).value, Exec(before + [Cancel(id)]).value))
  {
    hide Inv, Accelerates, Live;
    OpenOrderLost(Exec(before).value, id);
    assert (before + [Cancel(id)])[..|before|] == before;
  }
}
