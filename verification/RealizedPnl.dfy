/** First-in-first-out realised profit: the nested loop, the accounts it balances, and what it leaves in stock. */
module RealizedPnl {
  import opened Domain
  import opened Sums

  /** One trade of an account's history. */
  datatype Lot = Lot(symbol: Symbol, side: Side, qty: real, price: real)

  /** Shares bought and not yet sold. */
  datatype Layer = Layer(qty: real, price: real)

  datatype Tally = Tally(queues: map<Symbol, seq<Layer>>, realized: real, wins: nat, losses: nat) {
    function Queue(sym: Symbol): seq<Layer> { if sym in queues then queues[sym] else [] }
  }

  const NO_TALLY := Tally(map[], 0.0, 0, 0)

  /** The outcome of selling from a queue; `left` is what the queue could not cover. */
  datatype Sale = Sale(queue: seq<Layer>, gain: real, wins: nat, losses: nat, left: real)

  function Gain(qty: real, price: real, bought: real): real { qty * (price - bought) }

  /** Sell from the front of a queue, layer by layer. */
  function Sell(queue: seq<Layer>, qty: real, price: real): Sale
    decreases |queue|
  {
    if qty <= 0.0 || queue == [] then Sale(queue, 0.0, 0, 0, qty)
    else
      var matched := Min(qty, queue[0].qty);
      var gain := Gain(matched, price, queue[0].price);
      var rest := if matched >= queue[0].qty then Sell(queue[1..], qty - matched, price)
                  else Sale([queue[0].(qty := queue[0].qty - matched)] + queue[1..], 0.0, 0, 0, qty - matched);
      rest.(gain := gain + rest.gain, wins := rest.wins + (if gain > 0.0 then 1 else 0),
            losses := rest.losses + (if gain < 0.0 then 1 else 0))
  }

  /** A sale of a symbol never bought finds no queue and leaves none. */
  function Record(t: Tally, x: Lot): Tally {
    if x.side == Buy then t.(queues := t.queues[x.symbol := t.Queue(x.symbol) + [Layer(x.qty, x.price)]])
    else
      var s := Sell(t.Queue(x.symbol), x.qty, x.price);
      Tally(if x.symbol in t.queues then t.queues[x.symbol := s.queue] else t.queues,
            t.realized + s.gain, t.wins + s.wins, t.losses + s.losses)
  }

  function Tallied(lots: seq<Lot>): Tally {
    if lots == [] then NO_TALLY else Record(Tallied(lots[..|lots| - 1]), lots[|lots| - 1])
  }

  // ---------- the loop ----------

  /** A sale, one layer at a time. */
  lemma SellOneLayer(queue: seq<Layer>, qty: real, price: real)
    requires qty > 0.0 && queue != []
    ensures var top := queue[0];
      var matched := Min(qty, top.qty);
      var gain := Gain(matched, price, top.price);
      var next := if matched >= top.qty then queue[1..] else [Layer(top.qty - matched, top.price)] + queue[1..];
      var s, r := Sell(queue, qty, price), Sell(next, qty - matched, price);
      && s.queue == r.queue && s.left == r.left && s.gain == gain + r.gain
      && s.wins == r.wins + (if gain > 0.0 then 1 else 0) && s.losses == r.losses + (if gain < 0.0 then 1 else 0)
  {
    hide Gain;
  }

  lemma SellNothing(queue: seq<Layer>, qty: real, price: real)
    requires qty <= 0.0 || queue == []
    ensures Sell(queue, qty, price) == Sale(queue, 0.0, 0, 0, qty)
  {
  }

  /** Per-symbol queues that sales eat into from the front. */
  method ComputeRealizedPnl(lots: seq<Lot>) returns (realized: real, wins: nat, losses: nat)
    ensures var t := Tallied(lots); realized == t.realized && wins == t.wins && losses == t.losses
  {
    hide Gain, Sell;
    var queues: map<Symbol, seq<Layer>> := map[];
    realized, wins, losses := 0.0, 0, 0;
    for i := 0 to |lots|
      invariant Tally(queues, realized, wins, losses) == Tallied(lots[..i])
    {
      var x := lots[i];
      assert lots[..i + 1][..i] == lots[..i];
      if x.side == Buy {
        queues := queues[x.symbol := (if x.symbol in queues then queues[x.symbol] else []) + [Layer(x.qty, x.price)]];
      } else {
        ghost var before := Tallied(lots[..i]);
        var left, queue := x.qty, if x.symbol in queues then queues[x.symbol] else [];
        while left > 0.0 && queue != []
          invariant var s, r := Sell(before.Queue(x.symbol), x.qty, x.price), Sell(queue, left, x.price);
            && s.queue == r.queue && s.left == r.left && before.realized + s.gain == realized + r.gain
            && before.wins + s.wins == wins + r.wins && before.losses + s.losses == losses + r.losses
          decreases |queue|, if left > 0.0 then 1 else 0
        {
          SellOneLayer(queue, left, x.price);
          var top := queue[0];
          var matched := Min(left, top.qty);
          var gain := Gain(matched, x.price, top.price);
          realized := realized + gain;
          if gain > 0.0 {
            wins := wins + 1;
          } else if gain < 0.0 {
            losses := losses + 1;
          }
          left := left - matched;
          if matched >= top.qty {
            queue := queue[1..];
          } else {
            queue := [Layer(top.qty - matched, top.price)] + queue[1..];
          }
        }
        SellNothing(queue, left, x.price);
        if x.symbol in queues {
          queues := queues[x.symbol := queue];
        }
      }
    }
    assert lots[..|lots|] == lots;
  }

  // ---------- what a queue is worth ----------

  function Cost(qty: real, price: real): real { qty * price }

  function Worth(ls: seq<Layer>): real { if ls == [] then 0.0 else Cost(ls[0].qty, ls[0].price) + Worth(ls[1..]) }

  function Shares(ls: seq<Layer>): real { if ls == [] then 0.0 else ls[0].qty + Shares(ls[1..]) }

  predicate Positive(ls: seq<Layer>) { forall i :: 0 <= i < |ls| ==> ls[i].qty > 0.0 }

  /** Take a quantity off the front of a list of layers. */
  function Drop(ls: seq<Layer>, qty: real): seq<Layer> {
    if ls == [] || qty <= 0.0 then ls
    else if ls[0].qty <= qty then Drop(ls[1..], qty - ls[0].qty)
    else [ls[0].(qty := ls[0].qty - qty)] + ls[1..]
  }

  /** What a drop leaves: the layers from some k on, the first of them at most reduced. */
  lemma {:induction false} DropShape(ls: seq<Layer>, qty: real) returns (k: nat)
    requires Positive(ls) && 0.0 <= qty
    ensures k <= |ls| && (k == |ls| <==> Drop(ls, qty) == [])
    ensures qty < Shares(ls) ==> k < |ls|
    ensures k < |ls| ==>
      var top := Drop(ls, qty)[0];
      && Drop(ls, qty)[1..] == ls[k + 1..] && top == ls[k].(qty := top.qty) && 0.0 < top.qty <= ls[k].qty
      && Shares(ls[..k]) + (ls[k].qty - top.qty) == qty
    decreases |ls|
  {
    if ls == [] || qty == 0.0 { k := 0; }
    else if ls[0].qty <= qty {
      k := DropShape(ls[1..], qty - ls[0].qty);
      assert ls[1..][..k] == ls[..k + 1][1..];
      k := k + 1;
    } else {
      k := 0;
    }
  }

  lemma {:induction false} SharesPositive(ls: seq<Layer>)
    requires Positive(ls)
    ensures Shares(ls) >= 0.0 && (Shares(ls) == 0.0 <==> ls == [])
    decreases |ls|
  {
    if ls != [] { SharesPositive(ls[1..]); }
  }

  lemma SplitCost(a: real, b: real, price: real, bought: real)
    ensures Cost(a, bought) + Cost(b, bought) == Cost(a + b, bought)
    ensures Gain(a, price, bought) == Cost(a, price) - Cost(a, bought)
  {
  }

  /**
   * A sale books its proceeds less the cost of exactly what it took off the front, and stops when nothing is left to
   * take.
   */
  lemma {:induction false} SaleBooks(queue: seq<Layer>, qty: real, price: real)
    requires Positive(queue) && 0.0 <= qty
    ensures var s := Sell(queue, qty, price);
      && Positive(s.queue) && 0.0 <= s.left <= qty && (s.left > 0.0 ==> s.queue == [])
      && s.queue == Drop(queue, qty) && Shares(s.queue) == Shares(queue) - (qty - s.left)
      && s.gain == Cost(qty - s.left, price) - (Worth(queue) - Worth(s.queue))
    decreases |queue|
  {
    hide Gain, Cost;
    SplitCost(0.0, 0.0, price, 0.0);
    ZeroCost(price);
    if qty > 0.0 && queue != [] {
      var top := queue[0];
      var matched := Min(qty, top.qty);
      SplitCost(matched, top.qty - matched, price, top.price);
      if matched >= top.qty {
        SaleBooks(queue[1..], qty - matched, price);
        var r := Sell(queue[1..], qty - matched, price);
        SplitCost(matched, qty - matched - r.left, price, price);
        assert matched + (qty - matched - r.left) == qty - r.left;
      } else {
        var rest := [top.(qty := top.qty - matched)] + queue[1..];
        assert rest[1..] == queue[1..];
      }
    }
  }

  lemma ZeroCost(price: real)
    ensures Cost(0.0, price) == 0.0
  {
  }

  // ---------- the identity ----------

  predicate Traded(lots: seq<Lot>) { forall i :: 0 <= i < |lots| ==> lots[i].qty > 0.0 }

  /** Money paid for purchases, money got for sales. */
  function Paid(lots: seq<Lot>, side: Side): real {
    if lots == [] then 0.0
    else
      var x := lots[|lots| - 1];
      Paid(lots[..|lots| - 1], side) + if x.side == side then Cost(x.qty, x.price) else 0.0
  }

  /** The part of a sale that found nothing in stock. */
  function Uncovered(before: Tally, x: Lot): real {
    if x.side == Buy then 0.0 else Sell(before.Queue(x.symbol), x.qty, x.price).left
  }

  /** What was asked for sales that found nothing in stock. */
  function Unbooked(lots: seq<Lot>): real {
    if lots == [] then 0.0
    else
      var x := lots[|lots| - 1];
      Unbooked(lots[..|lots| - 1]) + Cost(Uncovered(Tallied(lots[..|lots| - 1]), x), x.price)
  }

  ghost function Worths(t: Tally): map<Symbol, real> { map sym | sym in t.queues :: Worth(t.queues[sym]) }

  /** The cost of everything still in stock. */
  ghost function Stock(t: Tally): real { MapSum(Worths(t)) }

  predicate AllPositive(t: Tally) { forall sym :: sym in t.queues ==> Positive(t.queues[sym]) }

  lemma StockSet(t: Tally, sym: Symbol, ls: seq<Layer>)
    ensures Stock(t.(queues := t.queues[sym := ls])) == Stock(t) - Worth(t.Queue(sym)) + Worth(ls)
  {
    MapSumSet(Worths(t), sym, Worth(ls));
    assert Worths(t)[sym := Worth(ls)] == Worths(t.(queues := t.queues[sym := ls]));
  }

  lemma {:induction false} WorthAppend(ls: seq<Layer>, x: Layer)
    ensures Worth(ls + [x]) == Worth(ls) + Cost(x.qty, x.price)
    decreases |ls|
  {
    if ls != [] {
      assert (ls + [x])[1..] == ls[1..] + [x];
      WorthAppend(ls[1..], x);
    } else {
      assert [x][1..] == [];
    }
  }

  lemma RecordBooks(t: Tally, x: Lot)
    requires AllPositive(t) && x.qty > 0.0
    ensures AllPositive(Record(t, x))
    ensures Record(t, x).realized - Stock(Record(t, x)) == t.realized - Stock(t)
      + if x.side == Buy then -Cost(x.qty, x.price) else Cost(x.qty - Uncovered(t, x), x.price)
  {
    hide Cost, MapSum, Sell;
    var q := t.Queue(x.symbol);
    if x.side == Buy {
      WorthAppend(q, Layer(x.qty, x.price));
      StockSet(t, x.symbol, q + [Layer(x.qty, x.price)]);
    } else {
      SaleBooks(q, x.qty, x.price);
      StockSet(t, x.symbol, Sell(q, x.qty, x.price).queue);
      SameStock(Record(t, x), t.(queues := Record(t, x).queues));
    }
  }

  lemma SameStock(t: Tally, t': Tally)
    requires t.queues == t'.queues
    ensures Stock(t) == Stock(t')
  {
    assert Worths(t) == Worths(t');
  }

  /**
   * For every trade list: realised profit = sale proceeds (without what was sold uncovered) - purchases + the
   * cost of what is still in stock.
   */
  lemma {:induction false} ProfitIdentity(lots: seq<Lot>)
    requires Traded(lots)
    ensures AllPositive(Tallied(lots))
    ensures Tallied(lots).realized == Paid(lots, Side.Sell) - Unbooked(lots) - Paid(lots, Buy) + Stock(Tallied(lots))
  {
    if lots == [] {
      assert Worths(NO_TALLY) == map[];
    } else {
      var init, x := lots[..|lots| - 1], lots[|lots| - 1];
      ProfitIdentity(init);
      RecordBooks(Tallied(init), x);
      var u := Uncovered(Tallied(init), x);
      SplitCost(u, x.qty - u, x.price, x.price);
      ZeroCost(x.price);
      hide Cost, Stock, Record;
    }
  }

  // ---------- exactly when nothing is oversold ----------

  /** Quantity traded of a symbol on a side. */
  function Volume(lots: seq<Lot>, sym: Symbol, side: Side): real {
    if lots == [] then 0.0
    else
      var x := lots[|lots| - 1];
      Volume(lots[..|lots| - 1], sym, side) + if x.symbol == sym && x.side == side then x.qty else 0.0
  }

  /** At no time has more of a symbol been sold than bought. */
  ghost predicate NoOversell(lots: seq<Lot>) {
    forall k, sym :: 0 <= k <= |lots| ==> Volume(lots[..k], sym, Side.Sell) <= Volume(lots[..k], sym, Buy)
  }

  lemma NoOversellLast(lots: seq<Lot>)
    requires lots != []
    ensures var init, sym := lots[..|lots| - 1], lots[|lots| - 1].symbol;
      NoOversell(lots) <==> NoOversell(init) && Volume(lots, sym, Side.Sell) <= Volume(lots, sym, Buy)
  {
    var n := |lots| - 1;
    var init := lots[..n];
    assert lots[..|lots|] == lots && init[..n] == init;
    assert forall k :: 0 <= k <= n ==> init[..k] == lots[..k];
    hide Volume;
    if NoOversell(init) && Volume(lots, lots[n].symbol, Side.Sell) <= Volume(lots, lots[n].symbol, Buy) {
      forall k, sym | 0 <= k <= |lots| ensures Volume(lots[..k], sym, Side.Sell) <= Volume(lots[..k], sym, Buy) {
        if k <= n { assert init[..k] == lots[..k]; } else { LastVolume(lots, sym); }
      }
    }
    if NoOversell(lots) {
      forall k, sym | 0 <= k <= n ensures Volume(init[..k], sym, Side.Sell) <= Volume(init[..k], sym, Buy) {
        assert init[..k] == lots[..k];
      }
    }
  }

  /** Another symbol's volumes did not change with the last trade. */
  lemma LastVolume(lots: seq<Lot>, sym: Symbol)
    requires lots != [] && NoOversell(lots[..|lots| - 1])
    requires Volume(lots, lots[|lots| - 1].symbol, Side.Sell) <= Volume(lots, lots[|lots| - 1].symbol, Buy)
    ensures Volume(lots, sym, Side.Sell) <= Volume(lots, sym, Buy)
  {
    var init := lots[..|lots| - 1];
    assert init[..|init|] == init;
  }

  /** All purchases of a symbol, in order. */
  function Purchases(lots: seq<Lot>, sym: Symbol): seq<Layer> {
    if lots == [] then []
    else
      var x := lots[|lots| - 1];
      Purchases(lots[..|lots| - 1], sym) + if x.symbol == sym && x.side == Buy then [Layer(x.qty, x.price)] else []
  }

  lemma {:induction false} SharesAppend(ls: seq<Layer>, x: Layer)
    ensures Shares(ls + [x]) == Shares(ls) + x.qty
    decreases |ls|
  {
    if ls != [] {
      assert (ls + [x])[1..] == ls[1..] + [x];
      SharesAppend(ls[1..], x);
    } else {
      assert [x][1..] == [];
    }
  }

  lemma {:induction false} DropAppend(ls: seq<Layer>, qty: real, x: Layer)
    requires Positive(ls) && 0.0 <= qty <= Shares(ls) && x.qty > 0.0
    ensures Drop(ls + [x], qty) == Drop(ls, qty) + [x]
    decreases |ls|
  {
    if ls == [] || qty == 0.0 {}
    else {
      assert (ls + [x])[1..] == ls[1..] + [x];
      if ls[0].qty <= qty { DropAppend(ls[1..], qty - ls[0].qty, x); }
    }
  }

  lemma {:induction false} DropTwice(ls: seq<Layer>, a: real, b: real)
    requires Positive(ls) && 0.0 <= a && 0.0 <= b
    ensures Drop(Drop(ls, a), b) == Drop(ls, a + b)
    decreases |ls|
  {
    if ls != [] && a > 0.0 {
      if ls[0].qty <= a { DropTwice(ls[1..], a - ls[0].qty, b); }
      else {
        var r := Drop(ls, a);
        assert r[1..] == ls[1..];
      }
    }
  }

  /** The stock of a symbol, and what is on the books as bought and sold. */
  ghost predicate StockOf(lots: seq<Lot>, sym: Symbol) {
    var q, bought, sold := Tallied(lots).Queue(sym), Volume(lots, sym, Buy), Volume(lots, sym, Side.Sell);
    && Positive(q) && Positive(Purchases(lots, sym)) && Shares(Purchases(lots, sym)) == bought && 0.0 <= sold
    && q == Drop(Purchases(lots, sym), sold) && Shares(q) == bought - sold
  }

  /** A purchase joins the back of stock and purchases alike. */
  lemma StockBought(q: seq<Layer>, bought: seq<Layer>, sold: real, l: Layer)
    requires Positive(bought) && Positive(q) && 0.0 <= sold && q == Drop(bought, sold) &&
      Shares(q) == Shares(bought) - sold && l.qty > 0.0
    ensures Positive(bought + [l]) && Positive(q + [l]) && q + [l] == Drop(bought + [l], sold)
    ensures Shares(q + [l]) == Shares(bought + [l]) - sold && Shares(bought + [l]) == Shares(bought) + l.qty
  {
    hide *;
    SharesPositive(q);
    SharesAppend(bought, l);
    SharesAppend(q, l);
    DropAppend(bought, sold, l);
    PositiveAppend(q, l);
    PositiveAppend(bought, l);
  }

  /** A covered sale takes its quantity off the front of both. */
  lemma StockSold(q: seq<Layer>, bought: seq<Layer>, sold: real, qty: real, price: real)
    requires Positive(bought) && Positive(q) && 0.0 <= sold && q == Drop(bought, sold) &&
      Shares(q) == Shares(bought) - sold
    requires 0.0 < qty <= Shares(q)
    ensures var q' := Sell(q, qty, price).queue;
      Positive(q') && q' == Drop(bought, sold + qty) && Shares(q') == Shares(bought) - (sold + qty)
  {
    hide *;
    SaleBooks(q, qty, price);
    DropTwice(bought, sold, qty);
    CoveredSale(q, qty, price);
  }

  /** What one more trade adds to volumes and purchases. */
  lemma OneMoreTrade(init: seq<Lot>, x: Lot, sym: Symbol)
    ensures Volume(init + [x], sym, Buy)
      == Volume(init, sym, Buy) + if x.symbol == sym && x.side == Buy then x.qty else 0.0
    ensures Volume(init + [x], sym, Side.Sell)
      == Volume(init, sym, Side.Sell) + if x.symbol == sym && x.side == Side.Sell then x.qty else 0.0
    ensures Purchases(init + [x], sym) ==
      if x.symbol == sym && x.side == Buy then Purchases(init, sym) + [Layer(x.qty, x.price)] else Purchases(init, sym)
  {
    assert (init + [x])[..|init|] == init && Purchases(init, sym) + [] == Purchases(init, sym);
  }

  lemma StockOfStep(init: seq<Lot>, x: Lot, sym: Symbol)
    requires StockOf(init, sym) && x.qty > 0.0
    requires x.symbol == sym && x.side == Side.Sell ==> x.qty <= Shares(Tallied(init).Queue(sym))
    ensures StockOf(init + [x], sym)
  {
    hide Sell, Drop, Shares, Positive, Tallied, Record, Purchases, Volume;
    var q, bought, sold := Tallied(init).Queue(sym), Purchases(init, sym), Volume(init, sym, Side.Sell);
    OneMoreTrade(init, x, sym);
    RecordQueue(Tallied(init), x, sym);
    TalliedAppend(init, x);
    if x.symbol == sym {
      if x.side == Buy { StockBought(q, bought, sold, Layer(x.qty, x.price)); }
      else { StockSold(q, bought, sold, x.qty, x.price); }
    }
  }

  lemma PositiveAppend(ls: seq<Layer>, x: Layer)
    requires Positive(ls) && x.qty > 0.0
    ensures Positive(ls + [x])
  {
  }

  /** A trade changes the queue of its own symbol. */
  lemma RecordQueue(t: Tally, x: Lot, sym: Symbol)
    ensures Record(t, x).Queue(sym) ==
      if x.symbol != sym then t.Queue(sym)
      else if x.side == Buy then t.Queue(sym) + [Layer(x.qty, x.price)]
      else Sell(t.Queue(sym), x.qty, x.price).queue
  {
  }

  /** A sale is covered exactly when there are enough shares in the queue. */
  lemma CoveredSale(queue: seq<Layer>, qty: real, price: real)
    requires Positive(queue) && 0.0 <= qty
    ensures 0.0 <= Sell(queue, qty, price).left
    ensures Sell(queue, qty, price).left == 0.0 <==> qty <= Shares(queue)
  {
    SaleBooks(queue, qty, price);
    SharesPositive(Sell(queue, qty, price).queue);
    hide Sell, Drop, Positive;
  }

  /**
   * As long as nothing is oversold, what is left of a symbol is its purchases in order, with exactly the quantity
   * sold taken off the front, however the trades of different symbols are interleaved.
   */
  lemma {:induction false} StockIsFifo(lots: seq<Lot>, sym: Symbol)
    requires Traded(lots) && NoOversell(lots)
    ensures StockOf(lots, sym)
  {
    if lots == [] {}
    else {
      var init, x := lots[..|lots| - 1], lots[|lots| - 1];
      assert lots == init + [x];
      NoOversellLast(lots);
      StockIsFifo(init, sym);
      StockIsFifo(init, x.symbol);
      SaleCovered(lots);
      StockOfStep(init, x, sym);
    }
  }

  lemma SaleCovered(lots: seq<Lot>)
    requires lots != [] && Traded(lots) && StockOf(lots[..|lots| - 1], lots[|lots| - 1].symbol)
    ensures var x := lots[|lots| - 1];
      x.side == Side.Sell ==>
        (x.qty <= Shares(Tallied(lots[..|lots| - 1]).Queue(x.symbol)) <==>
         Volume(lots, x.symbol, Side.Sell) <= Volume(lots, x.symbol, Buy))
  {
  }

  lemma CostSign(qty: real, price: real)
    requires qty >= 0.0 && price >= 0.0
    ensures Cost(qty, price) >= 0.0 && (Cost(qty, price) == 0.0 <==> qty == 0.0 || price == 0.0)
  {
    if qty > 0.0 && price > 0.0 { assert qty * price > 0.0; }
  }

  /** The trade finds in stock all it sells. */
  predicate Covered(lots: seq<Lot>, k: nat)
    requires k < |lots|
  {
    lots[k].side == Side.Sell ==> lots[k].qty <= Shares(Tallied(lots[..k]).Queue(lots[k].symbol))
  }

  /** Every sale is covered exactly when nothing is ever oversold. */
  lemma {:induction false} CoveredWhen(lots: seq<Lot>)
    requires Traded(lots)
    ensures NoOversell(lots) <==> forall k :: 0 <= k < |lots| ==> Covered(lots, k)
  {
    hide NoOversell, Shares, Tallied, StockOf;
    if lots == [] {
      NothingOversold(lots);
    } else {
      var n := |lots| - 1;
      var init, x := lots[..n], lots[n];
      assert forall k :: 0 <= k < n ==> lots[..k] == init[..k];
      CoveredWhen(init);
      NoOversellLast(lots);
      assert (forall k :: 0 <= k < |lots| ==> Covered(lots, k)) <==>
        (forall k :: 0 <= k < n ==> Covered(init, k)) && Covered(lots, n) by {
        assert forall k :: 0 <= k < n ==> (Covered(lots, k) <==> Covered(init, k));
      }
      if NoOversell(init) {
        StockIsFifo(init, x.symbol);
        SaleCovered(lots);
        if x.side == Buy { BuyCovers(lots); }
      }
    }
  }

  lemma NothingOversold(lots: seq<Lot>)
    requires lots == []
    ensures NoOversell(lots)
  {
    assert lots[..0] == [];
  }

  predicate NoNegativeSale(lots: seq<Lot>) {
    forall i :: 0 <= i < |lots| && lots[i].side == Side.Sell ==> lots[i].price >= 0.0
  }

  /** Every sale for money is covered. */
  predicate PaidSalesCovered(lots: seq<Lot>) {
    forall k :: 0 <= k < |lots| && lots[k].price != 0.0 ==> Covered(lots, k)
  }

  /** Nothing goes unbooked exactly when every sale for money is covered. */
  lemma {:induction false} UnbookedWhen(lots: seq<Lot>)
    requires Traded(lots) && NoNegativeSale(lots)
    ensures Unbooked(lots) >= 0.0 && (Unbooked(lots) == 0.0 <==> PaidSalesCovered(lots))
  {
    hide Cost, Sell, Shares, Tallied;
    if lots != [] {
      var n := |lots| - 1;
      var init, x := lots[..n], lots[n];
      assert forall k :: 0 <= k < n ==> lots[..k] == init[..k];
      UnbookedWhen(init);
      assert PaidSalesCovered(lots) <==> PaidSalesCovered(init) && (x.price != 0.0 ==> Covered(lots, n)) by {
        assert forall k :: 0 <= k < n ==> (Covered(lots, k) <==> Covered(init, k));
      }
      LastUnbooked(init, x);
    }
  }

  lemma LastUnbooked(init: seq<Lot>, x: Lot)
    requires Traded(init) && x.qty > 0.0 && (x.side == Side.Sell ==> x.price >= 0.0)
    ensures var cost := Cost(Uncovered(Tallied(init), x), x.price);
      cost >= 0.0 && (cost == 0.0 <==>
        x.price == 0.0 || x.side == Buy || x.qty <= Shares(Tallied(init).Queue(x.symbol)))
  {
    ProfitIdentity(init);
    hide Cost, Sell, Shares, Tallied;
    var q := Tallied(init).Queue(x.symbol);
    assert Positive(q);
    CoveredSale(q, x.qty, x.price);
    if x.side == Buy { ZeroCost(x.price); } else { CostSign(Uncovered(Tallied(init), x), x.price); }
  }

  lemma BuyCovers(lots: seq<Lot>)
    requires lots != [] && Traded(lots) && lots[|lots| - 1].side == Buy && NoOversell(lots[..|lots| - 1])
    ensures var sym := lots[|lots| - 1].symbol; Volume(lots, sym, Side.Sell) <= Volume(lots, sym, Buy)
  {
    var init := lots[..|lots| - 1];
    assert init[..|init|] == init;
  }

  /** The books of these trades balance without a remainder. */
  ghost predicate Balances(lots: seq<Lot>) {
    Tallied(lots).realized == Paid(lots, Side.Sell) - Paid(lots, Buy) + Stock(Tallied(lots))
  }

  /** Whatever the prices: if nothing is oversold, profit is proceeds less purchases plus the cost of the stock left. */
  lemma {:induction false} NoOversellBalances(lots: seq<Lot>)
    requires Traded(lots) && NoOversell(lots)
    ensures Balances(lots)
  {
    ProfitIdentity(lots);
    CoveredWhen(lots);
    hide NoOversell, Tallied, Unbooked, Paid, Stock;
    NothingUnbooked(lots);
  }

  lemma {:induction false} NothingUnbooked(lots: seq<Lot>)
    requires Traded(lots) && forall k :: 0 <= k < |lots| ==> Covered(lots, k)
    ensures Unbooked(lots) == 0.0
  {
    hide Cost, Sell, Shares, Tallied;
    if lots != [] {
      var n := |lots| - 1;
      var init, x := lots[..n], lots[n];
      assert forall k :: 0 <= k < n ==> lots[..k] == init[..k] && Covered(lots, k);
      NothingUnbooked(init);
      ProfitIdentity(init);
      var q := Tallied(init).Queue(x.symbol);
      assert Positive(q) && Covered(lots, n);
      CoveredSale(q, x.qty, x.price);
      ZeroCost(x.price);
    }
  }

  /**
   * Without sales at negative prices the books balance if and only if every sale for money found its shares in stock. A
   * sale for nothing balances whether it is covered or not.
   */
  lemma {:induction false} ProfitUnlessNegative(lots: seq<Lot>)
    requires Traded(lots) && NoNegativeSale(lots)
    ensures Balances(lots) <==> PaidSalesCovered(lots)
  {
    ProfitIdentity(lots);
    UnbookedWhen(lots);
    hide PaidSalesCovered, Tallied, Unbooked, Paid, Stock;
  }

  /** If every sale is for money, the books balance if and only if nothing is ever oversold. */
  lemma {:induction false} ProfitWhenPaid(lots: seq<Lot>)
    requires Traded(lots) && forall i :: 0 <= i < |lots| && lots[i].side == Side.Sell ==> lots[i].price > 0.0
    ensures Balances(lots) <==> NoOversell(lots)
  {
    hide Balances, NoOversell, Tallied;
    ProfitUnlessNegative(lots);
    CoveredWhen(lots);
  }

  /** A share sold that was never bought: the books do not balance. */
  lemma SoldFirst()
    ensures var lots := [Lot("x", Side.Sell, 1.0, 1.0)];
      Traded(lots) && NoNegativeSale(lots) && !PaidSalesCovered(lots) && !Balances(lots)
  {
    var lots := [Lot("x", Side.Sell, 1.0, 1.0)];
    assert lots[..0] == [] && Shares(Tallied(lots[..0]).Queue("x")) == 0.0;
    assert !Covered(lots, 0);
    ProfitUnlessNegative(lots);
  }

  // ---------- symbol by symbol ----------

  /** The trades of one symbol. */
  function Only(lots: seq<Lot>, sym: Symbol): seq<Lot> {
    if lots == [] then []
    else
      var x := lots[|lots| - 1];
      Only(lots[..|lots| - 1], sym) + if x.symbol == sym then [x] else []
  }

  function Symbols(lots: seq<Lot>): set<Symbol> { set x | x in lots :: x.symbol }

  ghost function Profits(lots: seq<Lot>): map<Symbol, real> {
    map sym | sym in Symbols(lots) :: Tallied(Only(lots, sym)).realized
  }

  lemma TalliedAppend(lots: seq<Lot>, x: Lot)
    ensures Tallied(lots + [x]) == Record(Tallied(lots), x)
  {
    assert (lots + [x])[..|lots|] == lots;
  }

  /** A symbol's queue does not depend on the trades of the others. */
  lemma {:induction false} QueueOfOne(lots: seq<Lot>, sym: Symbol)
    ensures Tallied(lots).Queue(sym) == Tallied(Only(lots, sym)).Queue(sym)
    ensures sym !in Symbols(lots) ==> Only(lots, sym) == []
  {
    if lots != [] {
      var init, x := lots[..|lots| - 1], lots[|lots| - 1];
      assert lots == init + [x];
      QueueOfOne(init, sym);
      TalliedAppend(Only(init, sym), x);
      assert Only(init, sym) + [] == Only(init, sym);
      hide Sell;
    }
  }

  /** The result of interleaved trades is the sum of the results symbol by symbol. */
  lemma {:induction false} ProfitBySymbol(lots: seq<Lot>)
    ensures Tallied(lots).realized == MapSum(Profits(lots))
  {
    if lots == [] {
      assert Profits(lots) == map[];
    } else {
      hide *;
      var init, x := lots[..|lots| - 1], lots[|lots| - 1];
      assert lots == init + [x];
      ProfitBySymbol(init);
      QueueOfOne(init, x.symbol);
      TalliedAppend(Only(init, x.symbol), x);
      TalliedAppend(init, x);
      OnlyAppend(init, x);
      RecordAdds(Tallied(init), Tallied(Only(init, x.symbol)), x);
      MapSumSet(Profits(init), x.symbol, Tallied(Only(lots, x.symbol)).realized);
      ProfitsStep(init, x);
      ProfitsOf(init, x.symbol);
    }
  }

  lemma RecordAdds(t: Tally, u: Tally, x: Lot)
    requires t.Queue(x.symbol) == u.Queue(x.symbol)
    ensures Record(t, x).realized - t.realized == Record(u, x).realized - u.realized
  {
    hide Sell;
  }

  lemma ProfitsOf(lots: seq<Lot>, sym: Symbol)
    ensures (if sym in Profits(lots) then Profits(lots)[sym] else 0.0) == Tallied(Only(lots, sym)).realized
  {
    if sym !in Profits(lots) { QueueOfOne(lots, sym); }
  }

  lemma OnlyAppend(init: seq<Lot>, x: Lot)
    ensures Only(init + [x], x.symbol) == Only(init, x.symbol) + [x]
  {
    assert (init + [x])[..|init|] == init;
  }

  lemma {:induction false} ProfitsStep(init: seq<Lot>, x: Lot)
    ensures var lots := init + [x]; Profits(lots) == Profits(init)[x.symbol := Tallied(Only(lots, x.symbol)).realized]
  {
    var lots := init + [x];
    hide Tallied;
    assert Symbols(lots) == Symbols(init) + {x.symbol};
    forall sym | sym in Symbols(init) && sym != x.symbol ensures Only(lots, sym) == Only(init, sym) {
      assert lots[..|lots| - 1] == init && Only(init, sym) + [] == Only(init, sym);
    }
  }
}
