/** Wins and losses without the queues: purchases and sales matched first in, first out by cumulative volume. */
module WinsAndLosses {
  import opened Domain
  import opened Sums
  import opened RealizedPnl
  import opened ShortSales

  // ---------- matches ----------

  /** How many shares of a symbol were delivered: all that were sold, but for those sold short. */
  function Delivered(lots: seq<Lot>, sym: Symbol): real { Volume(lots, sym, Side.Sell) - Short(lots, sym) }

  /** Two stretches of shares have some in common. */
  predicate Overlap(a: real, b: real, c: real, d: real) { Max(a, c) < Min(b, d) }

  /**
   * Purchase i is matched with sale j: counting the shares of the symbol in order, some that came with the purchase
   * went with the sale.
   */
  predicate Matched(lots: seq<Lot>, i: nat, j: nat)
    requires i < j < |lots|
  {
    var sym := lots[j].symbol;
    && lots[i].side == Buy && lots[j].side == Side.Sell && lots[i].symbol == sym
    && Overlap(Volume(lots[..i], sym, Buy), Volume(lots[..i + 1], sym, Buy),
               Delivered(lots[..j], sym), Delivered(lots[..j + 1], sym))
  }

  datatype Kind = Win | Loss | Even

  predicate Is(kind: Kind, bought: real, sold: real) {
    match kind
    case Win => sold > bought
    case Loss => sold < bought
    case Even => sold == bought
  }

  predicate MatchedAs(lots: seq<Lot>, i: nat, j: nat, kind: Kind) {
    i < j < |lots| && Matched(lots, i, j) && Is(kind, lots[i].price, lots[j].price)
  }

  /** All pairs of a purchase and a sale that are matched. */
  ghost function Matches(lots: seq<Lot>): set<(nat, nat)> {
    set i: nat, j: nat | i < j < |lots| && Matched(lots, i, j) :: (i, j)
  }

  ghost function MatchesOf(lots: seq<Lot>, kind: Kind): set<(nat, nat)> {
    set i: nat, j: nat | i < j < |lots| && MatchedAs(lots, i, j, kind) :: (i, j)
  }

  // ---------- one sale against the purchases in order ----------

  function One(b: bool): nat { if b then 1 else 0 }

  /** The purchases, laid end to end from a point on, that share something with a stretch and are of a kind. */
  function Count(ls: seq<Layer>, at: real, from: real, to: real, price: real, kind: Kind): nat {
    if ls == [] then 0
    else
      var next := at + ls[0].qty;
      One(Overlap(at, next, from, to) && Is(kind, ls[0].price, price)) + Count(ls[1..], next, from, to, price, kind)
  }

  lemma {:induction false} CountAppend(ls: seq<Layer>, l: Layer, at: real, from: real, to: real, price: real,
                                       kind: Kind)
    ensures var end := at + Shares(ls);
      Count(ls + [l], at, from, to, price, kind) ==
        Count(ls, at, from, to, price, kind) + One(Overlap(end, end + l.qty, from, to) && Is(kind, l.price, price))
    decreases |ls|
  {
    if ls == [] {
      assert [l][1..] == [];
    } else {
      assert (ls + [l])[1..] == ls[1..] + [l];
      CountAppend(ls[1..], l, at + ls[0].qty, from, to, price, kind);
    }
  }

  /** Nothing lies on a stretch that is empty or over. */
  lemma {:induction false} CountNothing(ls: seq<Layer>, at: real, from: real, to: real, price: real, kind: Kind)
    requires Positive(ls) && (to <= at || to <= from)
    ensures Count(ls, at, from, to, price, kind) == 0
    decreases |ls|
  {
    if ls != [] { CountNothing(ls[1..], at + ls[0].qty, from, to, price, kind); }
  }

  /** Where a stretch begins does not matter to what comes later. */
  lemma {:induction false} CountFrom(ls: seq<Layer>, at: real, from: real, to: real, price: real, kind: Kind)
    requires Positive(ls) && from <= at
    ensures Count(ls, at, from, to, price, kind) == Count(ls, at, at, to, price, kind)
    decreases |ls|
  {
    if ls != [] {
      var next := at + ls[0].qty;
      CountFrom(ls[1..], next, from, to, price, kind);
      CountFrom(ls[1..], next, at, to, price, kind);
    }
  }

  /** The wins or the losses a sale books. */
  function Booked(s: Sale, kind: Kind): nat { if kind == Win then s.wins else s.losses }

  lemma {:induction false} GainSign(qty: real, price: real, bought: real)
    requires qty > 0.0
    ensures Gain(qty, price, bought) > 0.0 <==> Is(Win, bought, price)
    ensures Gain(qty, price, bought) < 0.0 <==> Is(Loss, bought, price)
  {
  }

  /** A sale books what the purchases on its stretch make it book. */
  lemma {:induction false} SaleCounts(ls: seq<Layer>, at: real, from: real, qty: real, price: real, kind: Kind)
    requires Positive(ls) && at <= from && qty >= 0.0 && kind != Even
    ensures var s := RealizedPnl.Sell(Drop(ls, from - at), qty, price);
      Booked(s, kind) == Count(ls, at, from, from + (qty - s.left), price, kind)
    decreases |ls|
  {
    hide RealizedPnl.Sell;
    if ls == [] || qty == 0.0 {
      SellNothing(Drop(ls, from - at), qty, price);
      CountNothing(ls, at, from, from, price, kind);
    } else if ls[0].qty <= from - at {
      SaleCounts(ls[1..], at + ls[0].qty, from, qty, price, kind);
    } else {
      hide Drop, Count, Booked;
      FrontCounts(ls, at, from, qty, price, kind);
      if at + ls[0].qty - from <= qty {
        SaleCounts(ls[1..], at + ls[0].qty, at + ls[0].qty, qty - (at + ls[0].qty - from), price, kind);
      }
    }
  }

  /** The purchase a sale begins with, and what is left to sell then. */
  lemma {:induction false} FrontCounts(ls: seq<Layer>, at: real, from: real, qty: real, price: real, kind: Kind)
    requires Positive(ls) && ls != [] && at <= from < at + ls[0].qty && qty > 0.0 && kind != Even
    ensures Drop(ls[1..], 0.0) == ls[1..]
    ensures var s, next := RealizedPnl.Sell(Drop(ls, from - at), qty, price), at + ls[0].qty;
      var to := from + (qty - s.left);
      if next - from <= qty then
        var r := RealizedPnl.Sell(ls[1..], qty - (next - from), price);
        && s.left == r.left && Booked(s, kind) == Booked(r, kind) + One(Is(kind, ls[0].price, price))
        && Count(ls, at, from, to, price, kind)
           == One(Is(kind, ls[0].price, price)) + Count(ls[1..], next, next, to, price, kind)
      else Booked(s, kind) == Count(ls, at, from, to, price, kind)
  {
    hide RealizedPnl.Sell;
    var next := at + ls[0].qty;
    var top := Layer(next - from, ls[0].price);
    var rest := [top] + ls[1..];
    FrontLeft(ls, from - at);
    hide Drop;
    SellOneLayer(rest, qty, price);
    GainSign(Min(qty, top.qty), price, top.price);
    hide Gain;
    if top.qty <= qty {
      SaleBooks(ls[1..], qty - top.qty, price);
      CountFrom(ls[1..], next, from, from + (qty - RealizedPnl.Sell(rest, qty, price).left), price, kind);
    } else {
      SellNothing([Layer(top.qty - qty, top.price)] + ls[1..], 0.0, price);
      CountNothing(ls[1..], next, from, from + qty, price, kind);
    }
  }

  lemma {:induction false} FrontLeft(ls: seq<Layer>, qty: real)
    requires ls != [] && 0.0 <= qty < ls[0].qty
    ensures Drop(ls, qty) == [Layer(ls[0].qty - qty, ls[0].price)] + ls[1..] && Drop(ls[1..], 0.0) == ls[1..]
  {
    assert qty == 0.0 ==> [Layer(ls[0].qty, ls[0].price)] + ls[1..] == ls;
  }

  // ---------- a whole list ----------

  /** The first so many purchases, as far as they are matched with a sale and are of a kind. */
  ghost function MatchedWith(lots: seq<Lot>, k: nat, j: nat, kind: Kind): set<nat> {
    set i: nat | i < k && MatchedAs(lots, i, j, kind)
  }

  lemma {:induction false} MatchedWithCounts(lots: seq<Lot>, k: nat, j: nat, kind: Kind)
    requires k <= j < |lots| && Traded(lots) && lots[j].side == Side.Sell
    ensures var sym := lots[j].symbol;
      |MatchedWith(lots, k, j, kind)| == Count(Purchases(lots[..k], sym), 0.0, Delivered(lots[..j], sym),
                                               Delivered(lots[..j + 1], sym), lots[j].price, kind)
  {
    hide *;
    if k == 0 {
      NothingMatched(lots, j, kind);
    } else {
      MatchedWithCounts(lots, k - 1, j, kind);
      OneMoreMatched(lots, k - 1, j, kind);
      OneMoreCounted(lots, k - 1, j, kind);
    }
  }

  lemma {:induction false} NothingMatched(lots: seq<Lot>, j: nat, kind: Kind)
    requires j < |lots|
    ensures |MatchedWith(lots, 0, j, kind)| == 0
    ensures Purchases(lots[..0], lots[j].symbol) == []
    ensures forall at: real, from: real, to: real :: Count([], at, from, to, lots[j].price, kind) == 0
  {
    assert MatchedWith(lots, 0, j, kind) == {};
  }

  lemma {:induction false} OneMoreMatched(lots: seq<Lot>, i: nat, j: nat, kind: Kind)
    ensures |MatchedWith(lots, i + 1, j, kind)| == |MatchedWith(lots, i, j, kind)| + One(MatchedAs(lots, i, j, kind))
  {
    hide MatchedAs;
    var before, after := MatchedWith(lots, i, j, kind), MatchedWith(lots, i + 1, j, kind);
    if MatchedAs(lots, i, j, kind) {
      assert after == before + {i};
    } else {
      assert after == before;
    }
  }

  lemma {:induction false} OneMoreCounted(lots: seq<Lot>, i: nat, j: nat, kind: Kind)
    requires i < j < |lots| && Traded(lots) && lots[j].side == Side.Sell
    ensures var sym, price := lots[j].symbol, lots[j].price;
      var from, to := Delivered(lots[..j], sym), Delivered(lots[..j + 1], sym);
      Count(Purchases(lots[..i + 1], sym), 0.0, from, to, price, kind)
        == Count(Purchases(lots[..i], sym), 0.0, from, to, price, kind) + One(MatchedAs(lots, i, j, kind))
  {
    hide Volume, Purchases, Delivered, Overlap, Is, Shares, Count;
    var sym := lots[j].symbol;
    var from, to := Delivered(lots[..j], sym), Delivered(lots[..j + 1], sym);
    OneMorePurchase(lots[..i], lots[i], sym);
    assert lots[..i + 1] == lots[..i] + [lots[i]];
    CountAppend(Purchases(lots[..i], sym), Layer(lots[i].qty, lots[i].price), 0.0, from, to, lots[j].price, kind);
    assert Purchases(lots[..i], sym) + [] == Purchases(lots[..i], sym);
  }

  /** Purchases laid end to end end at the volume bought. */
  lemma {:induction false} OneMorePurchase(init: seq<Lot>, x: Lot, sym: Symbol)
    requires Traded(init)
    ensures Shares(Purchases(init, sym)) == Volume(init, sym, Buy)
    ensures Volume(init + [x], sym, Buy)
      == Volume(init, sym, Buy) + if x.symbol == sym && x.side == Buy then x.qty else 0.0
    ensures Purchases(init + [x], sym)
      == Purchases(init, sym) + if x.symbol == sym && x.side == Buy then [Layer(x.qty, x.price)] else []
  {
    StockIsPurchasesLessSales(init, sym);
    assert (init + [x])[..|init|] == init;
  }

  /** Appending a trade matches it with purchases before it, and leaves all other matches as they are. */
  lemma {:induction false} MatchesStep(init: seq<Lot>, x: Lot, kind: Kind)
    ensures |MatchesOf(init + [x], kind)|
      == |MatchesOf(init, kind)| + |MatchedWith(init + [x], |init|, |init|, kind)|
  {
    var lots, n := init + [x], |init|;
    forall i: nat, j: nat | i < j < n ensures MatchedAs(lots, i, j, kind) <==> MatchedAs(init, i, j, kind) {
      EarlierMatch(init, x, i, j);
    }
    MatchesSplit(lots, init, kind);
    Paired(MatchedWith(lots, n, n, kind), n);
  }

  lemma {:induction false} MatchesSplit(lots: seq<Lot>, init: seq<Lot>, kind: Kind)
    requires |lots| == |init| + 1
    requires forall i: nat, j: nat | i < j < |init| :: MatchedAs(lots, i, j, kind) <==> MatchedAs(init, i, j, kind)
    ensures var n := |init|;
      |MatchesOf(lots, kind)| == |MatchesOf(init, kind)| + |PairedWith(MatchedWith(lots, n, n, kind), n)|
  {
    hide MatchedAs;
    var n := |init|;
    var before, after := MatchesOf(init, kind), MatchesOf(lots, kind);
    var last := PairedWith(MatchedWith(lots, n, n, kind), n);
    forall p ensures p in after <==> p in before || p in last {
      var (i, j) := p;
      assert p in last <==> j == n && i < n && MatchedAs(lots, i, n, kind);
    }
    assert after == before + last;
    assert before !! last;
  }

  lemma {:induction false} EarlierMatch(init: seq<Lot>, x: Lot, i: nat, j: nat)
    requires i < j < |init|
    ensures Matched(init + [x], i, j) <==> Matched(init, i, j)
  {
    var lots := init + [x];
    assert lots[..i] == init[..i] && lots[..i + 1] == init[..i + 1];
    assert lots[..j] == init[..j] && lots[..j + 1] == init[..j + 1];
  }

  ghost function PairedWith(s: set<nat>, j: nat): set<(nat, nat)> { set i | i in s :: (i, j) }

  lemma {:induction false} Paired(s: set<nat>, j: nat)
    ensures |PairedWith(s, j)| == |s|
  {
    if s != {} {
      var i :| i in s;
      Paired(s - {i}, j);
      assert PairedWith(s, j) == PairedWith(s - {i}, j) + {(i, j)};
    }
  }

  function Counted(t: Tally, kind: Kind): nat { if kind == Win then t.wins else t.losses }

  /** What a trade adds to the wins or losses. */
  lemma {:induction false} RecordCounts(t: Tally, x: Lot, kind: Kind)
    ensures Counted(Record(t, x), kind) == Counted(t, kind) +
      if x.side == Buy then 0 else Booked(RealizedPnl.Sell(t.Queue(x.symbol), x.qty, x.price), kind)
  {
    hide RealizedPnl.Sell;
  }

  lemma {:induction false} LastCounts(init: seq<Lot>, x: Lot, kind: Kind)
    requires Traded(init) && x.qty > 0.0 && kind != Even
    ensures Counted(Tallied(init + [x]), kind)
      == Counted(Tallied(init), kind) + |MatchedWith(init + [x], |init|, |init|, kind)|
  {
    var lots, n, sym := init + [x], |init|, x.symbol;
    hide *;
    TalliedAppend(init, x);
    RecordCounts(Tallied(init), x, kind);
    if x.side == Buy {
      NotASale(lots, n, kind);
    } else {
      SaleDelivers(init, x);
      SaleCounts(Purchases(init, sym), 0.0, Delivered(init, sym), x.qty, x.price, kind);
      assert lots[..n] == init && lots[..n + 1] == lots;
      TradedStill(init, x);
      MatchedWithCounts(lots, n, n, kind);
    }
  }

  lemma {:induction false} TradedStill(init: seq<Lot>, x: Lot)
    requires Traded(init) && x.qty > 0.0
    ensures Traded(init + [x])
  {
  }

  lemma {:induction false} NotASale(lots: seq<Lot>, n: nat, kind: Kind)
    requires n < |lots| && lots[n].side == Buy
    ensures |MatchedWith(lots, n, n, kind)| == 0
  {
    assert MatchedWith(lots, n, n, kind) == {};
  }

  /** The queue a sale meets, and how far it delivers. */
  lemma {:induction false} SaleDelivers(init: seq<Lot>, x: Lot)
    requires Traded(init) && x.qty > 0.0 && x.side == Side.Sell
    ensures var sym := x.symbol;
      var q, bought := Tallied(init).Queue(sym), Purchases(init, sym);
      && Positive(bought) && 0.0 <= Delivered(init, sym) && q == Drop(bought, Delivered(init, sym))
      && Delivered(init + [x], sym) == Delivered(init, sym) + (x.qty - RealizedPnl.Sell(q, x.qty, x.price).left)
  {
    hide RealizedPnl.Sell, Tallied, Record, Drop, Positive, Short, Shares, Purchases;
    StockIsPurchasesLessSales(init, x.symbol);
    ShortStockStep(init, x, x.symbol);
    assert (init + [x])[..|init|] == init;
  }

  /**
   * Wins are the pairs of a purchase and a later sale of the same shares, first in, first out, at a higher price;
   * losses are those at a lower price.
   */
  lemma {:induction false} WinsAreMatches(lots: seq<Lot>)
    requires Traded(lots)
    ensures Tallied(lots).wins == |MatchesOf(lots, Win)| && Tallied(lots).losses == |MatchesOf(lots, Loss)|
  {
    if lots == [] {
      assert MatchesOf(lots, Win) == {} && MatchesOf(lots, Loss) == {};
    } else {
      hide Tallied, MatchesOf;
      var init, x := lots[..|lots| - 1], lots[|lots| - 1];
      assert lots == init + [x];
      WinsAreMatches(init);
      LastCounts(init, x, Win);
      LastCounts(init, x, Loss);
      MatchesStep(init, x, Win);
      MatchesStep(init, x, Loss);
    }
  }

  /** Every match is a win or a loss, unless it is at the price of the purchase. */
  lemma {:induction false} MatchesAddUp(lots: seq<Lot>)
    requires Traded(lots)
    ensures Tallied(lots).wins + Tallied(lots).losses == |Matches(lots)| - |MatchesOf(lots, Even)|
  {
    WinsAreMatches(lots);
    KindsApart(lots);
    hide Matches, MatchesOf, Tallied;
  }

  lemma {:induction false} KindsApart(lots: seq<Lot>)
    ensures |Matches(lots)| == |MatchesOf(lots, Win)| + |MatchesOf(lots, Loss)| + |MatchesOf(lots, Even)|
  {
    KindsMeet(lots);
    hide *;
    var wins, losses, evens := MatchesOf(lots, Win), MatchesOf(lots, Loss), MatchesOf(lots, Even);
    assert |wins + losses| == |wins| + |losses|;
    assert |wins + losses + evens| == |wins + losses| + |evens|;
  }

  lemma {:induction false} KindsMeet(lots: seq<Lot>)
    ensures var wins, losses, evens := MatchesOf(lots, Win), MatchesOf(lots, Loss), MatchesOf(lots, Even);
      Matches(lots) == wins + losses + evens && wins !! losses && wins + losses !! evens
  {
    hide Matched;
    var wins, losses, evens := MatchesOf(lots, Win), MatchesOf(lots, Loss), MatchesOf(lots, Even);
    forall p ensures p in Matches(lots) <==> p in wins + losses + evens {
      var (i, j) := p;
      assert i < j < |lots| && Matched(lots, i, j) ==>
        MatchedAs(lots, i, j, Win) || MatchedAs(lots, i, j, Loss) || MatchedAs(lots, i, j, Even);
    }
  }

  // ---------- symbol by symbol ----------

  ghost function CountsBySymbol(lots: seq<Lot>, kind: Kind): map<Symbol, real> {
    map sym | sym in Symbols(lots) :: Counted(Tallied(Only(lots, sym)), kind) as real
  }

  /** Wins and losses of interleaved trades are the sums of those symbol by symbol. */
  lemma {:induction false} WinsBySymbol(lots: seq<Lot>)
    ensures Tallied(lots).wins as real == MapSum(CountsBySymbol(lots, Win))
    ensures Tallied(lots).losses as real == MapSum(CountsBySymbol(lots, Loss))
  {
    CountsAddUp(lots, Win);
    CountsAddUp(lots, Loss);
    hide Tallied, CountsBySymbol;
  }

  lemma {:induction false} CountsAddUp(lots: seq<Lot>, kind: Kind)
    requires kind != Even
    ensures Counted(Tallied(lots), kind) as real == MapSum(CountsBySymbol(lots, kind))
  {
    if lots == [] {
      assert CountsBySymbol(lots, kind) == map[];
    } else {
      hide *;
      var init, x := lots[..|lots| - 1], lots[|lots| - 1];
      assert lots == init + [x];
      CountsAddUp(init, kind);
      QueueOfOne(init, x.symbol);
      TalliedAppend(Only(init, x.symbol), x);
      TalliedAppend(init, x);
      OnlyAppend(init, x);
      RecordCounts(Tallied(init), x, kind);
      RecordCounts(Tallied(Only(init, x.symbol)), x, kind);
      MapSumSet(CountsBySymbol(init, kind), x.symbol, Counted(Tallied(Only(lots, x.symbol)), kind) as real);
      CountsStep(init, x, kind);
      CountsOf(init, x.symbol, kind);
    }
  }

  lemma {:induction false} CountsOf(lots: seq<Lot>, sym: Symbol, kind: Kind)
    ensures (if sym in CountsBySymbol(lots, kind) then CountsBySymbol(lots, kind)[sym] else 0.0)
      == Counted(Tallied(Only(lots, sym)), kind) as real
  {
    if sym !in CountsBySymbol(lots, kind) { QueueOfOne(lots, sym); }
  }

  lemma {:induction false} CountsStep(init: seq<Lot>, x: Lot, kind: Kind)
    ensures var lots := init + [x];
      CountsBySymbol(lots, kind)
        == CountsBySymbol(init, kind)[x.symbol := Counted(Tallied(Only(lots, x.symbol)), kind) as real]
  {
    var lots := init + [x];
    hide Tallied;
    assert Symbols(lots) == Symbols(init) + {x.symbol};
    forall sym | sym in Symbols(init) && sym != x.symbol ensures Only(lots, sym) == Only(init, sym) {
      assert lots[..|lots| - 1] == init && Only(init, sym) + [] == Only(init, sym);
    }
  }
}
