/** The depth of a book: its entries gathered by price. */
module Depths {
  import opened Domain
  import opened PriceTime
  import opened Matching
  import opened Exchange
  import opened Matchers

  datatype Level = Level(price: real, qty: real, count: nat)

  function QtyAt(es: seq<BookEntry>, price: real): real {
    if es == [] then 0.0
    else QtyAt(es[..|es| - 1], price) + if es[|es| - 1].price == price then es[|es| - 1].qty else 0.0
  }

  function CountAt(es: seq<BookEntry>, price: real): nat {
    if es == [] then 0
    else CountAt(es[..|es| - 1], price) + if es[|es| - 1].price == price then 1 else 0
  }

  predicate Better(side: Side, p: real, q: real) { if side == Buy then p > q else p < q }

  predicate BestFirst(side: Side, prices: seq<real>) {
    forall i, j :: 0 <= i < j < |prices| ==> Better(side, prices[i], prices[j])
  }

  predicate LevelFor(es: seq<BookEntry>, l: Level) {
    l.qty == QtyAt(es, l.price) && l.count == CountAt(es, l.price) && l.count > 0
  }

  /** Levels best first, one for each price that is quoted, with the quantity and the number of orders at that price. */
  predicate IsDepth(side: Side, es: seq<BookEntry>, levels: seq<Level>) {
    && (forall i, j :: 0 <= i < j < |levels| ==> Better(side, levels[i].price, levels[j].price))
    && (forall l :: l in levels ==> LevelFor(es, l))
    && forall e :: e in es ==> exists l :: l in levels && l.price == e.price
  }

  lemma {:induction false} CountedMeansThere(es: seq<BookEntry>, price: real)
    ensures CountAt(es, price) > 0 <==> exists e :: e in es && e.price == price
  {
    if es != [] {
      var init, last := es[..|es| - 1], es[|es| - 1];
      assert es == init + [last];
      CountedMeansThere(init, price);
      if CountAt(es, price) > 0 && CountAt(init, price) == 0 { assert last in es; }
    }
  }

  /** In a sorted side, a price not seen so far is worse than all seen so far. */
  lemma NewPriceIsWorse(side: Side, es: seq<BookEntry>, i: nat, k: nat)
    requires SideOk(side, es) && k < i < |es| && es[k].price != es[i].price
    ensures Better(side, es[k].price, es[i].price)
  {
    assert es[k] in es && es[i] in es && !Before(es[i], es[k]);
  }

  /** Prices seen so far, best first, with what was gathered at each. */
  ghost predicate Gathered(side: Side, es: seq<BookEntry>, order: seq<real>, qtys: map<real, real>,
                           counts: map<real, nat>) {
    && BestFirst(side, order)
    && (forall p :: p in order <==> p in qtys) && (forall p :: p in order <==> p in counts)
    && (forall p :: p in order <==> CountAt(es, p) > 0)
    && (forall p :: p in order ==> qtys[p] == QtyAt(es, p) && counts[p] == CountAt(es, p))
  }

  lemma {:induction false} NothingThere(es: seq<BookEntry>, price: real)
    requires CountAt(es, price) == 0
    ensures QtyAt(es, price) == 0.0
  {
    if es != [] { NothingThere(es[..|es| - 1], price); }
  }

  lemma GatherNext(side: Side, es: seq<BookEntry>, i: nat, order: seq<real>, qtys: map<real, real>,
                   counts: map<real, nat>)
    requires SideOk(side, es) && i < |es| && Gathered(side, es[..i], order, qtys, counts)
    ensures var e := es[i];
      if e.price in qtys then
        && e.price in counts
        && Gathered(side, es[..i + 1], order, qtys[e.price := qtys[e.price] + e.qty],
                    counts[e.price := counts[e.price] + 1])
      else
        Gathered(side, es[..i + 1], order + [e.price], qtys[e.price := e.qty], counts[e.price := 1])
  {
    hide SideOk;
    var e := es[i];
    assert es[..i + 1][..i] == es[..i] && es[..i + 1][i] == e;
    hide SideOk;
    if e.price !in qtys {
      NothingThere(es[..i], e.price);
      forall p | p in order ensures Better(side, p, e.price) {
        CountedMeansThere(es[..i], p);
        var x :| x in es[..i] && x.price == p;
        var k :| 0 <= k < i && es[..i][k] == x;
        NewPriceIsWorse(side, es, i, k);
      }
    }
  }

  /** Go through a side once, opening a level at each new price. */
  method Aggregate(side: Side, es: seq<BookEntry>) returns (levels: seq<Level>)
    requires SideOk(side, es)
    ensures IsDepth(side, es, levels)
  {
    hide Gathered, SideOk, IsDepth;
    var order: seq<real>, qtys: map<real, real>, counts: map<real, nat> := [], map[], map[];
    NothingGathered(side);
    assert es[..0] == [];
    for i := 0 to |es|
      invariant Gathered(side, es[..i], order, qtys, counts)
    {
      var e := es[i];
      GatherNext(side, es, i, order, qtys, counts);
      if e.price !in qtys {
        order := order + [e.price];
        qtys, counts := qtys[e.price := 0.0 + e.qty], counts[e.price := 0 + 1];
      } else {
        qtys, counts := qtys[e.price := qtys[e.price] + e.qty], counts[e.price := counts[e.price] + 1];
      }
    }
    assert es[..|es|] == es;
    KeysGathered(side, es, order, qtys, counts);
    levels := seq(|order|, i requires 0 <= i < |order| => Level(order[i], qtys[order[i]], counts[order[i]]));
    GatheredIsDepth(side, es, order, qtys, counts, levels);
  }

  lemma NothingGathered(side: Side)
    ensures Gathered(side, [], [], map[], map[])
  {
  }

  lemma KeysGathered(side: Side, es: seq<BookEntry>, order: seq<real>, qtys: map<real, real>, counts: map<real, nat>)
    requires Gathered(side, es, order, qtys, counts)
    ensures forall i :: 0 <= i < |order| ==> order[i] in qtys && order[i] in counts
  {
    assert forall i :: 0 <= i < |order| ==> order[i] in order;
  }

  lemma GatheredIsDepth(side: Side, es: seq<BookEntry>, order: seq<real>, qtys: map<real, real>,
                        counts: map<real, nat>, levels: seq<Level>)
    requires Gathered(side, es, order, qtys, counts) && |levels| == |order|
    requires forall i ::
      0 <= i < |order| ==>
      order[i] in qtys && order[i] in counts && levels[i] == Level(order[i], qtys[order[i]], counts[order[i]])
    ensures IsDepth(side, es, levels)
  {
    forall e | e in es ensures exists l :: l in levels && l.price == e.price {
      CountedMeansThere(es, e.price);
      var i :| 0 <= i < |order| && order[i] == e.price;
      assert levels[i] in levels;
    }
  }

  // ---------- what a depth says ----------

  /** A side has one depth. */
  lemma DepthUnique(side: Side, es: seq<BookEntry>, xs: seq<Level>, ys: seq<Level>)
    requires IsDepth(side, es, xs) && IsDepth(side, es, ys)
    ensures xs == ys
  {
    forall l ensures l in xs <==> l in ys {
      SameLevels(side, es, xs, ys, l);
      SameLevels(side, es, ys, xs, l);
    }
    SortedUnique(side, xs, ys);
  }

  lemma SameLevels(side: Side, es: seq<BookEntry>, xs: seq<Level>, ys: seq<Level>, l: Level)
    requires IsDepth(side, es, xs) && IsDepth(side, es, ys)
    ensures l in xs ==> l in ys
  {
    if l in xs {
      assert LevelFor(es, l);
      CountedMeansThere(es, l.price);
      var e :| e in es && e.price == l.price;
      var k :| k in ys && k.price == e.price;
      assert LevelFor(es, k);
    }
  }

  lemma BehindFirst(side: Side, xs: seq<Level>)
    requires xs != [] && forall i, j :: 0 <= i < j < |xs| ==> Better(side, xs[i].price, xs[j].price)
    ensures forall l :: l in xs[1..] <==> l in xs && l != xs[0]
  {
    assert xs == [xs[0]] + xs[1..];
    assert forall j :: 0 < j < |xs| ==> Better(side, xs[0].price, xs[j].price);
  }

  lemma {:induction false} SortedUnique(side: Side, xs: seq<Level>, ys: seq<Level>)
    requires forall i, j :: 0 <= i < j < |xs| ==> Better(side, xs[i].price, xs[j].price)
    requires forall i, j :: 0 <= i < j < |ys| ==> Better(side, ys[i].price, ys[j].price)
    requires forall l :: l in xs <==> l in ys
    ensures xs == ys
    decreases |xs|
  {
    assert ys != [] ==> ys[0] in ys;
    if xs != [] {
      assert xs[0] in ys;
      var i :| 0 <= i < |ys| && ys[i] == xs[0];
      assert ys[0] in xs;
      var j :| 0 <= j < |xs| && xs[j] == ys[0];
      assert xs[0] == ys[0];
      BehindFirst(side, xs);
      BehindFirst(side, ys);
      SortedUnique(side, xs[1..], ys[1..]);
    }
  }

  /** Both sides of a book as the outside sees them; a symbol without a book has no levels. */
  method BookSnapshot(m: Matcher, sym: Symbol) returns (bids: seq<Level>, asks: seq<Level>)
    requires m.Valid() && BookOk(BookOf(m.View(), sym))
    ensures IsDepth(Buy, BookOf(m.View(), sym).bids, bids) && IsDepth(Side.Sell, BookOf(m.View(), sym).asks, asks)
  {
    if sym !in m.books {
      return [], [];
    }
    hide IsDepth;
    var book := m.books[sym];
    bids := Aggregate(Buy, book.buys.entries);
    asks := Aggregate(Side.Sell, book.sells.entries);
  }
}
