/** The crossing loop as a function on values, and what it means: a greedy sweep of the opposite queue. */
module Matching {
  import opened Domain
  import opened PriceTime

  datatype Trade = Trade(symbol: Symbol, price: real, qty: real, buyId: OrderId, sellId: OrderId, maker: Side)

  datatype Book = Book(bids: seq<BookEntry>, asks: seq<BookEntry>) {
    function On(side: Side): seq<BookEntry> { if side == Buy then bids else asks }

    function With(side: Side, es: seq<BookEntry>): Book {
      if side == Buy then this.(bids := es) else this.(asks := es)
    }
  }

  function Other(s: Side): Side { if s == Buy then Sell else Buy }

  predicate Crossable(b: Book) {
    b.bids != [] && b.asks != [] && b.bids[0].price >= b.asks[0].price
  }

  /** The side that was resting first sets the price; a tie goes to the buyer. */
  function TradeBetween(sym: Symbol, bid: BookEntry, ask: BookEntry): Trade {
    var maker := if bid.sortTime <= ask.sortTime then Buy else Sell;
    Trade(sym, if maker == Buy then bid.price else ask.price, Min(bid.qty, ask.qty),
          bid.orderId, ask.orderId, maker)
  }

  /** Pop the top of a side when the fill exhausts it, reduce it otherwise. */
  function TakeTop(es: seq<BookEntry>, q: real): seq<BookEntry>
    requires es != []
  {
    if es[0].qty - q == 0.0 then es[1..] else [es[0].(qty := es[0].qty - q)] + es[1..]
  }

  function CrossOnce(b: Book): Book
    requires Crossable(b)
  {
    var q := Min(b.bids[0].qty, b.asks[0].qty);
    Book(TakeTop(b.bids, q), TakeTop(b.asks, q))
  }

  datatype Matched = Matched(trades: seq<Trade>, book: Book)

  function Match(sym: Symbol, b: Book): (m: Matched)
    ensures !Crossable(m.book)
    decreases |b.bids| + |b.asks|
  {
    if !Crossable(b) then Matched([], b)
    else
      var rest := Match(sym, CrossOnce(b));
      Matched([TradeBetween(sym, b.bids[0], b.asks[0])] + rest.trades, rest.book)
  }

  /** The loop, one round at a time. */
  lemma MatchUnfolds(sym: Symbol, b: Book)
    ensures !Crossable(b) ==> Match(sym, b) == Matched([], b)
    ensures Crossable(b) ==>
      && Match(sym, b).trades == [TradeBetween(sym, b.bids[0], b.asks[0])] + Match(sym, CrossOnce(b)).trades
      && Match(sym, b).book == Match(sym, CrossOnce(b)).book
  {
    hide CrossOnce, TradeBetween;
  }

  // ---------- the shape every book keeps ----------

  predicate SideOk(side: Side, es: seq<BookEntry>) {
    && Sorted(es)
    && forall e :: e in es ==> e.qty > 0.0 && e.sortPrice == if side == Buy then -e.price else e.price
  }

  predicate BookOk(b: Book) { SideOk(Buy, b.bids) && SideOk(Sell, b.asks) }

  function Volume(es: seq<BookEntry>): real { if es == [] then 0.0 else es[0].qty + Volume(es[1..]) }

  function Traded(ts: seq<Trade>): real { if ts == [] then 0.0 else ts[0].qty + Traded(ts[1..]) }

  lemma TakeTopOk(side: Side, es: seq<BookEntry>, q: real)
    requires SideOk(side, es) && es != [] && 0.0 < q <= es[0].qty
    ensures SideOk(side, TakeTop(es, q))
    ensures Volume(TakeTop(es, q)) == Volume(es) - q
    ensures forall e :: e in TakeTop(es, q) ==>
      (e in es || (e.orderId == es[0].orderId && e.price == es[0].price && e.sortTime == es[0].sortTime))
  {
    var r := TakeTop(es, q);
    if es[0].qty != q {
      assert r[1..] == es[1..];
      assert forall i :: 0 < i < |r| ==> r[i] == es[i];
      assert forall i :: 0 < i < |es| ==> !Before(es[i], es[0]);
    }
  }

  /** Running the loop keeps both sides well formed and takes equal quantity from each. */
  lemma {:induction false} MatchKeepsBook(sym: Symbol, b: Book)
    requires BookOk(b)
    ensures BookOk(Match(sym, b).book)
    ensures Volume(b.bids) - Volume(Match(sym, b).book.bids) == Traded(Match(sym, b).trades)
    ensures Volume(b.asks) - Volume(Match(sym, b).book.asks) == Traded(Match(sym, b).trades)
    ensures forall t :: t in Match(sym, b).trades ==> t.qty > 0.0 && t.symbol == sym
    decreases |b.bids| + |b.asks|
  {
    if Crossable(b) {
      assert b.bids[0] in b.bids && b.asks[0] in b.asks;
      var q := Min(b.bids[0].qty, b.asks[0].qty);
      TakeTopOk(Buy, b.bids, q);
      TakeTopOk(Sell, b.asks, q);
      MatchKeepsBook(sym, CrossOnce(b));
      var ts := Match(sym, b).trades;
      assert ts[1..] == Match(sym, CrossOnce(b)).trades;
    }
  }

  /** An uncrossed book has every bid strictly below every ask. */
  lemma Spread(b: Book)
    requires BookOk(b) && !Crossable(b)
    ensures forall x, y :: x in b.bids && y in b.asks ==> x.price < y.price
  {
    forall x, y | x in b.bids && y in b.asks ensures x.price < y.price {
      var i :| 0 <= i < |b.bids| && b.bids[i] == x;
      var j :| 0 <= j < |b.asks| && b.asks[j] == y;
      assert b.bids[0] in b.bids && b.asks[0] in b.asks;
      assert i == 0 || !Before(b.bids[i], b.bids[0]);
      assert j == 0 || !Before(b.asks[j], b.asks[0]);
    }
  }

  // ---------- the greedy specification ----------

  datatype Fill = Fill(resting: BookEntry, qty: real)

  datatype Sweep = Sweep(fills: seq<Fill>, queue: seq<BookEntry>, left: real)

  predicate Crosses(side: Side, limit: real, price: real) {
    if side == Buy then price <= limit else price >= limit
  }

  /** Consume the opposite queue from the front while it crosses and quantity is left. */
  function SweepQueue(side: Side, limit: real, qty: real, queue: seq<BookEntry>): Sweep
    decreases |queue|
  {
    if qty == 0.0 || queue == [] || !Crosses(side, limit, queue[0].price) then Sweep([], queue, qty)
    else if queue[0].qty <= qty then
      var r := SweepQueue(side, limit, qty - queue[0].qty, queue[1..]);
      r.(fills := [Fill(queue[0], queue[0].qty)] + r.fills)
    else Sweep([Fill(queue[0], qty)], [queue[0].(qty := queue[0].qty - qty)] + queue[1..], 0.0)
  }

  function TradeFor(sym: Symbol, side: Side, e: BookEntry, f: Fill): Trade {
    var bid := if side == Buy then e else f.resting;
    var ask := if side == Buy then f.resting else e;
    TradeBetween(sym, bid, ask).(qty := f.qty)
  }

  function TradesFor(sym: Symbol, side: Side, e: BookEntry, fs: seq<Fill>): (ts: seq<Trade>)
    ensures |ts| == |fs| && forall i :: 0 <= i < |fs| ==> ts[i] == TradeFor(sym, side, e, fs[i])
  {
    if fs == [] then [] else [TradeFor(sym, side, e, fs[0])] + TradesFor(sym, side, e, fs[1..])
  }

  function Submit(sym: Symbol, b: Book, side: Side, e: BookEntry): Matched {
    Match(sym, b.With(side, Insort(b.On(side), e)))
  }

  predicate EntryOk(side: Side, e: BookEntry) {
    e.qty > 0.0 && e.sortPrice == if side == Buy then -e.price else e.price
  }

  lemma InsortOk(side: Side, es: seq<BookEntry>, e: BookEntry)
    requires SideOk(side, es) && EntryOk(side, e)
    ensures SideOk(side, Insort(es, e))
  {
    InsortSorted(es, e);
    InsortMembers(es, e);
  }

  lemma SubmitOk(sym: Symbol, b: Book, side: Side, e: BookEntry)
    requires BookOk(b) && EntryOk(side, e)
    ensures forall t :: t in Submit(sym, b, side, e).trades ==> t.qty > 0.0
  {
    InsortOk(side, b.On(side), e);
    MatchKeepsBook(sym, b.With(side, Insort(b.On(side), e)));
  }

  /** Below, e crosses: it then beats everything on its own side of an uncrossed book. */
  lemma CrossingIsBest(b: Book, side: Side, e: BookEntry)
    requires BookOk(b) && !Crossable(b) && EntryOk(side, e)
    requires b.On(Other(side)) != [] && Crosses(side, e.price, b.On(Other(side))[0].price)
    ensures Insort(b.On(side), e) == [e] + b.On(side)
  {
    var own := b.On(side);
    if own != [] { assert own[0] in own; }
    InsortFront(own, e);
  }

  /** If e does not cross, the book with e added is still uncrossed. */
  lemma NotCrossing(b: Book, side: Side, e: BookEntry)
    requires BookOk(b) && !Crossable(b) && EntryOk(side, e)
    requires b.On(Other(side)) != [] ==> !Crosses(side, e.price, b.On(Other(side))[0].price)
    ensures !Crossable(b.With(side, Insort(b.On(side), e)))
  {
    Spread(b);
    InsortMembers(b.On(side), e);
    var b1 := b.With(side, Insort(b.On(side), e));
    if b1.On(Other(side)) != [] {
      assert b1.On(side)[0] in b1.On(side);
      assert b.On(Other(side))[0] in b.On(Other(side));
    }
  }

  /** Dropping the best of one side leaves the book uncrossed. */
  lemma DropTopUncrossed(b: Book, side: Side)
    requires BookOk(b) && !Crossable(b) && b.On(side) != []
    ensures BookOk(b.With(side, b.On(side)[1..])) && !Crossable(b.With(side, b.On(side)[1..]))
  {
    Spread(b);
    var es := b.On(side);
    assert forall i :: 0 < i < |es| ==> es[1..][i - 1] == es[i];
    assert forall x :: x in es[1..] ==> x in es;
    var b1 := b.With(side, es[1..]);
    if b1.bids != [] && b1.asks != [] {
      assert b1.bids[0] in b.bids && b1.asks[0] in b.asks;
    }
  }

  /** The first round of the loop after a crossing order joined the book. */
  lemma {:induction false} FirstRound(sym: Symbol, b: Book, side: Side, e: BookEntry)
    requires BookOk(b) && !Crossable(b) && EntryOk(side, e)
    requires b.On(Other(side)) != [] && Crosses(side, e.price, b.On(Other(side))[0].price)
    ensures var own, opp := b.On(side), b.On(Other(side));
      var b1 := b.With(side, Insort(own, e));
      var q := Min(e.qty, opp[0].qty);
      && Crossable(b1)
      && CrossOnce(b1) == b.With(Other(side), TakeTop(opp, q))
                           .With(side, if e.qty == q then own else Insort(own, e.(qty := e.qty - q)))
      && TradeBetween(sym, b1.bids[0], b1.asks[0]) == TradeFor(sym, side, e, Fill(opp[0], q))
  {
    var own, opp := b.On(side), b.On(Other(side));
    CrossingIsBest(b, side, e);
    var q := Min(e.qty, opp[0].qty);
    var e' := e.(qty := e.qty - q);
    CrossingIsAhead(b, side, e, e');
    InsortFront(own, e');
    hide Insort, SideOk, Before, CrossOnce, Crossable, TradeBetween, TradeFor;
    RoundInBook(sym, b, side, e);
    assert ([e] + own)[1..] == own;
  }

  /** One round with e at the front of its side. */
  lemma RoundInBook(sym: Symbol, b: Book, side: Side, e: BookEntry)
    requires b.On(Other(side)) != [] && Crosses(side, e.price, b.On(Other(side))[0].price)
    ensures var own, opp := b.On(side), b.On(Other(side));
      var b1 := b.With(side, [e] + own);
      var q := Min(e.qty, opp[0].qty);
      && Crossable(b1)
      && CrossOnce(b1) == b.With(Other(side), TakeTop(opp, q)).With(side, TakeTop([e] + own, q))
      && TradeBetween(sym, b1.bids[0], b1.asks[0]) == TradeFor(sym, side, e, Fill(opp[0], q))
  {
    hide TakeTop;
  }

  lemma CrossingIsAhead(b: Book, side: Side, e: BookEntry, e': BookEntry)
    requires BookOk(b) && !Crossable(b) && EntryOk(side, e) && e' == e.(qty := e'.qty)
    requires b.On(Other(side)) != [] && Crosses(side, e.price, b.On(Other(side))[0].price)
    ensures b.On(side) == [] || Before(e', b.On(side)[0])
  {
    var own, opp := b.On(side), b.On(Other(side));
    if own != [] {
      assert own[0] in own && opp[0] in opp;
      Spread(b);
    }
  }

  /**
   * Greedy refinement: submitting e into an uncrossed book trades exactly the sweep of the opposite
   * queue, leaves exactly the swept queue there, and rests exactly what is left of e.
   */
  lemma {:induction false} SubmitIsSweep(sym: Symbol, b: Book, side: Side, e: BookEntry)
    requires BookOk(b) && !Crossable(b) && EntryOk(side, e)
    ensures Submit(sym, b, side, e) == Swept(sym, b, side, e)
    decreases |b.On(Other(side))|, 1
  {
    var own, opp := b.On(side), b.On(Other(side));
    var b1 := b.With(side, Insort(own, e));
    if opp == [] || !Crosses(side, e.price, opp[0].price) {
      NotCrossing(b, side, e);
      assert e.(qty := e.qty) == e;
    } else {
      assert opp[0] in opp;
      FirstRound(sym, b, side, e);
      if opp[0].qty < e.qty { SubmitWhole(sym, b, side, e); }
      else { SubmitLast(sym, b, side, e); }
    }
  }

  function Swept(sym: Symbol, b: Book, side: Side, e: BookEntry): Matched {
    var s := SweepQueue(side, e.price, e.qty, b.On(Other(side)));
    var own := b.On(side);
    Matched(TradesFor(sym, side, e, s.fills),
            b.With(Other(side), s.queue).With(side, if s.left == 0.0 then own else Insort(own, e.(qty := s.left))))
  }

  /** The best resting entry is smaller than the order: it is consumed and the sweep goes on. */
  lemma SubmitWhole(sym: Symbol, b: Book, side: Side, e: BookEntry)
    requires BookOk(b) && !Crossable(b) && EntryOk(side, e)
    requires b.On(Other(side)) != [] && Crosses(side, e.price, b.On(Other(side))[0].price)
    requires b.On(Other(side))[0].qty < e.qty
    ensures Submit(sym, b, side, e) == Swept(sym, b, side, e)
    decreases |b.On(Other(side))|, 0
  {
    var own, opp := b.On(side), b.On(Other(side));
    FirstRound(sym, b, side, e);
    DropTopUncrossed(b, Other(side));
    var b' := b.With(Other(side), opp[1..]);
    var e' := e.(qty := e.qty - opp[0].qty);
    assert b'.On(side) == own && b'.On(Other(side)) == opp[1..];
    var b1 := b.With(side, Insort(own, e));
    assert CrossOnce(b1) == b'.With(side, Insort(own, e'));
    SubmitIsSweep(sym, b', side, e');
    var r := SweepQueue(side, e.price, e'.qty, opp[1..]);
    SameTrades(sym, side, e, e', r.fills);
    var s := SweepQueue(side, e.price, e.qty, opp);
    assert s == r.(fills := [Fill(opp[0], opp[0].qty)] + r.fills);
    assert s.fills[1..] == r.fills;
    assert Submit(sym, b, side, e).trades
        == [TradeFor(sym, side, e, Fill(opp[0], opp[0].qty))] + Submit(sym, b', side, e').trades;
  }

  /** The best resting entry covers the order: the order is done and the loop stops. */
  lemma SubmitLast(sym: Symbol, b: Book, side: Side, e: BookEntry)
    requires BookOk(b) && !Crossable(b) && EntryOk(side, e)
    requires b.On(Other(side)) != [] && Crosses(side, e.price, b.On(Other(side))[0].price)
    requires b.On(Other(side))[0].qty >= e.qty
    ensures Submit(sym, b, side, e) == Swept(sym, b, side, e)
  {
    var own, opp := b.On(side), b.On(Other(side));
    FirstRound(sym, b, side, e);
    DropTopUncrossed(b, Other(side));
    var b1 := b.With(side, Insort(own, e));
    var b2 := b.With(Other(side), TakeTop(opp, e.qty));
    assert CrossOnce(b1) == b2;
    assert !Crossable(b2);
    assert Match(sym, b2) == Matched([], b2);
    assert Submit(sym, b, side, e) == Match(sym, b1);
    assert Submit(sym, b, side, e) == Matched([TradeFor(sym, side, e, Fill(opp[0], e.qty))] + [], b2);
    SweepLast(side, e.price, e.qty, opp);
    assert [Fill(opp[0], e.qty)][1..] == [];
  }

  lemma SweepLast(side: Side, limit: real, qty: real, queue: seq<BookEntry>)
    requires queue != [] && Crosses(side, limit, queue[0].price) && 0.0 < qty <= queue[0].qty
    ensures SweepQueue(side, limit, qty, queue) == Sweep([Fill(queue[0], qty)], TakeTop(queue, qty), 0.0)
  {
    if queue[0].qty == qty {
      assert SweepQueue(side, limit, 0.0, queue[1..]) == Sweep([], queue[1..], 0.0);
    }
  }

  lemma {:induction false} SameTrades(sym: Symbol, side: Side, e: BookEntry, e': BookEntry, fs: seq<Fill>)
    requires e' == e.(qty := e'.qty)
    ensures TradesFor(sym, side, e, fs) == TradesFor(sym, side, e', fs)
  {
    if fs != [] { SameTrades(sym, side, e, e', fs[1..]); }
  }

  /** Quantity at the front of a queue that crosses the limit. */
  function Crossing(side: Side, limit: real, queue: seq<BookEntry>): real {
    if queue == [] || !Crosses(side, limit, queue[0].price) then 0.0
    else queue[0].qty + Crossing(side, limit, queue[1..])
  }

  function Filled(fs: seq<Fill>): real { if fs == [] then 0.0 else fs[0].qty + Filled(fs[1..]) }

  /** A sweep fills the smaller of the order and the crossing quantity, and never overfills. */
  lemma {:induction false} SweepFills(side: Side, limit: real, qty: real, queue: seq<BookEntry>)
    requires qty >= 0.0 && forall e :: e in queue ==> e.qty > 0.0
    ensures Filled(SweepQueue(side, limit, qty, queue).fills) == Min(qty, Crossing(side, limit, queue))
    ensures SweepQueue(side, limit, qty, queue).left == qty - Min(qty, Crossing(side, limit, queue))
    decreases |queue|
  {
    CrossingNonNegative(side, limit, queue);
    if !(qty == 0.0 || queue == [] || !Crosses(side, limit, queue[0].price)) {
      assert queue[0] in queue;
      assert forall e :: e in queue[1..] ==> e in queue;
      var s := SweepQueue(side, limit, qty, queue);
      CrossingNonNegative(side, limit, queue[1..]);
      if queue[0].qty <= qty {
        SweepFills(side, limit, qty - queue[0].qty, queue[1..]);
        assert s.fills[1..] == SweepQueue(side, limit, qty - queue[0].qty, queue[1..]).fills;
      } else {
        assert s.fills[1..] == [];
      }
    }
  }

  /**
   * A sweep goes through the queue strictly from the front: its i-th fill is the i-th entry, every
   * entry met crosses, all but the last are consumed completely, and what remains is the rest of the queue
   * behind what is left of that last entry.
   */
  predicate FrontFirst(side: Side, limit: real, queue: seq<BookEntry>, s: Sweep) {
    && |s.fills| <= |queue|
    && (forall i :: 0 <= i < |s.fills| ==> s.fills[i].resting == queue[i] && Crosses(side, limit, queue[i].price))
    && (forall i :: 0 <= i < |s.fills| - 1 ==> s.fills[i].qty == queue[i].qty)
    && (forall i :: 0 <= i < |s.fills| ==> 0.0 < s.fills[i].qty <= queue[i].qty)
    && s.queue == LastReduced(queue, s.fills) + queue[|s.fills|..]
    && (s.left > 0.0 ==>
          && (forall i :: 0 <= i < |s.fills| ==> s.fills[i].qty == queue[i].qty)
          && (s.queue == [] || !Crosses(side, limit, s.queue[0].price)))
  }

  /** What is left of the entry that was met last. */
  function LastReduced(queue: seq<BookEntry>, fs: seq<Fill>): seq<BookEntry>
    requires |fs| <= |queue|
  {
    var n := |fs|;
    if n == 0 || fs[n - 1].qty == queue[n - 1].qty then []
    else [queue[n - 1].(qty := queue[n - 1].qty - fs[n - 1].qty)]
  }

  lemma {:induction false} SweepFrontFirst(side: Side, limit: real, qty: real, queue: seq<BookEntry>)
    requires qty >= 0.0 && forall e :: e in queue ==> e.qty > 0.0
    ensures FrontFirst(side, limit, queue, SweepQueue(side, limit, qty, queue))
    decreases |queue|
  {
    hide FrontFirst;
    if qty == 0.0 || queue == [] || !Crosses(side, limit, queue[0].price) {
      FrontFirstNone(side, limit, queue, qty);
    } else {
      assert queue[0] in queue;
      if queue[0].qty <= qty {
        assert forall e :: e in queue[1..] ==> e in queue;
        SweepFrontFirst(side, limit, qty - queue[0].qty, queue[1..]);
        FrontFirstCons(side, limit, queue, SweepQueue(side, limit, qty - queue[0].qty, queue[1..]));
      } else {
        FrontFirstPart(side, limit, queue, qty);
      }
    }
  }

  lemma FrontFirstNone(side: Side, limit: real, queue: seq<BookEntry>, qty: real)
    requires qty > 0.0 ==> queue == [] || !Crosses(side, limit, queue[0].price)
    ensures FrontFirst(side, limit, queue, Sweep([], queue, qty))
  {
  }

  lemma FrontFirstPart(side: Side, limit: real, queue: seq<BookEntry>, qty: real)
    requires queue != [] && 0.0 < qty < queue[0].qty && Crosses(side, limit, queue[0].price)
    ensures FrontFirst(side, limit, queue, Sweep([Fill(queue[0], qty)], TakeTop(queue, qty), 0.0))
  {
  }

  lemma RestBehind(queue: seq<BookEntry>, fs: seq<Fill>)
    requires queue != [] && |fs| < |queue|
    ensures LastReduced(queue, [Fill(queue[0], queue[0].qty)] + fs) == LastReduced(queue[1..], fs)
    ensures queue[1 + |fs|..] == queue[1..][|fs|..]
  {
  }

  lemma FrontFirstCons(side: Side, limit: real, queue: seq<BookEntry>, r: Sweep)
    requires queue != [] && queue[0].qty > 0.0 && Crosses(side, limit, queue[0].price)
    requires FrontFirst(side, limit, queue[1..], r)
    ensures FrontFirst(side, limit, queue, r.(fills := [Fill(queue[0], queue[0].qty)] + r.fills))
  {
    var fs := [Fill(queue[0], queue[0].qty)] + r.fills;
    hide Crosses;
    assert forall i :: 0 < i < |fs| ==> fs[i] == r.fills[i - 1] && queue[i] == queue[1..][i - 1];
    RestBehind(queue, r.fills);
  }

  lemma {:induction false} CrossingNonNegative(side: Side, limit: real, queue: seq<BookEntry>)
    requires forall e :: e in queue ==> e.qty > 0.0
    ensures Crossing(side, limit, queue) >= 0.0
  {
    if queue != [] {
      assert queue[0] in queue;
      assert forall e :: e in queue[1..] ==> e in queue;
      CrossingNonNegative(side, limit, queue[1..]);
    }
  }
}
