/** The two-sided book of one symbol. */
module OrderBooks {
  import opened Domain
  import opened PriceTime
  import opened Matching
  import opened Exchange
  import opened PriceSides

  class OrderBook {
    const symbol: Symbol
    const buys: PriceSide
    const sells: PriceSide

    /** The objects a book is made of; they never change. */
    ghost function Footprint(): set<object> { {this, buys, sells} }

    ghost predicate Valid()
      reads this, buys, sells
    {
      buys != sells && buys.side == Buy && sells.side == Sell && Sorted(buys.entries) && Sorted(sells.entries)
    }

    ghost function View(): Book
      reads buys, sells
    {
      Book(buys.entries, sells.entries)
    }

    constructor (symbol: Symbol)
      ensures Valid() && fresh(Footprint()) && this.symbol == symbol && View() == EMPTY_BOOK
    {
      this.symbol := symbol;
      buys := new PriceSide(Buy);
      sells := new PriceSide(Sell);
    }

    method AddBuy(id: OrderId, price: real, qty: real, time: int, account: AccountId)
      requires Valid()
      modifies buys
      ensures Valid()
      ensures View() == old(View()).With(Buy, Insort(old(View()).bids, EntryFor(Buy, price, time, id, qty, account)))
    {
      buys.Insert(id, price, qty, time, account);
    }

    method AddSell(id: OrderId, price: real, qty: real, time: int, account: AccountId)
      requires Valid()
      modifies sells
      ensures Valid()
      ensures View() == old(View()).With(Sell, Insort(old(View()).asks, EntryFor(Sell, price, time, id, qty, account)))
    {
      sells.Insert(id, price, qty, time, account);
    }

    /** Look on the BUY side, then on the SELL side. */
    method Cancel(id: OrderId) returns (removed: Option<BookEntry>)
      requires Valid()
      modifies buys, sells
      ensures Valid()
      ensures View() == RemoveFromBook(old(View()), id)
      ensures removed == FindInBook(old(View()), id)
    {
      RemoveSorted(buys.entries, id);
      RemoveSorted(sells.entries, id);
      removed := buys.Remove(id);
      if removed.None? {
        FindMeans(old(buys.entries), id);
        removed := sells.Remove(id);
      }
    }

    predicate IsCrossable()
      reads buys, sells
      ensures IsCrossable() <==> Crossable(View())
    {
      var bid, ask := buys.Best(), sells.Best();
      bid.Some? && ask.Some? && bid.value.price >= ask.value.price
    }
  }

  lemma {:induction false} RemoveSorted(es: seq<BookEntry>, id: OrderId)
    requires Sorted(es)
    ensures Sorted(RemoveEntry(es, id))
    ensures forall e :: e in RemoveEntry(es, id) ==> e in es
    decreases |es|
  {
    if es != [] {
      assert es == [es[0]] + es[1..];
      assert forall i :: 0 < i < |es| ==> es[1..][i - 1] == es[i];
      RemoveSorted(es[1..], id);
      var rest := RemoveEntry(es[1..], id);
      forall k | 0 <= k < |rest| ensures !Before(rest[k], es[0]) {
        assert rest[k] in es[1..];
        var i :| 0 <= i < |es| - 1 && es[1..][i] == rest[k];
        assert !Before(es[i + 1], es[0]);
      }
    }
  }
}
