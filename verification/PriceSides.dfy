/** One side of a book as the sorted list that is changed in place. */
module PriceSides {
  import opened Domain
  import opened PriceTime
  import opened Exchange

  class PriceSide {
    const side: Side
    var entries: seq<BookEntry>

    constructor (side: Side)
      ensures this.side == side && entries == []
    {
      this.side := side;
      entries := [];
    }

    /** The right insertion point in a sorted list, by bisection. */
    method BisectRight(e: BookEntry) returns (lo: nat)
      requires Sorted(entries)
      ensures lo == UpperBound(entries, e)
    {
      lo := 0;
      var hi := |entries|;
      while lo < hi
        invariant 0 <= lo <= hi <= |entries|
        invariant forall i :: 0 <= i < lo ==> !Before(e, entries[i])
        invariant forall i :: hi <= i < |entries| ==> Before(e, entries[i])
      {
        var mid := (lo + hi) / 2;
        if Before(e, entries[mid]) {
          forall i | mid <= i < |entries| ensures Before(e, entries[i]) {
            assert i == mid || !Before(entries[i], entries[mid]);
          }
          hi := mid;
        } else {
          forall i | 0 <= i <= mid ensures !Before(e, entries[i]) {
            assert i == mid || !Before(entries[mid], entries[i]);
          }
          lo := mid + 1;
        }
      }
      UpperBoundUnique(entries, e, lo);
    }

    method Insert(id: OrderId, price: real, qty: real, time: int, account: AccountId)
      requires Sorted(entries)
      modifies this
      ensures entries == Insort(old(entries), EntryFor(side, price, time, id, qty, account))
      ensures Sorted(entries)
    {
      var sortPrice := if side == Buy then -price else price;
      var e := BookEntry(sortPrice, time, id, price, qty, account);
      InsortSorted(entries, e);
      var k := BisectRight(e);
      entries := entries[..k] + [e] + entries[k..];
    }

    /** Take out the first entry with the id, if there is one. */
    method Remove(id: OrderId) returns (removed: Option<BookEntry>)
      modifies this
      ensures removed == FindEntry(old(entries), id)
      ensures entries == RemoveEntry(old(entries), id)
    {
      var i := 0;
      while i < |entries|
        invariant 0 <= i <= |entries| && entries == old(entries)
        invariant FindEntry(entries, id) == FindEntry(entries[i..], id)
        invariant RemoveEntry(entries, id) == entries[..i] + RemoveEntry(entries[i..], id)
      {
        if entries[i].orderId == id {
          removed := Some(entries[i]);
          entries := entries[..i] + entries[i + 1..];
          assert old(entries)[i..][1..] == old(entries)[i + 1..];
          return;
        }
        assert entries[i..][1..] == entries[i + 1..];
        assert entries[..i] + [entries[i]] == entries[..i + 1];
        i := i + 1;
      }
      removed := None;
    }

    /** The top entry is immutable: it is replaced by one with the reduced quantity. */
    method ReduceTop(fill: real)
      requires entries != []
      modifies this
      ensures entries == [old(entries)[0].(qty := old(entries)[0].qty - fill)] + old(entries)[1..]
    {
      var top := entries[0];
      var rest := BookEntry(top.sortPrice, top.sortTime, top.orderId, top.price, top.qty - fill, top.accountId);
      entries := entries[0 := rest];
    }

    method PopTop() returns (top: BookEntry)
      requires entries != []
      modifies this
      ensures top == old(entries)[0] && entries == old(entries)[1..]
    {
      top := entries[0];
      entries := entries[1..];
    }

    function Best(): (r: Option<BookEntry>)
      reads this
      ensures r.None? <==> entries == []
    {
      if entries == [] then None else Some(entries[0])
    }
  }
}
