/** Price-time priority: the ordering of resting orders and the sorted list that holds one side. */
module PriceTime {
  import opened Domain

  /** One resting order. `sortPrice` is the price, negated on the BUY side. */
  datatype BookEntry = BookEntry(
    sortPrice: real, sortTime: int, orderId: OrderId, price: real, qty: real, accountId: AccountId)

  function EntryFor(side: Side, price: real, time: int, id: OrderId, qty: real, account: AccountId): BookEntry {
    BookEntry(if side == Buy then -price else price, time, id, price, qty, account)
  }

  /** Strict order on (sortPrice, sortTime): the only fields the entries are compared by. */
  predicate Before(a: BookEntry, b: BookEntry) {
    a.sortPrice < b.sortPrice || (a.sortPrice == b.sortPrice && a.sortTime < b.sortTime)
  }

  predicate Sorted(es: seq<BookEntry>) {
    forall i, j :: 0 <= i < j < |es| ==> !Before(es[j], es[i])
  }

  /** How many entries stay in front of e: everything that does not come strictly after it. */
  function UpperBound(es: seq<BookEntry>, e: BookEntry): (k: nat)
    ensures k <= |es|
    ensures forall i :: 0 <= i < k ==> !Before(e, es[i])
    ensures k < |es| ==> Before(e, es[k])
  {
    if es == [] || Before(e, es[0]) then 0 else 1 + UpperBound(es[1..], e)
  }

  function Insort(es: seq<BookEntry>, e: BookEntry): seq<BookEntry> {
    var k := UpperBound(es, e);
    es[..k] + [e] + es[k..]
  }

  /** The split point is determined: what binary search finds is what the specification inserts at. */
  lemma {:induction false} UpperBoundUnique(es: seq<BookEntry>, e: BookEntry, k: nat)
    requires k <= |es|
    requires forall i :: 0 <= i < k ==> !Before(e, es[i])
    requires forall i :: k <= i < |es| ==> Before(e, es[i])
    ensures UpperBound(es, e) == k
  {
    if k > 0 {
      assert !Before(e, es[0]);
      UpperBoundUnique(es[1..], e, k - 1);
    }
  }

  /** Everything from the split point on comes strictly after the new entry. */
  lemma UpperBoundSplits(es: seq<BookEntry>, e: BookEntry)
    requires Sorted(es)
    ensures forall i :: UpperBound(es, e) <= i < |es| ==> Before(e, es[i])
  {
    var k := UpperBound(es, e);
    forall i | k <= i < |es| ensures Before(e, es[i]) {
      assert i == k || !Before(es[i], es[k]);
    }
  }

  lemma InsortSorted(es: seq<BookEntry>, e: BookEntry)
    requires Sorted(es)
    ensures Sorted(Insort(es, e))
  {
    UpperBoundSplits(es, e);
    var k, r := UpperBound(es, e), Insort(es, e);
    assert forall i :: 0 <= i < k ==> r[i] == es[i];
    assert forall i :: k < i < |r| ==> r[i] == es[i - 1];
  }

  lemma InsortMembers(es: seq<BookEntry>, e: BookEntry)
    ensures forall x :: x in Insort(es, e) <==> x in es || x == e
  {
    assert es == es[..UpperBound(es, e)] + es[UpperBound(es, e)..];
  }

  /** An entry that beats the whole side goes to its front. */
  lemma InsortFront(es: seq<BookEntry>, e: BookEntry)
    requires es == [] || Before(e, es[0])
    ensures Insort(es, e) == [e] + es
  {
    assert es[..0] == [] && es[0..] == es;
  }

  /** Total order used in proofs: price, then time, then arrival. */
  predicate Ahead(ids: seq<OrderId>, a: BookEntry, b: BookEntry) {
    Before(a, b) || (!Before(b, a) && Rank(ids, a.orderId) < Rank(ids, b.orderId))
  }

  predicate Queue(ids: seq<OrderId>, es: seq<BookEntry>) {
    forall i, j :: 0 <= i < j < |es| ==> Ahead(ids, es[i], es[j])
  }

  lemma QueueHead(ids: seq<OrderId>, es: seq<BookEntry>)
    requires Queue(ids, es) && es != []
    ensures forall e :: e in es[1..] <==> e in es && e != es[0]
    ensures forall e :: e in es[1..] ==> Ahead(ids, es[0], e)
    ensures Queue(ids, es[1..])
  {
    assert es == [es[0]] + es[1..];
    assert forall k :: 0 < k < |es| ==> Ahead(ids, es[0], es[k]);
    forall i, j | 0 <= i < j < |es[1..]| ensures Ahead(ids, es[1..][i], es[1..][j]) {
      assert Ahead(ids, es[i + 1], es[j + 1]);
    }
  }

  /** Rank and order of a queue do not look at quantities: its head may be replaced by one of the same key. */
  lemma QueueNewHead(ids: seq<OrderId>, es: seq<BookEntry>, e: BookEntry)
    requires Queue(ids, es) && es != []
    requires e.sortPrice == es[0].sortPrice && e.sortTime == es[0].sortTime && e.orderId == es[0].orderId
    ensures Queue(ids, [e] + es[1..])
  {
    var r := [e] + es[1..];
    forall i, j | 0 <= i < j < |r| ensures Ahead(ids, r[i], r[j]) {
      assert Ahead(ids, es[i], es[j]);
    }
  }

  lemma NoMembers(es: seq<BookEntry>)
    ensures es == [] <==> forall e :: e !in es
  {
    if es != [] { assert es[0] in es; }
  }

  /** A side in priority order is determined by which entries it holds. */
  lemma {:induction false} QueueUnique(ids: seq<OrderId>, xs: seq<BookEntry>, ys: seq<BookEntry>)
    requires Queue(ids, xs) && Queue(ids, ys)
    requires forall e :: e in xs <==> e in ys
    ensures xs == ys
  {
    NoMembers(xs);
    NoMembers(ys);
    if xs != [] {
      QueueHead(ids, xs);
      QueueHead(ids, ys);
      var x, y := xs[0], ys[0];
      assert y in xs && x in ys;
      assert x == y || Ahead(ids, x, y);
      assert x == y || Ahead(ids, y, x);
      QueueUnique(ids, xs[1..], ys[1..]);
    }
  }

  /** The newest arrival joins behind everything of equal price and time. */
  lemma InsortQueue(ids: seq<OrderId>, es: seq<BookEntry>, e: BookEntry)
    requires Queue(ids, es)
    requires forall x :: x in es ==> Rank(ids, x.orderId) < Rank(ids, e.orderId)
    ensures Queue(ids, Insort(es, e))
  {
    hide UpperBound;
    assert Sorted(es) by { assert forall i, j :: 0 <= i < j < |es| ==> Ahead(ids, es[i], es[j]); }
    var k := UpperBound(es, e);
    UpperBoundSplits(es, e);
    var r := Insort(es, e);
    forall i, j | 0 <= i < j < |r| ensures Ahead(ids, r[i], r[j]) {
      if i < k <= j {
        if j == k { assert r[i] == es[i] && es[i] in es; }
        else { assert r[i] == es[i] && r[j] == es[j - 1]; }
      } else if i == k { assert r[j] == es[j - 1]; }
      else if i > k { assert r[i] == es[i - 1] && r[j] == es[j - 1]; }
      else { assert r[i] == es[i] && r[j] == es[j]; }
    }
  }

  lemma QueueSorted(ids: seq<OrderId>, es: seq<BookEntry>)
    requires Queue(ids, es)
    ensures Sorted(es)
  {
    assert forall i, j :: 0 <= i < j < |es| ==> Ahead(ids, es[i], es[j]);
  }
}
