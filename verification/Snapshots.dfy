/** A snapshot of the book frozen at one instant, and the book a restart builds from it
    (matching/order_book.go, `Snapshot` and `Restore`). */
module Snapshots {
  import opened Exchange
  import opened Depths
  import opened Matcher

  /** The orders come out of two hash maps, so in any order. */
  datatype Snapshot = Snapshot(orders: seq<BookOrder>, tradeSeq: nat, logSeq: nat, accepted: set<nat>)

  function File(b: Book, o: BookOrder): Book {
    b.WithResting(o.side, Insert(o.side, b.Resting(o.side), o))
  }

  function FileAll(b: Book, orders: seq<BookOrder>): Book
    decreases |orders|
  {
    if orders == [] then b else FileAll(File(b, orders[0]), orders[1..])
  }

  function Restored(s: Snapshot): Book {
    FileAll(EmptyBook.(tradeSeq := s.tradeSeq, logSeq := s.logSeq, accepted := s.accepted), s.orders)
  }

  /** Every order has a depth to be filed in, and no two share both id and side. */
  ghost predicate DistinctPlaces(s: seq<BookOrder>) {
    && (forall i :: 0 <= i < |s| ==> s[i].side != OtherSide)
    && forall i, j {:trigger s[i].orderId, s[j].orderId} :: 0 <= i < j < |s| ==>
      s[i].orderId != s[j].orderId || s[i].side != s[j].side
  }

  /** A snapshot of `b`: each of its orders once, in any order, and its counters and ids. */
  ghost predicate SnapshotOf(s: Snapshot, b: Book) {
    && DistinctPlaces(s.orders)
    && (forall o :: o in s.orders <==> o in b.bids || o in b.asks)
    && s.tradeSeq == b.tradeSeq && s.logSeq == b.logSeq && s.accepted == b.accepted
  }

  /** What restoring needs of a book: each side in order and holding only its own orders. */
  ghost predicate Filed(b: Book) {
    Sorted(Buy, b.bids) && Sorted(Sell, b.asks) && OnSide(b.bids, Buy) && OnSide(b.asks, Sell)
  }

  /** Filing one order sorts it into its side and leaves the other side alone. */
  lemma FileSorts(b: Book, o: BookOrder)
    requires Filed(b) && !HasId(b.Resting(o.side), o.orderId) && o.side != OtherSide
    ensures Filed(File(b, o))
    ensures forall side, x :: x in File(b, o).Resting(side) <==> x in b.Resting(side) || (x == o && side == o.side)
  {
    var s := b.Resting(o.side);
    InsertSorted(o.side, s, o);
    InsertMembers(o.side, s, o);
    forall i | 0 <= i < |Insert(o.side, s, o)|
      ensures Insert(o.side, s, o)[i].side == o.side
    {
      assert Insert(o.side, s, o)[i] in Insert(o.side, s, o);
    }
  }

  /** Filing a list of orders sorts each side's share of it into place. */
  lemma {:induction false} FileAllSorts(b: Book, orders: seq<BookOrder>)
    requires Filed(b) && DistinctPlaces(orders)
    requires forall i :: 0 <= i < |orders| ==> !HasId(b.Resting(orders[i].side), orders[i].orderId)
    ensures var r := FileAll(b, orders);
            && Filed(r)
            && (forall side, x :: x in r.Resting(side) <==> x in b.Resting(side) || (x in orders && x.side == side))
            && r.tradeSeq == b.tradeSeq && r.logSeq == b.logSeq && r.accepted == b.accepted
    decreases |orders|
  {
    if orders != [] {
      var o, rest := orders[0], orders[1..];
      FileSorts(b, o);
      FileAllSorts(File(b, o), rest);
      assert orders == [o] + rest;
    }
  }

  lemma RestoredMembers(s: Snapshot, b: Book)
    requires SnapshotOf(s, b) && Filed(b)
    ensures Filed(Restored(s))
    ensures forall x :: x in Restored(s).bids <==> x in b.bids
    ensures forall x :: x in Restored(s).asks <==> x in b.asks
    ensures Restored(s).tradeSeq == b.tradeSeq && Restored(s).logSeq == b.logSeq && Restored(s).accepted == b.accepted
  {
    FileAllSorts(EmptyBook.(tradeSeq := s.tradeSeq, logSeq := s.logSeq, accepted := s.accepted), s.orders);
    forall x
      ensures x in Restored(s).Resting(Buy) <==> x in b.bids
      ensures x in Restored(s).Resting(Sell) <==> x in b.asks
    {
      assert x in b.bids ==> x.side == Buy;
      assert x in b.asks ==> x.side == Sell;
    }
  }

  /** Restoring a frozen snapshot gives back the very book it was taken of, however the
      snapshot lists the orders. */
  lemma {:induction false} RestoreUndoesSnapshot(s: Snapshot, b: Book)
    requires SnapshotOf(s, b) && Filed(b)
    ensures Restored(s) == b
  {
    hide SnapshotOf, Restored, Sorted, OnSide;
    RestoredMembers(s, b);
    SortedIsUnique(Buy, Restored(s).bids, b.bids);
    SortedIsUnique(Sell, Restored(s).asks, b.asks);
  }
}
