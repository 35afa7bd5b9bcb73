/** One side of the book: an id map beside a queue of (price, id) keys, and the sorted list of
    resting orders the two stand for (matching/order_book.go, `depth`). */
module Depths {
  import opened Exchange

  datatype Key = Key(price: int, orderId: nat)

  function KeyOf(o: BookOrder): Key {
    Key(o.price, o.orderId)
  }

  function Cmp(a: int, b: int): int {
    if a < b then -1 else if a > b then 1 else 0
  }

  function AscComparator(a: Key, b: Key): int {
    var x := Cmp(a.price, b.price);
    if x != 0 then x else if a.orderId < b.orderId then -1 else if a.orderId > b.orderId then 1 else 0
  }

  function DescComparator(a: Key, b: Key): int {
    var x := Cmp(a.price, b.price);
    if x != 0 then -x else if a.orderId < b.orderId then -1 else if a.orderId > b.orderId then 1 else 0
  }

  /** Asks queue by ascending price, bids by descending price, equal prices by ascending id. */
  predicate Before(side: Side, a: Key, b: Key) {
    (if side == Sell then AscComparator(a, b) else DescComparator(a, b)) < 0
  }

  lemma BeforeIsAStrictOrder(side: Side, a: Key, b: Key, c: Key)
    ensures !Before(side, a, a)
    ensures a == b || Before(side, a, b) || Before(side, b, a)
    ensures Before(side, a, b) ==> !Before(side, b, a)
    ensures Before(side, a, b) && Before(side, b, c) ==> Before(side, a, c)
  {
  }

  ghost predicate SortedKeys(side: Side, q: seq<Key>) {
    forall i, j {:trigger Before(side, q[i], q[j])} :: 0 <= i < j < |q| ==> Before(side, q[i], q[j])
  }

  ghost predicate Sorted(side: Side, s: seq<BookOrder>) {
    forall i, j {:trigger Before(side, KeyOf(s[i]), KeyOf(s[j]))} :: 0 <= i < j < |s| ==>
      Before(side, KeyOf(s[i]), KeyOf(s[j]))
  }

  ghost predicate DistinctIds(s: seq<BookOrder>) {
    forall i, j {:trigger s[i].orderId, s[j].orderId} :: 0 <= i < j < |s| ==> s[i].orderId != s[j].orderId
  }

  ghost predicate HasId(s: seq<BookOrder>, id: nat) {
    exists o :: o in s && o.orderId == id
  }

  /** The tree map's Put and Remove on the sorted list of its keys. */
  function PutKey(side: Side, q: seq<Key>, k: Key): seq<Key> {
    if q == [] then [k]
    else if k == q[0] then q
    else if Before(side, k, q[0]) then [k] + q
    else [q[0]] + PutKey(side, q[1..], k)
  }

  function RemoveKey(q: seq<Key>, k: Key): seq<Key> {
    if q == [] then [] else if q[0] == k then q[1..] else [q[0]] + RemoveKey(q[1..], k)
  }

  /** The same operations on the list of resting orders. */
  function Insert(side: Side, s: seq<BookOrder>, o: BookOrder): seq<BookOrder> {
    if s == [] then [o]
    else if Before(side, KeyOf(o), KeyOf(s[0])) then [o] + s
    else [s[0]] + Insert(side, s[1..], o)
  }

  /** What taking `size` from an order leaves: nothing once the order is empty. */
  function Reduced(o: BookOrder, size: int): seq<BookOrder> {
    if o.size == size then [] else [o.(size := o.size - size)]
  }

  function Decrease(s: seq<BookOrder>, id: nat, size: int): seq<BookOrder> {
    if s == [] then []
    else if s[0].orderId == id then Reduced(s[0], size) + s[1..]
    else [s[0]] + Decrease(s[1..], id, size)
  }

  function Lookup(s: seq<BookOrder>, id: nat): (r: Option<BookOrder>)
    ensures r.Some? <==> HasId(s, id)
    ensures r.Some? ==> r.value in s && r.value.orderId == id
  {
    if s == [] then None
    else if s[0].orderId == id then
      assert s == [s[0]] + s[1..];
      assert s[0] in s;
      Some(s[0])
    else
      assert s == [s[0]] + s[1..];
      Lookup(s[1..], id)
  }

  // ---- insertion and decrease keep the order ----

  lemma InsertMembers(side: Side, s: seq<BookOrder>, o: BookOrder)
    ensures forall x :: x in Insert(side, s, o) <==> x in s || x == o
  {
    if s != [] {
      assert s == [s[0]] + s[1..];
      if !Before(side, KeyOf(o), KeyOf(s[0])) {
        InsertMembers(side, s[1..], o);
      }
    }
  }

  lemma TailSorted(side: Side, s: seq<BookOrder>)
    requires Sorted(side, s) && s != []
    ensures Sorted(side, s[1..])
    ensures forall x :: x in s[1..] ==> Before(side, KeyOf(s[0]), KeyOf(x))
  {
  }

  lemma ConsSorted(side: Side, o: BookOrder, s: seq<BookOrder>)
    requires Sorted(side, s)
    requires forall x :: x in s ==> Before(side, KeyOf(o), KeyOf(x))
    ensures Sorted(side, [o] + s)
  {
    var t := [o] + s;
    forall i, j | 0 <= i < j < |t|
      ensures Before(side, KeyOf(t[i]), KeyOf(t[j]))
    {
      assert t[j] == s[j - 1] && s[j - 1] in s;
      if i > 0 {
        assert t[i] == s[i - 1];
      }
    }
  }

  lemma InsertSorted(side: Side, s: seq<BookOrder>, o: BookOrder)
    requires Sorted(side, s)
    requires forall x :: x in s ==> KeyOf(x) != KeyOf(o)
    ensures Sorted(side, Insert(side, s, o))
  {
    if s != [] {
      TailSorted(side, s);
      if Before(side, KeyOf(o), KeyOf(s[0])) {
        forall x | x in s
          ensures Before(side, KeyOf(o), KeyOf(x))
        {
          BeforeIsAStrictOrder(side, KeyOf(o), KeyOf(s[0]), KeyOf(x));
        }
        ConsSorted(side, o, s);
      } else {
        BeforeIsAStrictOrder(side, KeyOf(o), KeyOf(s[0]), KeyOf(o));
        InsertSorted(side, s[1..], o);
        InsertMembers(side, s[1..], o);
        ConsSorted(side, s[0], Insert(side, s[1..], o));
      }
    }
  }

  lemma ConsDistinct(o: BookOrder, s: seq<BookOrder>)
    requires DistinctIds(s) && !HasId(s, o.orderId)
    ensures DistinctIds([o] + s)
  {
    var t := [o] + s;
    forall i, j | 0 <= i < j < |t|
      ensures t[i].orderId != t[j].orderId
    {
      assert t[j] == s[j - 1] && s[j - 1] in s;
    }
  }

  lemma TailDistinct(s: seq<BookOrder>)
    requires DistinctIds(s) && s != []
    ensures DistinctIds(s[1..]) && !HasId(s[1..], s[0].orderId)
  {
  }

  lemma InsertDistinct(side: Side, s: seq<BookOrder>, o: BookOrder)
    requires DistinctIds(s) && !HasId(s, o.orderId)
    ensures DistinctIds(Insert(side, s, o))
  {
    if s == [] {
    } else if Before(side, KeyOf(o), KeyOf(s[0])) {
      ConsDistinct(o, s);
    } else {
      TailDistinct(s);
      forall x | x in s[1..] ensures x in s { }
      InsertDistinct(side, s[1..], o);
      InsertMembers(side, s[1..], o);
      assert s[0] in s;
      ConsDistinct(s[0], Insert(side, s[1..], o));
    }
  }

  /** Two queues in order over the same orders are the same queue: the order in which orders
      arrive in a snapshot cannot matter. */
  lemma {:induction false} SortedIsUnique(side: Side, s: seq<BookOrder>, t: seq<BookOrder>)
    requires Sorted(side, s) && Sorted(side, t)
    requires forall x :: x in s <==> x in t
    ensures s == t
  {
    hide Before;
    EmptyTogether(s, t);
    if s != [] {
      assert s[0] in t && t[0] in s;
      HeadIsFirst(side, s, t[0]);
      HeadIsFirst(side, t, s[0]);
      BeforeIsAStrictOrder(side, KeyOf(s[0]), KeyOf(t[0]), KeyOf(s[0]));
      TailMembers(side, s);
      TailMembers(side, t);
      TailSorted(side, s);
      TailSorted(side, t);
      SortedIsUnique(side, s[1..], t[1..]);
      assert s == [s[0]] + s[1..] && t == [t[0]] + t[1..];
    }
  }

  lemma EmptyTogether<T>(s: seq<T>, t: seq<T>)
    requires forall x :: x in s <==> x in t
    ensures s == [] <==> t == []
  {
    if s != [] {
      assert s[0] in s;
    }
    if t != [] {
      assert t[0] in t;
    }
  }

  lemma HeadIsFirst(side: Side, s: seq<BookOrder>, x: BookOrder)
    requires Sorted(side, s) && x in s
    ensures x == s[0] || Before(side, KeyOf(s[0]), KeyOf(x))
  {
    var i :| 0 <= i < |s| && s[i] == x;
    assert i > 0 ==> Before(side, KeyOf(s[0]), KeyOf(s[i]));
  }

  lemma TailMembers(side: Side, s: seq<BookOrder>)
    requires Sorted(side, s) && s != []
    ensures forall x :: x in s[1..] <==> x in s && x != s[0]
  {
    forall x
      ensures x in s[1..] <==> x in s && x != s[0]
    {
      assert s == [s[0]] + s[1..];
      if x in s[1..] {
        var i :| 0 <= i < |s| - 1 && s[1..][i] == x;
        assert Before(side, KeyOf(s[0]), KeyOf(s[i + 1]));
        BeforeIsAStrictOrder(side, KeyOf(x), KeyOf(x), KeyOf(x));
      }
    }
  }

  /** Taking the last inserted order back out restores the queue. */
  lemma {:induction false} DecreaseUndoesInsert(side: Side, s: seq<BookOrder>, o: BookOrder)
    requires !HasId(s, o.orderId)
    ensures Decrease(Insert(side, s, o), o.orderId, o.size) == s
    ensures Lookup(Insert(side, s, o), o.orderId) == Some(o)
  {
    if s == [] {
    } else if Before(side, KeyOf(o), KeyOf(s[0])) {
      assert ([o] + s)[1..] == s;
    } else {
      assert s[0] in s;
      forall x | x in s[1..] ensures x in s { }
      DecreaseUndoesInsert(side, s[1..], o);
      var t := Insert(side, s[1..], o);
      assert ([s[0]] + t)[1..] == t;
    }
  }

  lemma DecreaseSkips(done: seq<BookOrder>, rest: seq<BookOrder>, id: nat, size: int)
    requires !HasId(done, id)
    ensures Decrease(done + rest, id, size) == done + Decrease(rest, id, size)
  {
    if done == [] {
      assert done + rest == rest;
    } else {
      assert done[0] in done;
      forall x | x in done[1..] ensures x in done { }
      assert (done + rest)[1..] == done[1..] + rest;
      DecreaseSkips(done[1..], rest, id, size);
    }
  }

  /** A decrease keeps every key but that of an emptied order, and touches no other order. */
  lemma DecreaseMembers(s: seq<BookOrder>, id: nat, size: int)
    requires DistinctIds(s)
    ensures forall x :: x in Decrease(s, id, size) && x.orderId != id ==> x in s
    ensures forall x :: x in s && x.orderId != id ==> x in Decrease(s, id, size)
    ensures forall x :: x in Decrease(s, id, size) && x.orderId == id ==>
                          exists o :: o in s && o.orderId == id && o.size != size && x == o.(size := o.size - size)
  {
    if s != [] {
      TailDistinct(s);
      assert s == [s[0]] + s[1..];
      if s[0].orderId != id {
        DecreaseMembers(s[1..], id, size);
      } else {
        assert s[0] in s;
      }
    }
  }

  lemma DecreaseSorted(side: Side, s: seq<BookOrder>, id: nat, size: int)
    requires Sorted(side, s) && DistinctIds(s)
    ensures Sorted(side, Decrease(s, id, size)) && DistinctIds(Decrease(s, id, size))
  {
    if s != [] {
      TailSorted(side, s);
      TailDistinct(s);
      if s[0].orderId == id {
        if s[0].size != size {
          ConsSorted(side, s[0].(size := s[0].size - size), s[1..]);
          ConsDistinct(s[0].(size := s[0].size - size), s[1..]);
        } else {
          assert Decrease(s, id, size) == s[1..];
        }
      } else {
        DecreaseSorted(side, s[1..], id, size);
        DecreaseMembers(s[1..], id, size);
        ConsSorted(side, s[0], Decrease(s[1..], id, size));
        ConsDistinct(s[0], Decrease(s[1..], id, size));
      }
    }
  }

  // ---- the id map beside the key queue ----

  /** The queue holds exactly one key per id in the map, the key of the order stored there. */
  ghost predicate Coupled(side: Side, orders: map<nat, BookOrder>, queue: seq<Key>) {
    && SortedKeys(side, queue)
    && (forall k :: k in queue ==> k.orderId in orders && KeyOf(orders[k.orderId]) == k)
    && (forall id :: id in orders ==> orders[id].orderId == id && KeyOf(orders[id]) in queue)
  }

  function ViewOf(orders: map<nat, BookOrder>, queue: seq<Key>): (s: seq<BookOrder>)
    requires forall k :: k in queue ==> k.orderId in orders
    ensures |s| == |queue|
    ensures forall i :: 0 <= i < |queue| ==> s[i] == orders[queue[i].orderId]
  {
    if queue == [] then [] else
      assert forall k :: k in queue[1..] ==> k in queue;
      [orders[queue[0].orderId]] + ViewOf(orders, queue[1..])
  }

  /** The queue lists the orders of the map, each once. */
  lemma CoupledIds(side: Side, orders: map<nat, BookOrder>, queue: seq<Key>)
    requires Coupled(side, orders, queue)
    ensures forall id :: HasId(ViewOf(orders, queue), id) <==> id in orders
    ensures forall id :: id in orders ==> orders[id] in ViewOf(orders, queue)
    ensures forall o :: o in ViewOf(orders, queue) ==> o.orderId in orders && orders[o.orderId] == o
  {
    var s := ViewOf(orders, queue);
    forall id | id in orders
      ensures orders[id] in s
    {
      var i :| 0 <= i < |queue| && queue[i] == KeyOf(orders[id]);
      assert s[i] == orders[id];
    }
    forall o | o in s
      ensures o.orderId in orders && orders[o.orderId] == o
    {
      var i :| 0 <= i < |s| && s[i] == o;
      assert queue[i] in queue;
    }
  }

  lemma {:induction false} CoupledOrder(side: Side, orders: map<nat, BookOrder>, queue: seq<Key>)
    requires Coupled(side, orders, queue)
    ensures Sorted(side, ViewOf(orders, queue)) && DistinctIds(ViewOf(orders, queue))
  {
    var s := ViewOf(orders, queue);
    forall i, j | 0 <= i < j < |s|
      ensures s[i].orderId != s[j].orderId
      ensures Before(side, KeyOf(s[i]), KeyOf(s[j]))
    {
      assert queue[i] in queue && queue[j] in queue && Before(side, queue[i], queue[j]);
    }
  }

  lemma PutKeyMembers(side: Side, q: seq<Key>, k: Key)
    ensures forall x :: x in PutKey(side, q, k) <==> x in q || x == k
  {
    if q != [] {
      assert q == [q[0]] + q[1..];
      if k != q[0] && !Before(side, k, q[0]) {
        PutKeyMembers(side, q[1..], k);
      }
    }
  }

  lemma PutKeySorted(side: Side, q: seq<Key>, k: Key)
    requires SortedKeys(side, q)
    ensures SortedKeys(side, PutKey(side, q, k))
  {
    if q != [] && k != q[0] {
      var r := PutKey(side, q, k);
      if Before(side, k, q[0]) {
        forall i, j | 0 <= i < j < |r|
          ensures Before(side, r[i], r[j])
        {
          if i == 0 && j > 1 {
            BeforeIsAStrictOrder(side, k, q[0], q[j - 1]);
          }
        }
      } else {
        PutKeySorted(side, q[1..], k);
        PutKeyMembers(side, q[1..], k);
        BeforeIsAStrictOrder(side, k, q[0], k);
        var t := PutKey(side, q[1..], k);
        forall i, j | 0 <= i < j < |r|
          ensures Before(side, r[i], r[j])
        {
          assert r[j] == t[j - 1] && t[j - 1] in t;
        }
      }
    }
  }

  lemma ViewAgrees(orders: map<nat, BookOrder>, orders': map<nat, BookOrder>, q: seq<Key>)
    requires forall k :: k in q ==> k.orderId in orders && k.orderId in orders' && orders[k.orderId] == orders'[k.orderId]
    ensures ViewOf(orders, q) == ViewOf(orders', q)
  {
  }

  lemma ViewOfPut(side: Side, orders: map<nat, BookOrder>, q: seq<Key>, o: BookOrder)
    requires forall k :: k in q ==> k.orderId in orders && KeyOf(orders[k.orderId]) == k && k.orderId != o.orderId
    ensures (PutKeyMembers(side, q, KeyOf(o));
             ViewOf(orders[o.orderId := o], PutKey(side, q, KeyOf(o))) == Insert(side, ViewOf(orders, q), o))
  {
    var orders' := orders[o.orderId := o];
    PutKeyMembers(side, q, KeyOf(o));
    if q == [] {
    } else if Before(side, KeyOf(o), q[0]) {
      assert q[0] in q;
      ViewAgrees(orders, orders', q);
      assert ([KeyOf(o)] + q)[1..] == q;
    } else {
      assert q[0] in q;
      ViewOfPut(side, orders, q[1..], o);
      PutKeyMembers(side, q[1..], KeyOf(o));
      assert PutKey(side, q, KeyOf(o))[1..] == PutKey(side, q[1..], KeyOf(o));
    }
  }

  /** Adding an order keeps one key per id exactly when the id is new or keeps its price. */
  lemma AddKeepsCoupling(side: Side, orders: map<nat, BookOrder>, queue: seq<Key>, o: BookOrder)
    requires Coupled(side, orders, queue)
    ensures Coupled(side, orders[o.orderId := o], PutKey(side, queue, KeyOf(o)))
            <==> o.orderId !in orders || orders[o.orderId].price == o.price
  {
    var k := KeyOf(o);
    PutKeySorted(side, queue, k);
    PutKeyMembers(side, queue, k);
    if o.orderId in orders && orders[o.orderId].price != o.price {
      var stale := KeyOf(orders[o.orderId]);
      assert stale in PutKey(side, queue, k);
    } else {
      assert forall x :: x in queue && x.orderId == o.orderId ==> x == k;
    }
  }

  lemma RemoveKeyMembers(side: Side, q: seq<Key>, k: Key)
    requires SortedKeys(side, q)
    ensures SortedKeys(side, RemoveKey(q, k))
    ensures forall x :: x in RemoveKey(q, k) <==> x in q && x != k
  {
    if q != [] {
      assert q == [q[0]] + q[1..];
      if q[0] == k {
        forall x | x in q[1..]
          ensures x != k
        {
          var i :| 0 <= i < |q[1..]| && q[1..][i] == x;
          assert Before(side, q[0], q[i + 1]);
        }
      } else {
        RemoveKeyMembers(side, q[1..], k);
        var r, t := RemoveKey(q, k), RemoveKey(q[1..], k);
        forall i, j | 0 <= i < j < |r|
          ensures Before(side, r[i], r[j])
        {
          assert r[j] == t[j - 1] && t[j - 1] in t;
        }
        forall x | x in q[1..]
          ensures x != q[0]
        {
          var i :| 0 <= i < |q[1..]| && q[1..][i] == x;
          assert Before(side, q[0], q[i + 1]);
        }
      }
    }
  }

  lemma RestHasOtherIds(side: Side, orders: map<nat, BookOrder>, q: seq<Key>)
    requires SortedKeys(side, q) && q != []
    requires forall x :: x in q ==> x.orderId in orders && KeyOf(orders[x.orderId]) == x
    ensures SortedKeys(side, q[1..]) && forall x :: x in q[1..] ==> x in q && x.orderId != q[0].orderId
  {
    forall x | x in q[1..]
      ensures x.orderId != q[0].orderId
    {
      var i :| 0 <= i < |q| - 1 && q[1..][i] == x;
      assert Before(side, q[0], q[i + 1]);
      BeforeIsAStrictOrder(side, x, x, x);
      assert q[0] in q;
    }
  }

  lemma {:induction false} ViewOfRemove(side: Side, orders: map<nat, BookOrder>, q: seq<Key>, k: Key)
    requires SortedKeys(side, q)
    requires forall x :: x in q ==> x.orderId in orders && KeyOf(orders[x.orderId]) == x
    requires k.orderId in orders && KeyOf(orders[k.orderId]) == k
    ensures (RemoveKeyMembers(side, q, k);
             ViewOf(orders - {k.orderId}, RemoveKey(q, k))
             == Decrease(ViewOf(orders, q), k.orderId, orders[k.orderId].size))
  {
    hide Before, SortedKeys, ViewOf;
    RemoveKeyMembers(side, q, k);
    var orders' := orders - {k.orderId};
    if q == [] {
      NoView(orders);
      NoView(orders');
    } else {
      assert q[0] in q;
      RestHasOtherIds(side, orders, q);
      ViewCons(orders, q);
      if q[0] == k {
        ViewAgrees(orders, orders', q[1..]);
      } else {
        ViewOfRemove(side, orders, q[1..], k);
        RemoveKeyMembers(side, q[1..], k);
        ViewCons(orders', RemoveKey(q, k));
        assert RemoveKey(q, k)[1..] == RemoveKey(q[1..], k);
      }
    }
  }

  lemma NoView(orders: map<nat, BookOrder>)
    ensures ViewOf(orders, []) == []
  {
  }

  lemma ViewCons(orders: map<nat, BookOrder>, q: seq<Key>)
    requires q != [] && forall x :: x in q ==> x.orderId in orders
    ensures forall x :: x in q[1..] ==> x.orderId in orders
    ensures ViewOf(orders, q) == [orders[q[0].orderId]] + ViewOf(orders, q[1..])
    ensures ViewOf(orders, q)[1..] == ViewOf(orders, q[1..])
  {
  }

  lemma ViewOfResize(side: Side, orders: map<nat, BookOrder>, q: seq<Key>, id: nat, size: int)
    requires SortedKeys(side, q)
    requires forall x :: x in q ==> x.orderId in orders && KeyOf(orders[x.orderId]) == x
    requires id in orders && orders[id].orderId == id && size != orders[id].size
    ensures ViewOf(orders[id := orders[id].(size := orders[id].size - size)], q)
            == Decrease(ViewOf(orders, q), id, size)
  {
    hide Before;
    var orders' := orders[id := orders[id].(size := orders[id].size - size)];
    if q != [] {
      assert q[0] in q;
      assert ViewOf(orders, q)[1..] == ViewOf(orders, q[1..]);
      RestHasOtherIds(side, orders, q);
      if q[0].orderId == id {
        ViewAgrees(orders, orders', q[1..]);
      } else {
        ViewOfResize(side, orders, q[1..], id, size);
      }
    }
  }

  /** Emptying an order drops its id and its key; anything less keeps both. */
  lemma {:induction false} EmptyKeepsCoupling(side: Side, orders: map<nat, BookOrder>, queue: seq<Key>, id: nat)
    requires Coupled(side, orders, queue) && id in orders
    ensures Coupled(side, orders - {id}, RemoveKey(queue, KeyOf(orders[id])))
    ensures ViewOf(orders - {id}, RemoveKey(queue, KeyOf(orders[id])))
            == Decrease(ViewOf(orders, queue), id, orders[id].size)
  {
    RemoveKeyMembers(side, queue, KeyOf(orders[id]));
    ViewOfRemove(side, orders, queue, KeyOf(orders[id]));
  }

  lemma ResizeKeepsCoupling(side: Side, orders: map<nat, BookOrder>, queue: seq<Key>, id: nat, size: int)
    requires Coupled(side, orders, queue) && id in orders && orders[id].size != size
    ensures Coupled(side, orders[id := orders[id].(size := orders[id].size - size)], queue)
    ensures ViewOf(orders[id := orders[id].(size := orders[id].size - size)], queue)
            == Decrease(ViewOf(orders, queue), id, size)
  {
    ViewOfResize(side, orders, queue, id, size);
  }

  lemma LookupInView(side: Side, orders: map<nat, BookOrder>, queue: seq<Key>, id: nat)
    requires Coupled(side, orders, queue)
    ensures Lookup(ViewOf(orders, queue), id) == if id in orders then Some(orders[id]) else None
  {
    CoupledIds(side, orders, queue);
    CoupledOrder(side, orders, queue);
  }

  datatype DepthError = NotFound | SizeTooSmall

  /** One decrease on the map and queue: the empty order loses its id and its key. */
  lemma {:induction false} DecreaseKeepsCoupling(side: Side, orders: map<nat, BookOrder>, queue: seq<Key>, id: nat, size: int,
                                                 orders': map<nat, BookOrder>, queue': seq<Key>)
    requires Coupled(side, orders, queue) && id in orders
    requires if orders[id].size == size then orders' == orders - {id} && queue' == RemoveKey(queue, KeyOf(orders[id]))
             else orders' == orders[id := orders[id].(size := orders[id].size - size)] && queue' == queue
    ensures Coupled(side, orders', queue')
    ensures ViewOf(orders', queue') == Decrease(ViewOf(orders, queue), id, size)
  {
    if orders[id].size == size {
      EmptyKeepsCoupling(side, orders, queue, id);
    } else {
      ResizeKeepsCoupling(side, orders, queue, id, size);
    }
  }

  function DecrError(s: seq<BookOrder>, id: nat, size: int): Option<DepthError> {
    match Lookup(s, id)
    case None => Some(NotFound)
    case Some(o) => if o.size < size then Some(SizeTooSmall) else None
  }

  class Depth {
    const side: Side
    var orders: map<nat, BookOrder>
    var queue: seq<Key>

    ghost predicate Valid()
      reads this
    {
      Coupled(side, orders, queue)
    }

    ghost function View(): seq<BookOrder>
      requires Valid()
      reads this
    {
      ViewOf(orders, queue)
    }

    constructor (side: Side)
      ensures this.side == side && Valid() && View() == []
    {
      this.side, orders, queue := side, map[], [];
    }

    /** Files an order under its id and key, whatever was filed before. */
    method Add(order: BookOrder)
      modifies this
      ensures orders == old(orders)[order.orderId := order]
      ensures queue == PutKey(side, old(queue), KeyOf(order))
      ensures old(Valid()) && order.orderId !in old(orders) ==>
                Valid() && View() == Insert(side, old(View()), order)
    {
      if Valid() && order.orderId !in orders {
        AddKeepsCoupling(side, orders, queue, order);
        ViewOfPut(side, orders, queue, order);
      }
      orders := orders[order.orderId := order];
      queue := PutKey(side, queue, KeyOf(order));
    }

    /** Adding an order under a new id. */
    method AddNew(order: BookOrder)
      requires Valid() && !HasId(View(), order.orderId)
      modifies this
      ensures Valid() && View() == Insert(side, old(View()), order)
    {
      CoupledIds(side, orders, queue);
      Add(order);
    }

    method DecrSize(orderId: nat, size: int) returns (err: Option<DepthError>)
      requires Valid()
      modifies this
      ensures Valid()
      ensures err == DecrError(old(View()), orderId, size)
      ensures View() == if err.None? then Decrease(old(View()), orderId, size) else old(View())
    {
      LookupInView(side, orders, queue, orderId);
      if orderId !in orders {
        return Some(NotFound);
      }
      var order := orders[orderId];
      if order.size < size {
        return Some(SizeTooSmall);
      }
      Shrink(order, size);
      return None;
    }

    /** Decreasing an order by its entire size, which removes it. */
    method TakeOut(orderId: nat) returns (found: Option<BookOrder>)
      requires Valid()
      modifies this
      ensures Valid() && found == Lookup(old(View()), orderId)
      ensures View() == if found.Some? then Decrease(old(View()), orderId, found.value.size) else old(View())
    {
      hide Coupled, ViewOf, Lookup, Decrease;
      LookupInView(side, orders, queue, orderId);
      if orderId !in orders {
        return None;
      }
      found := Some(orders[orderId]);
      var err := DecrSize(orderId, found.value.size);
      assert err.None?;
    }

    /** The checked part of a decrease. */
    method Shrink(order: BookOrder, size: int)
      requires Valid() && order.orderId in orders && orders[order.orderId] == order
      modifies this
      ensures Valid()
      ensures View() == Decrease(old(View()), order.orderId, size)
    {
      ghost var orders0, queue0 := orders, queue;
      if order.size == size {
        orders := orders - {order.orderId};
        queue := RemoveKey(queue, KeyOf(order));
      } else {
        orders := orders[order.orderId := order.(size := order.size - size)];
      }
      DecreaseKeepsCoupling(side, orders0, queue0, order.orderId, size, orders, queue);
    }
  }
}
