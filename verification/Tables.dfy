/** Queries and updates of a table kept as a list of rows in id order. */
module Tables {
  import opened Sums

  /** Row numbers that exist. */
  predicate InTable<T>(s: seq<T>, rows: seq<nat>) {
    forall k :: 0 <= k < |rows| ==> rows[k] < |s|
  }

  predicate Increasing(rows: seq<nat>) {
    forall j, k :: 0 <= j < k < |rows| ==> rows[j] < rows[k]
  }

  /** The first `limit` rows that a query picks. */
  function Rows<T>(s: seq<T>, pick: T -> bool, limit: nat): (rows: seq<nat>)
    ensures |rows| <= limit
    ensures forall k :: 0 <= k < |rows| ==> rows[k] < |s| && pick(s[rows[k]])
    ensures Increasing(rows)
    ensures forall i :: 0 <= i < |s| && pick(s[i]) && i !in rows ==>
              |rows| == limit && forall k :: 0 <= k < |rows| ==> rows[k] < i
    decreases |s|
  {
    if s == [] then []
    else
      var n := |s| - 1;
      var rows := Rows(s[..n], pick, limit);
      if |rows| < limit && pick(s[n]) then rows + [n] else rows
  }

  function Picked<T>(s: seq<T>, rows: seq<nat>): (r: seq<T>)
    requires InTable(s, rows)
    ensures |r| == |rows| && forall k :: 0 <= k < |rows| ==> r[k] == s[rows[k]]
    decreases |rows|
  {
    if rows == [] then [] else Picked(s, rows[..|rows| - 1]) + [s[rows[|rows| - 1]]]
  }

  /** The table with the given rows rewritten. */
  function Mark<T>(s: seq<T>, rows: seq<nat>, mark: T -> T): (r: seq<T>)
    requires InTable(s, rows) && Increasing(rows)
    ensures |r| == |s|
    ensures forall i :: 0 <= i < |s| ==> r[i] == if i in rows then mark(s[i]) else s[i]
    decreases |rows|
  {
    if rows == [] then s
    else
      var n := |rows| - 1;
      var r := Mark(s, rows[..n], mark);
      assert rows == rows[..n] + [rows[n]];
      r[rows[n] := mark(s[rows[n]])]
  }

  /** What rewriting rows does to a sum. */
  lemma SumMark<T>(s: seq<T>, rows: seq<nat>, mark: T -> T, f: T -> int, g: T -> int)
    requires InTable(s, rows) && Increasing(rows)
    requires forall k :: 0 <= k < |rows| ==> f(mark(s[rows[k]])) == f(s[rows[k]]) + g(s[rows[k]])
    ensures SumSeq(Mark(s, rows, mark), f) == SumSeq(s, f) + SumSeq(Picked(s, rows), g)
    decreases |rows|
  {
    if rows != [] {
      var n := |rows| - 1;
      SumMark(s, rows[..n], mark, f, g);
      var r := Mark(s, rows[..n], mark);
      SumUpdate(r, rows[n], mark(s[rows[n]]), f);
      assert rows[n] !in rows[..n];
      assert Picked(s, rows)[..n] == Picked(s, rows[..n]);
    }
  }

  lemma MarkNext<T>(s: seq<T>, rows: seq<nat>, k: nat, mark: T -> T)
    requires InTable(s, rows) && Increasing(rows) && k < |rows|
    ensures InTable(s, rows[..k]) && Increasing(rows[..k]) && InTable(s, rows[..k + 1]) && Increasing(rows[..k + 1])
    ensures Mark(s, rows[..k], mark)[rows[k]] == s[rows[k]]
    ensures Mark(s, rows[..k + 1], mark) == Mark(s, rows[..k], mark)[rows[k] := mark(s[rows[k]])]
  {
    assert rows[..k + 1][..k] == rows[..k];
    assert rows[k] !in rows[..k];
  }
}
