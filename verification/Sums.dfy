/** Sums over the values of a finite map and over the elements of a list. */
module Sums {

  ghost function SumMap<V>(m: map<nat, V>, f: V -> int): int
    decreases |m|
  {
    if m == map[] then 0 else
      var k :| k in m;
      f(m[k]) + SumMap(m - {k}, f)
  }

  lemma SumRemove<V>(m: map<nat, V>, k: nat, f: V -> int)
    requires k in m
    ensures SumMap(m, f) == f(m[k]) + SumMap(m - {k}, f)
    decreases |m|
  {
    var k0 :| k0 in m && SumMap(m, f) == f(m[k0]) + SumMap(m - {k0}, f);
    if k0 != k {
      SumRemove(m - {k0}, k, f);
      SumRemove(m - {k}, k0, f);
      assert m - {k0} - {k} == m - {k} - {k0};
    }
  }

  lemma SumInsert<V>(m: map<nat, V>, k: nat, v: V, f: V -> int)
    ensures SumMap(m[k := v], f) == f(v) + SumMap(m - {k}, f)
  {
    SumRemove(m[k := v], k, f);
    assert m[k := v] - {k} == m - {k};
  }

  lemma SumAbsent<V>(m: map<nat, V>, k: nat)
    requires k !in m
    ensures m - {k} == m
  {
  }

  lemma {:induction false} SumBounds<V>(m: map<nat, V>, f: V -> int)
    requires forall k :: k in m ==> f(m[k]) >= 0
    ensures SumMap(m, f) >= 0
    ensures forall k :: k in m ==> f(m[k]) <= SumMap(m, f)
    decreases |m|
  {
    if m != map[] {
      forall k | k in m
        ensures SumMap(m, f) >= 0 && f(m[k]) <= SumMap(m, f)
      {
        SumRemove(m, k, f);
        SumBounds(m - {k}, f);
      }
      var k :| k in m;
      SumRemove(m, k, f);
      SumBounds(m - {k}, f);
    }
  }

  function SumSeq<T>(s: seq<T>, f: T -> int): int
    decreases |s|
  {
    if s == [] then 0 else SumSeq(s[..|s| - 1], f) + f(s[|s| - 1])
  }

  lemma SumOne<T>(x: T, f: T -> int)
    ensures SumSeq([x], f) == f(x)
  {
    assert [x][..0] == [];
  }

  lemma SumAppend<T>(a: seq<T>, c: seq<T>, f: T -> int)
    ensures SumSeq(a + c, f) == SumSeq(a, f) + SumSeq(c, f)
    decreases |c|
  {
    if c == [] {
      assert a + c == a;
    } else {
      assert (a + c)[..|a + c| - 1] == a + c[..|c| - 1];
      SumAppend(a, c[..|c| - 1], f);
    }
  }

  lemma SumUpdate<T>(s: seq<T>, i: nat, x: T, f: T -> int)
    requires i < |s|
    ensures SumSeq(s[i := x], f) == SumSeq(s, f) - f(s[i]) + f(x)
    decreases |s|
  {
    var n := |s| - 1;
    if i == n {
      assert s[i := x][..n] == s[..n];
    } else {
      assert s[i := x][..n] == s[..n][i := x];
      SumUpdate(s[..n], i, x, f);
    }
  }

  lemma SumSame<T>(s: seq<T>, t: seq<T>, f: T -> int, g: T -> int)
    requires |s| == |t| && forall i :: 0 <= i < |s| ==> f(s[i]) == g(t[i])
    ensures SumSeq(s, f) == SumSeq(t, g)
    decreases |s|
  {
    if s != [] {
      var n := |s| - 1;
      assert forall i :: 0 <= i < n ==> s[..n][i] == s[i] && t[..n][i] == t[i];
      SumSame(s[..n], t[..n], f, g);
    }
  }

  lemma SumMapDifference<V>(m: map<nat, V>, f: V -> int, g: V -> int, h: V -> int)
    requires forall k :: k in m ==> f(m[k]) == g(m[k]) - h(m[k])
    ensures SumMap(m, f) == SumMap(m, g) - SumMap(m, h)
    decreases |m|
  {
    if m != map[] {
      var k :| k in m;
      SumRemove(m, k, f);
      SumRemove(m, k, g);
      SumRemove(m, k, h);
      SumMapDifference(m - {k}, f, g, h);
    }
  }

  lemma SumMapOfZeros<V>(m: map<nat, V>, f: V -> int)
    requires forall k :: k in m ==> f(m[k]) == 0
    ensures SumMap(m, f) == 0
    decreases |m|
  {
    if m != map[] {
      var k :| k in m;
      SumRemove(m, k, f);
      SumMapOfZeros(m - {k}, f);
    }
  }
}
