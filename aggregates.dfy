/** What the object-relational mapper's queries compute over a table that is
    keyed by primary key: the rows in key order, and the `Sum(...)`
    aggregate, which is None (SQL NULL) over no rows. */
module Aggregates {

  /** Primary keys are the database's auto-incremented row ids. */
  type Pk = nat

  datatype Option<+T> = None | Some(value: T)

  lemma {:induction false} HasLeast(s: set<Pk>)
    requires s != {}
    ensures exists k :: k in s && forall j :: j in s ==> k <= j
  {
    var x :| x in s;
    if s != {x} {
      HasLeast(s - {x});
      var m :| m in s - {x} && forall j :: j in s - {x} ==> m <= j;
      var least := if x < m then x else m;
      forall j | j in s ensures least <= j {
        if j != x { assert j in s - {x}; }
      }
    } else {
      assert forall j :: j in s ==> x <= j;
    }
  }

  function Least(s: set<Pk>): (k: Pk)
    requires s != {}
    ensures k in s && forall j :: j in s ==> k <= j
  {
    HasLeast(s);
    var k :| k in s && forall j :: j in s ==> k <= j; k
  }

  predicate Increasing(r: seq<Pk>) {
    forall i, j :: 0 <= i < j < |r| ==> r[i] < r[j]
  }

  /** The keys of a set in ascending order: the order in which the rows of
      an unordered query are listed. */
  function Ascending(s: set<Pk>): (r: seq<Pk>)
    ensures Increasing(r)
    ensures forall k :: k in r <==> k in s
    ensures |r| == |s|
    decreases |s|
  {
    if s == {} then []
    else
      var k := Least(s);
      var rest := Ascending(s - {k});
      assert forall i :: 0 <= i < |rest| ==> k < rest[i] by {
        forall i | 0 <= i < |rest| ensures k < rest[i] {
          assert rest[i] in s - {k};
        }
      }
      [k] + rest
  }

  /** The sum of `w` over the rows of a table. */
  function Total<T>(m: map<Pk, T>, w: T -> int): int
    decreases |m|
  {
    if |m| == 0 then 0
    else
      var k := Least(m.Keys);
      assert |m - {k}| == |m| - 1 by { assert (m - {k}).Keys == m.Keys - {k}; }
      w(m[k]) + Total(m - {k}, w)
  }

  /** SQL `SUM`: NULL over no rows, the total otherwise. */
  function Aggregate<T>(m: map<Pk, T>, w: T -> int): (r: Option<int>)
    ensures r == None <==> m == map[]
    ensures r != None ==> r.value == Total(m, w)
  {
    if |m| == 0 then None else Some(Total(m, w))
  }

  /** The total can be computed by taking any row out first. */
  lemma {:induction false} TotalRemove<T>(m: map<Pk, T>, w: T -> int, k: Pk)
    requires k in m
    ensures Total(m, w) == w(m[k]) + Total(m - {k}, w)
    decreases |m|
  {
    var j := Least(m.Keys);
    if j != k {
      assert (m - {j}).Keys == m.Keys - {j};
      assert (m - {k}).Keys == m.Keys - {k};
      TotalRemove(m - {j}, w, k);
      TotalRemove(m - {k}, w, j);
      assert m - {j} - {k} == m - {k} - {j};
    }
  }

  lemma TotalInsert<T>(m: map<Pk, T>, w: T -> int, k: Pk, v: T)
    requires k !in m
    ensures Total(m[k := v], w) == w(v) + Total(m, w)
  {
    TotalRemove(m[k := v], w, k);
    assert m[k := v] - {k} == m;
  }

  lemma TotalReplace<T>(m: map<Pk, T>, w: T -> int, k: Pk, v: T)
    requires k in m
    ensures Total(m[k := v], w) == Total(m, w) - w(m[k]) + w(v)
  {
    TotalRemove(m[k := v], w, k);
    TotalRemove(m, w, k);
    assert m[k := v] - {k} == m - {k};
  }

  predicate NonNegative<T>(m: map<Pk, T>, w: T -> int) {
    forall k :: k in m ==> w(m[k]) >= 0
  }

  /** Every row of `small` is a row of `big`. */
  ghost predicate SubTable<T>(small: map<Pk, T>, big: map<Pk, T>) {
    forall k :: k in small ==> k in big && small[k] == big[k]
  }

  /** With non-negative weights, a sub-table never totals more. */
  lemma {:induction false} TotalMonotonic<T>(small: map<Pk, T>, big: map<Pk, T>, w: T -> int)
    requires SubTable(small, big) && NonNegative(big, w)
    ensures Total(small, w) <= Total(big, w)
    decreases |big|
  {
    if small.Keys != big.Keys {
      var k :| k in big && k !in small;
      TotalRemove(big, w, k);
      assert (big - {k}).Keys == big.Keys - {k};
      TotalMonotonic(small, big - {k}, w);
    } else {
      assert small == big;
    }
  }

  lemma TotalNonNegative<T>(m: map<Pk, T>, w: T -> int)
    requires NonNegative(m, w)
    ensures Total(m, w) >= 0
  {
    TotalMonotonic(map[], m, w);
  }
}
