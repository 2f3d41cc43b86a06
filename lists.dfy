/**
 * The two array operations the admin pages apply to fetched rows:
 * `rows.filter(keep)` and `rows.filter(keep).length`.
 */
module Lists {

  /** `rows.filter(keep)`: the kept rows, in their original order (stated
      by `FilterOne` and `FilterAppend`, with duplicates by `FilterMultiset`). */
  function Filter<T>(rows: seq<T>, keep: T -> bool): (r: seq<T>)
    ensures |r| <= |rows|
    ensures forall i | 0 <= i < |r| :: r[i] in rows && keep(r[i])
    ensures forall i | 0 <= i < |rows| && keep(rows[i]) :: rows[i] in r
  {
    if rows == [] then []
    else if keep(rows[0]) then [rows[0]] + Filter(rows[1..], keep)
    else Filter(rows[1..], keep)
  }

  /** Each kept value occurs as often as in `rows`, every other value not
      at all. */
  lemma {:induction false} FilterMultiset<T(!new)>(rows: seq<T>, keep: T -> bool)
    ensures forall x :: multiset(Filter(rows, keep))[x] == if keep(x) then multiset(rows)[x] else 0
  {
    if rows != [] {
      assert rows == [rows[0]] + rows[1..];
      FilterMultiset(rows[1..], keep);
    }
  }

  /** A single row is kept iff it passes the test. */
  lemma FilterOne<T>(x: T, keep: T -> bool)
    ensures Filter([x], keep) == if keep(x) then [x] else []
  {
    assert [x][1..] == [];
  }

  /** Filtering a concatenation filters each part and keeps them in
      order: the kept rows appear in the order of `rows`. */
  lemma {:induction false} FilterAppend<T>(a: seq<T>, b: seq<T>, keep: T -> bool)
    ensures Filter(a + b, keep) == Filter(a, keep) + Filter(b, keep)
  {
    if a == [] {
      assert a + b == b;
    } else {
      assert (a + b)[0] == a[0];
      assert (a + b)[1..] == a[1..] + b;
      FilterAppend(a[1..], b, keep);
    }
  }

  /** The indices of the rows that pass the test. */
  function Kept<T>(rows: seq<T>, keep: T -> bool): set<nat> {
    set i: nat | i < |rows| && keep(rows[i])
  }

  /** A filter that keeps everything returns the rows unchanged. */
  lemma {:induction false} FilterAll<T>(rows: seq<T>, keep: T -> bool)
    requires forall i | 0 <= i < |rows| :: keep(rows[i])
    ensures Filter(rows, keep) == rows
  {
    if rows != [] {
      FilterAll(rows[1..], keep);
      assert rows == [rows[0]] + rows[1..];
    }
  }

  /** Two tests that agree on every row keep the same rows. */
  lemma {:induction false} FilterSame<T>(rows: seq<T>, p: T -> bool, q: T -> bool)
    requires forall i | 0 <= i < |rows| :: p(rows[i]) == q(rows[i])
    ensures Filter(rows, p) == Filter(rows, q)
  {
    if rows != [] {
      FilterSame(rows[1..], p, q);
    }
  }

  /** `rows.filter(keep).length`: the number of positions whose row passes
      the test. */
  function Count<T>(rows: seq<T>, keep: T -> bool): (n: nat)
    ensures n <= |rows|
    ensures n == |Kept(rows, keep)|
  {
    CountKept(rows, keep);
    |Filter(rows, keep)|
  }

  /** The kept rows are as many as the indices that pass the test. */
  lemma {:induction false} CountKept<T>(rows: seq<T>, keep: T -> bool)
    ensures |Filter(rows, keep)| == |Kept(rows, keep)|
    decreases |rows|
  {
    if rows != [] {
      var k := |rows| - 1;
      var init := rows[..k];
      assert rows == init + [rows[k]];
      FilterAppend(init, [rows[k]], keep);
      FilterOne(rows[k], keep);
      CountKept(init, keep);
      if keep(rows[k]) {
        assert Kept(rows, keep) == Kept(init, keep) + {k};
      } else {
        assert Kept(rows, keep) == Kept(init, keep);
      }
    }
  }

  /** Rows matching at most one of three disjoint tests are counted at most
      once in total. */
  lemma {:induction false} DisjointCounts<T>(rows: seq<T>, p: T -> bool, q: T -> bool, u: T -> bool)
    requires forall i | 0 <= i < |rows| ::
      !(p(rows[i]) && q(rows[i])) && !(p(rows[i]) && u(rows[i])) && !(q(rows[i]) && u(rows[i]))
    ensures Count(rows, p) + Count(rows, q) + Count(rows, u) <= |rows|
  {
    if rows != [] {
      DisjointCounts(rows[1..], p, q, u);
    }
  }

  /** Counting two disjoint tests separately is counting their union. */
  lemma {:induction false} CountUnion<T>(rows: seq<T>, p: T -> bool, q: T -> bool, u: T -> bool)
    requires forall i | 0 <= i < |rows| :: !(p(rows[i]) && q(rows[i])) && (u(rows[i]) <==> p(rows[i]) || q(rows[i]))
    ensures Count(rows, p) + Count(rows, q) == Count(rows, u)
  {
    if rows != [] {
      CountUnion(rows[1..], p, q, u);
    }
  }
}
