/** Generic sequence helpers: flattening a list of rows (JavaScript's
    `grid.flat()`, and the row-major order of the backend's grids) and
    reversal (Python's `reversed`). */
module Sequences {

  function Concat<T>(rows: seq<seq<T>>): seq<T> {
    if |rows| == 0 then [] else Concat(rows[..|rows| - 1]) + rows[|rows| - 1]
  }

  /** Flattening rows of equal length n puts `rows[x][y]` at x*n + y. */
  lemma {:induction false} ConcatOfRows<T>(rows: seq<seq<T>>, n: nat)
    requires forall x :: 0 <= x < |rows| ==> |rows[x]| == n
    ensures |Concat(rows)| == |rows| * n
    ensures forall x, y :: 0 <= x < |rows| && 0 <= y < n ==>
      x * n + y < |Concat(rows)| && Concat(rows)[x * n + y] == rows[x][y]
  {
    if |rows| > 0 {
      var front, last := rows[..|rows| - 1], rows[|rows| - 1];
      ConcatOfRows(front, n);
      var c := Concat(front);
      assert Concat(rows) == c + last;
      assert |c| + n == |rows| * n by { assert |rows| * n == (|front| + 1) * n; }
      forall x, y | 0 <= x < |rows| && 0 <= y < n
        ensures x * n + y < |c + last| && (c + last)[x * n + y] == rows[x][y]
      {
        CellBelow(x, y, n, |rows|);
        if x < |front| {
          CellBelow(x, y, n, |front|);
          assert rows[x] == front[x];
        } else {
          assert x * n == |c|;
        }
      }
    }
  }

  /** Cell (x, y) of m rows of length n lies below m*n. */
  lemma CellBelow(x: int, y: int, n: int, m: int)
    requires 0 <= x < m && 0 <= y < n
    ensures x * n + y < m * n && (x + 1) * n <= m * n
  {
    assert (m - 1 - x) * n >= 0;
  }

  function Reversed<T>(s: seq<T>): (r: seq<T>)
    ensures |r| == |s|
    ensures forall i :: 0 <= i < |s| ==> r[i] == s[|s| - 1 - i]
  {
    if |s| == 0 then [] else [s[|s| - 1]] + Reversed(s[..|s| - 1])
  }

  // ---------------------------------------------------------------------
  // Row-major indexing

  lemma MulPositiveBound(a: int, m: int)
    requires m > 0 && a >= 1
    ensures a * m >= m
  {
  }

  /** Position x*m + y of rows of length m is row x, column y. */
  lemma RowMajorIndex(m: int, x: int, y: int)
    requires m > 0 && x >= 0 && 0 <= y < m
    ensures (x * m + y) / m == x && (x * m + y) % m == y
  {
    var k := x * m + y;
    var q, r := k / m, k % m;
    assert q * m + r == x * m + y;
    assert (q - x) * m == y - r;
    if q - x >= 1 {
      MulPositiveBound(q - x, m);
    } else if x - q >= 1 {
      MulPositiveBound(x - q, m);
    }
  }

  lemma MulMonotone(a: int, b: int, m: int)
    requires m >= 0
    ensures a <= b ==> a * m <= b * m
  {
    if a <= b {
      assert (b - a) * m >= 0;
    }
  }

  /** Every position below m*m lies in some row x < m. */
  lemma RowMajorBounds(m: int, k: int)
    requires m > 0 && 0 <= k < m * m
    ensures 0 <= k / m < m && 0 <= k % m < m
    ensures k == (k / m) * m + k % m
  {
    var q := k / m;
    MulMonotone(m, q, m);
  }
}
