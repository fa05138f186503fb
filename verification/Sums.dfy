// Sums and selections over table rows, as SQL aggregates compute them.

module Sums {

  /** SUM(f(row)) over every row of a table. */
  function Sum<T>(rows: seq<T>, f: T -> int): int {
    if |rows| == 0 then 0 else Sum(rows[..|rows| - 1], f) + f(rows[|rows| - 1])
  }

  /** The rows satisfying p, in table order. */
  function Filter<T>(rows: seq<T>, p: T -> bool): seq<T> {
    if |rows| == 0 then []
    else Filter(rows[..|rows| - 1], p) + if p(rows[|rows| - 1]) then [rows[|rows| - 1]] else []
  }

  lemma SumPush<T>(rows: seq<T>, row: T, f: T -> int)
    ensures Sum(rows + [row], f) == Sum(rows, f) + f(row)
  {
    assert (rows + [row])[..|rows|] == rows;
  }

  lemma {:induction false} SumSet<T>(rows: seq<T>, i: nat, row: T, f: T -> int)
    requires i < |rows|
    ensures Sum(rows[i := row], f) == Sum(rows, f) - f(rows[i]) + f(row)
  {
    var n := |rows| - 1;
    if i == n {
      assert rows[i := row][..n] == rows[..n];
    } else {
      assert rows[i := row][..n] == rows[..n][i := row];
      SumSet(rows[..n], i, row, f);
    }
  }

  lemma {:induction false} SumLe<T>(rows: seq<T>, f: T -> int, g: T -> int)
    requires forall row :: row in rows ==> f(row) <= g(row)
    ensures Sum(rows, f) <= Sum(rows, g)
  {
    if |rows| > 0 {
      SumLe(rows[..|rows| - 1], f, g);
    }
  }

  lemma {:induction false} SumZero<T>(rows: seq<T>, f: T -> int)
    requires forall row :: row in rows ==> f(row) == 0
    ensures Sum(rows, f) == 0
  {
    if |rows| > 0 {
      SumZero(rows[..|rows| - 1], f);
    }
  }

  lemma {:induction false} SumAdd<T>(rows: seq<T>, f: T -> int, g: T -> int, h: T -> int)
    requires forall row :: row in rows ==> h(row) == f(row) + g(row)
    ensures Sum(rows, h) == Sum(rows, f) + Sum(rows, g)
  {
    if |rows| > 0 {
      SumAdd(rows[..|rows| - 1], f, g, h);
    }
  }

  lemma FilterPush<T>(rows: seq<T>, row: T, p: T -> bool)
    ensures Filter(rows + [row], p) == Filter(rows, p) + if p(row) then [row] else []
  {
    assert (rows + [row])[..|rows|] == rows;
  }
}
