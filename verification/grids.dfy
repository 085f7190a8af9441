/** Tables of cells in row-major order. */
module Grids {
  import opened Domain

  lemma {:induction false} GridIndex(row: nat, column: nat, rows: nat, columns: nat)
    requires row < rows && column < columns
    ensures row * columns + column < rows * columns
  {
    MultiplyMonotone(row + 1, rows, columns);
  }

  function Row<T>(f: (nat, nat) -> T, origin: nat, n: nat): seq<T> {
    seq(n, d requires 0 <= d < n => f(origin, d))
  }

  function RowMajor<T>(f: (nat, nat) -> T, rows: nat, n: nat): (r: seq<T>)
    ensures |r| == rows * n
  {
    if rows == 0 then [] else RowMajor(f, rows - 1, n) + Row(f, rows - 1, n)
  }

  lemma {:induction false} RowMajorAt<T>(f: (nat, nat) -> T, rows: nat, n: nat, origin: nat, destination: nat)
    requires origin < rows && destination < n
    ensures origin * n + destination < rows * n
    ensures RowMajor(f, rows, n)[origin * n + destination] == f(origin, destination)
  {
    GridIndex(origin, destination, rows, n);
    if origin < rows - 1 {
      RowMajorAt(f, rows - 1, n, origin, destination);
    }
  }

  /** Equal cells make equal tables. */
  lemma {:induction false} RowMajorAgrees<T>(f: (nat, nat) -> T, g: (nat, nat) -> T, rows: nat, n: nat)
    requires forall o, d | 0 <= o < rows && 0 <= d < n :: f(o, d) == g(o, d)
    ensures RowMajor(f, rows, n) == RowMajor(g, rows, n)
  {
    if rows > 0 {
      RowMajorAgrees(f, g, rows - 1, n);
      assert Row(f, rows - 1, n) == Row(g, rows - 1, n);
    }
  }

  lemma {:induction false} RowMajorHolds<T>(f: (nat, nat) -> T, rows: nat, n: nat, p: T -> bool)
    requires forall o, d | 0 <= o < rows && 0 <= d < n :: p(f(o, d))
    ensures forall k | 0 <= k < |RowMajor(f, rows, n)| :: p(RowMajor(f, rows, n)[k])
  {
    if rows > 0 {
      RowMajorHolds(f, rows - 1, n, p);
    }
  }
}
