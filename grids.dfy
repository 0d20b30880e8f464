/** Two-dimensional integer grids as rows of samples (`grid[row][column]`). */
module Grids {

  type Grid = seq<seq<int>>

  /** `g` has `rows` rows, each of `columns` samples. */
  ghost predicate IsGrid<T>(g: seq<seq<T>>, rows: nat, columns: nat) {
    |g| == rows && forall i :: 0 <= i < rows ==> |g[i]| == columns
  }

  /** `init2DArray(rows, columns)`: a fresh rows x columns grid of zeros. */
  method Init2DArray(rows: nat, columns: nat) returns (arr: Grid)
    ensures IsGrid(arr, rows, columns)
    ensures forall i, j :: 0 <= i < rows && 0 <= j < columns ==> arr[i][j] == 0
  {
    arr := [];
    var i := 0;
    while i < rows
      invariant 0 <= i <= rows
      invariant IsGrid(arr, i, columns)
      invariant forall a, b :: 0 <= a < i && 0 <= b < columns ==> arr[a][b] == 0
    {
      var row: seq<int> := [];
      var j := 0;
      while j < columns
        invariant 0 <= j <= columns && |row| == j
        invariant forall b :: 0 <= b < j ==> row[b] == 0
      {
        row := row + [0];
        j := j + 1;
      }
      arr := arr + [row];
      i := i + 1;
    }
  }

  /** The contents of a real-valued array2, as a value: `Cells(a)[i][j] == a[i, j]`. */
  function Cells(a: array2<real>): (g: seq<seq<real>>)
    reads a
    ensures IsGrid(g, a.Length0, a.Length1)
    ensures forall i, j :: 0 <= i < a.Length0 && 0 <= j < a.Length1 ==> g[i][j] == a[i, j]
  {
    seq(a.Length0, i requires 0 <= i < a.Length0 reads a => seq(a.Length1, j requires 0 <= j < a.Length1 reads a => a[i, j]))
  }
}
