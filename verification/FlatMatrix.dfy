/** Square matrices stored row by row in one array. */
module FlatMatrix {

  function Index(n: int, i: int, j: int): int { i * n + j }

  lemma IndexInRange(n: int, i: int, j: int)
    requires 0 <= i < n && 0 <= j < n
    ensures 0 <= Index(n, i, j) < n * n
  {
    RowsInOrder(n, i, n);
  }

  lemma RowsInOrder(n: int, i: int, a: int)
    requires 0 <= i < a && n >= 0
    ensures 0 <= i * n && i * n + n <= a * n
  {
    assert (a - i - 1) * n >= 0;
    assert a * n - (i * n + n) == (a - i - 1) * n;
  }

  lemma IndexDistinct(n: int, i: int, j: int, a: int, b: int)
    requires 0 <= i < n && 0 <= j < n && 0 <= a < n && 0 <= b < n && (i != a || j != b)
    ensures Index(n, i, j) != Index(n, a, b)
  {
    if i < a { RowsInOrder(n, i, a); } else if a < i { RowsInOrder(n, a, i); }
  }

  lemma IndexStep(n: int, i: int, j: int)
    ensures Index(n, i, j + 1) == Index(n, i, j) + 1 && Index(n, i + 1, j) == Index(n, i, j) + n
    ensures Index(n, 0, j) == j
  {
  }

  ghost predicate InMatrix(d: seq<int>, n: int, i: int, j: int) {
    0 <= i < n && 0 <= j < n && |d| == n * n
  }

  ghost function Cell(d: seq<int>, n: int, i: int, j: int): int
    requires InMatrix(d, n, i, j)
  {
    IndexInRange(n, i, j);
    d[Index(n, i, j)]
  }

  ghost function SetCell(d: seq<int>, n: int, i: int, j: int, v: int): (r: seq<int>)
    requires InMatrix(d, n, i, j)
    ensures |r| == |d|
  {
    IndexInRange(n, i, j);
    d[Index(n, i, j) := v]
  }

  lemma SetCellAt(d: seq<int>, n: int, i: int, j: int, v: int, a: int, b: int)
    requires InMatrix(d, n, i, j) && InMatrix(d, n, a, b)
    ensures Cell(SetCell(d, n, i, j, v), n, a, b) == if a == i && b == j then v else Cell(d, n, a, b)
  {
    IndexInRange(n, i, j);
    IndexInRange(n, a, b);
    if a != i || b != j { IndexDistinct(n, i, j, a, b); }
  }
}
