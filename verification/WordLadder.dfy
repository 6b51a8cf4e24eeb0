/** word-ladder-2: shortest paths in the graph whose nodes are words and whose
    edges join words that differ in at most one position. */
module WordLadder {
  import opened SetFacts
  import opened FlatMatrix
  import opened ListFacts

  // ------------------------------------------------------------ the graph

  /** All words have one length, as the problem promises. */
  predicate SameLength(ws: seq<string>) {
    forall i, j :: 0 <= i < |ws| && 0 <= j < |ws| ==> |ws[i]| == |ws[j]|
  }

  function Differences(s: string, t: string): (n: nat)
    requires |s| == |t|
  {
    if s == "" then 0
    else (if s[|s| - 1] != t[|s| - 1] then 1 else 0) + Differences(s[..|s| - 1], t[..|s| - 1])
  }

  predicate Edge(ws: seq<string>, i: int, j: int)
    requires SameLength(ws) && 0 <= i < |ws| && 0 <= j < |ws|
  {
    i != j && Differences(ws[i], ws[j]) <= 1
  }

  /** Differences counts the places where the words differ. */
  lemma {:induction false} DifferencesCount(s: string, t: string)
    requires |s| == |t|
    ensures Differences(s, t) == |set x | 0 <= x < |s| && s[x] != t[x]|
    decreases |s|
  {
    var all := set x | 0 <= x < |s| && s[x] != t[x];
    if s == "" {
      assert all == {};
    } else {
      var n := |s| - 1;
      var s', t' := s[..n], t[..n];
      var fewer := set x | 0 <= x < |s'| && s'[x] != t'[x];
      DifferencesCount(s', t');
      assert all == if s[n] != t[n] then fewer + {n} else fewer;
    }
  }

  /** At most one: no two places differ. */
  lemma FewDiffer(s: string, t: string)
    requires |s| == |t|
    ensures Differences(s, t) <= 1 <==> forall x, y :: 0 <= x < y < |s| ==> s[x] == t[x] || s[y] == t[y]
  {
    DifferencesCount(s, t);
    var all := set x | 0 <= x < |s| && s[x] != t[x];
    if |all| == 0 {
      forall x | 0 <= x < |s| ensures s[x] == t[x] { assert x !in all; }
    } else if |all| == 1 {
      var z := Pick(all);
      assert |all - {z}| == 0;
      forall x | 0 <= x < |s| && x != z ensures s[x] == t[x] { assert x !in all - {z}; }
    } else {
      var x := Pick(all);
      var y := Pick(all - {x});
      assert s[x] != t[x] && s[y] != t[y] && x != y;
    }
  }

  /** Two different nodes are joined exactly when no two letters of their words differ. */
  lemma EdgeMeans(ws: seq<string>, i: int, j: int)
    requires SameLength(ws) && 0 <= i < |ws| && 0 <= j < |ws|
    ensures Edge(ws, i, j) <==>
      i != j && !exists x, y :: 0 <= x < y < |ws[i]| && ws[i][x] != ws[j][x] && ws[i][y] != ws[j][y]
  {
    FewDiffer(ws[i], ws[j]);
  }

  lemma {:induction false} DifferencesSymmetric(s: string, t: string)
    requires |s| == |t|
    ensures Differences(s, t) == Differences(t, s)
    decreases |s|
  {
    if s != "" { DifferencesSymmetric(s[..|s| - 1], t[..|s| - 1]); }
  }

  /** p is a walk from i to j whose inner nodes are all below k. */
  ghost predicate Walk(ws: seq<string>, k: int, i: int, j: int, p: seq<int>)
    requires SameLength(ws)
  {
    && |p| >= 1 && p[0] == i && p[|p| - 1] == j
    && (forall t :: 0 <= t < |p| ==> 0 <= p[t] < |ws|)
    && (forall t :: 0 <= t < |p| - 1 ==> Edge(ws, p[t], p[t + 1]))
    && (forall t :: 0 < t < |p| - 1 ==> p[t] < k)
  }

  /** v is the length of a shortest such walk, or -1 when there is none. */
  ghost predicate IsDist(ws: seq<string>, k: int, i: int, j: int, v: int)
    requires SameLength(ws)
  {
    && v >= -1
    && (v >= 0 ==> exists p :: Walk(ws, k, i, j, p) && |p| == v + 1)
    && (forall p :: Walk(ws, k, i, j, p) ==> 0 <= v < |p|)
  }

  /** The distance, no node being excluded. */
  ghost predicate Distance(ws: seq<string>, i: int, j: int, v: int)
    requires SameLength(ws)
  {
    IsDist(ws, |ws|, i, j, v)
  }

  lemma DistanceUnique(ws: seq<string>, i: int, j: int, v: int, u: int)
    requires SameLength(ws) && Distance(ws, i, j, v) && Distance(ws, i, j, u)
    ensures v == u
  {
  }

  // ----------------------------------------------- one relaxation, on walks

  lemma Split(ws: seq<string>, k: int, i: int, j: int, p: seq<int>) returns (p1: seq<int>, p2: seq<int>)
    requires SameLength(ws) && Walk(ws, k + 1, i, j, p) && !Walk(ws, k, i, j, p)
    ensures Walk(ws, k, i, k, p1) && Walk(ws, k, k, j, p2) && |p1| + |p2| <= |p| + 1
  {
    var a := 1;
    while p[a] != k
      invariant 1 <= a < |p| - 1
      invariant forall t :: 0 < t < a ==> p[t] < k
      decreases |p| - a
    {
      a := a + 1;
      if a == |p| - 1 { assert false; }
    }
    var b := |p| - 2;
    while p[b] != k
      invariant a <= b < |p| - 1
      invariant forall t :: b < t < |p| - 1 ==> p[t] < k
      decreases b
    {
      b := b - 1;
    }
    p1, p2 := p[..a + 1], p[b..];
  }

  lemma Join(ws: seq<string>, k: int, i: int, j: int, p1: seq<int>, p2: seq<int>) returns (p: seq<int>)
    requires SameLength(ws) && Walk(ws, k, i, k, p1) && Walk(ws, k, k, j, p2)
    ensures Walk(ws, k + 1, i, j, p) && |p| == |p1| + |p2| - 1
  {
    p := p1 + p2[1..];
    forall t | 0 <= t < |p| - 1 ensures Edge(ws, p[t], p[t + 1]) {
      if t >= |p1| - 1 { assert p[t] == p2[t - |p1| + 1] && p[t + 1] == p2[t - |p1| + 2]; }
    }
    forall t | 0 < t < |p| - 1 ensures p[t] < k + 1 {
      if t >= |p1| { assert p[t] == p2[t - |p1| + 1]; }
    }
  }

  /** min of m and x + y, where -1 stands for "no walk". */
  function Relax(m: int, x: int, y: int): int {
    if x == -1 || y == -1 then m
    else if m == -1 || x + y < m then x + y
    else m
  }

  lemma RelaxIsDist(ws: seq<string>, k: int, i: int, j: int, m: int, x: int, y: int)
    requires SameLength(ws)
    requires IsDist(ws, k, i, j, m) && IsDist(ws, k, i, k, x) && IsDist(ws, k, k, j, y)
    ensures IsDist(ws, k + 1, i, j, Relax(m, x, y))
  {
    var v := Relax(m, x, y);
    if m >= 0 {
      var p :| Walk(ws, k, i, j, p) && |p| == m + 1;
      assert Walk(ws, k + 1, i, j, p);
    }
    if x >= 0 && y >= 0 {
      var p1 :| Walk(ws, k, i, k, p1) && |p1| == x + 1;
      var p2 :| Walk(ws, k, k, j, p2) && |p2| == y + 1;
      var p := Join(ws, k, i, j, p1, p2);
    }
    forall p | Walk(ws, k + 1, i, j, p) ensures 0 <= v < |p| {
      if !Walk(ws, k, i, j, p) {
        var p1, p2 := Split(ws, k, i, j, p);
      }
    }
  }

  lemma StartIsDist(ws: seq<string>, i: int, j: int)
    requires SameLength(ws) && 0 <= i < |ws| && 0 <= j < |ws|
    ensures IsDist(ws, 0, i, j, if i == j then 0 else if Edge(ws, i, j) then 1 else -1)
  {
    if i == j {
      assert Walk(ws, 0, i, j, [i]);
    } else if Edge(ws, i, j) {
      assert Walk(ws, 0, i, j, [i, j]);
    }
    forall p | Walk(ws, 0, i, j, p) ensures |p| <= 2 {
      assert |p| > 1 ==> p[1] >= 0;
    }
  }

  // --------------------------------------------- distances fit in a char

  lemma {:induction false} Pigeonhole(p: seq<int>, n: nat)
    requires forall t :: 0 <= t < |p| ==> 0 <= p[t] < n
    requires forall s, t :: 0 <= s < t < |p| ==> p[s] != p[t]
    ensures |p| <= n
  {
    var values := set t | 0 <= t < |p| :: p[t];
    DistinctCount(p, values);
    RangeCount(values, n);
  }

  lemma {:induction false} DistinctCount(p: seq<int>, values: set<int>)
    requires values == set t | 0 <= t < |p| :: p[t]
    requires forall s, t :: 0 <= s < t < |p| ==> p[s] != p[t]
    ensures |values| == |p|
    decreases |p|
  {
    if p != [] {
      var n := |p| - 1;
      var front := p[..n];
      var rest := set t | 0 <= t < n :: front[t];
      DistinctCount(front, rest);
      assert values == rest + {p[n]} && p[n] !in rest;
    }
  }

  lemma {:induction false} RangeCount(s: set<int>, n: nat)
    requires forall x :: x in s ==> 0 <= x < n
    ensures |s| <= n
    decreases n
  {
    if n == 0 {
      if |s| > 0 {
        var x := Pick(s);
        assert false;
      }
    } else {
      RangeCount(s - {n - 1}, n - 1);
    }
  }

  /** A shortest walk repeats no node, so it has fewer edges than there are nodes. */
  lemma DistBound(ws: seq<string>, k: int, i: int, j: int, v: int)
    requires SameLength(ws) && IsDist(ws, k, i, j, v)
    ensures v < |ws| || v == -1
  {
    if v >= 0 {
      var p :| Walk(ws, k, i, j, p) && |p| == v + 1;
      forall s, t | 0 <= s < t < |p| ensures p[s] != p[t] {
        if p[s] == p[t] {
          CutIsWalk(ws, k, i, j, p, s, t);
          assert false;
        }
      }
      Pigeonhole(p, |ws|);
    }
  }

  lemma CutIsWalk(ws: seq<string>, k: int, i: int, j: int, p: seq<int>, s: int, t: int)
    requires SameLength(ws) && Walk(ws, k, i, j, p) && 0 <= s < t < |p| && p[s] == p[t]
    ensures Walk(ws, k, i, j, p[..s] + p[t..])
  {
    var q := p[..s] + p[t..];
    assert forall u :: s <= u < |q| ==> q[u] == p[u - s + t];
    forall u | 0 <= u < |q| - 1 ensures Edge(ws, q[u], q[u + 1]) {
      if u >= s { assert q[u] == p[u - s + t] && q[u + 1] == p[u + 1 - s + t]; }
      else if u == s - 1 { assert q[u + 1] == p[t] == p[s]; }
    }
    forall u | 0 < u < |q| - 1 ensures q[u] < k {
      if u >= s { assert q[u] == p[u - s + t]; }
    }
  }

  // ------------------------------------------------- the flat distance matrix

  /** What a signed char holds after x is stored in it. */
  function ToChar(x: int): int { (x + 128) % 256 - 128 }

  /** Both halves of a symmetric matrix at once. */
  ghost function SetBoth(d: seq<int>, n: int, i: int, j: int, v: int): (r: seq<int>)
    requires InMatrix(d, n, i, j)
    ensures |r| == |d|
  {
    SetCell(SetCell(d, n, i, j, v), n, j, i, v)
  }

  lemma SetBothAt(d: seq<int>, n: int, i: int, j: int, v: int)
    requires InMatrix(d, n, i, j)
    ensures forall a, b :: 0 <= a < n && 0 <= b < n ==>
      Cell(SetBoth(d, n, i, j, v), n, a, b) == if (a == i && b == j) || (a == j && b == i) then v else Cell(d, n, a, b)
  {
    forall a, b | 0 <= a < n && 0 <= b < n
      ensures Cell(SetBoth(d, n, i, j, v), n, a, b) ==
              if (a == i && b == j) || (a == j && b == i) then v else Cell(d, n, a, b)
    {
      SetCellAt(SetCell(d, n, i, j, v), n, j, i, v, a, b);
      SetCellAt(d, n, i, j, v, a, b);
    }
  }

  ghost function StartCell(ws: seq<string>, i: int, j: int): int
    requires SameLength(ws)
  {
    if 0 <= i < |ws| && 0 <= j < |ws| && Edge(ws, i, j) then 1 else -1
  }

  ghost function RelaxCell(d: seq<int>, n: int, k: int, i: int, j: int): int {
    if InMatrix(d, n, i, j) && InMatrix(d, n, i, k)
    then Relax(Cell(d, n, i, j), Cell(d, n, i, k), Cell(d, n, k, j))
    else 0
  }

  /** What a sweep puts into a cell: the first matrix, or relaxation through node k as far as a
      char holds it. */
  datatype Goal = StartGoal(ws: seq<string>) | FloydGoal(was: seq<int>, n: int, k: int)
  {
    ghost function At(a: int, b: int): int {
      match this
      case StartGoal(ws) => if SameLength(ws) then StartCell(ws, a, b) else 0
      case FloydGoal(was, n, k) => ToChar(RelaxCell(was, n, k, a, b))
    }
  }

  /** Pairs a < b met before (i, j) in the loops `for i, for j > i`. */
  ghost predicate Before(a: int, b: int, i: int, j: int) { a < b && (a < i || (a == i && b < j)) }

  /** Every cell met so far holds its new value, on both sides; the others are old. */
  ghost predicate Swept(was: seq<int>, d: seq<int>, n: int, goal: Goal, i: int, j: int) {
    |was| == |d| == n * n &&
    forall a, b :: 0 <= a < n && 0 <= b < n ==>
      Cell(d, n, a, b) ==
        if Before(a, b, i, j) then goal.At(a, b)
        else if Before(b, a, i, j) then goal.At(b, a)
        else Cell(was, n, a, b)
  }

  lemma SweepStep(was: seq<int>, d: seq<int>, n: int, goal: Goal, i: int, j: int)
    requires Swept(was, d, n, goal, i, j) && 0 <= i < j < n
    ensures Swept(was, SetBoth(d, n, i, j, goal.At(i, j)), n, goal, i, j + 1)
  {
    SetBothAt(d, n, i, j, goal.At(i, j));
  }

  lemma SweepSkip(was: seq<int>, d: seq<int>, n: int, goal: Goal, i: int, j: int)
    requires Swept(was, d, n, goal, i, j) && 0 <= i < j < n && goal.At(i, j) == Cell(was, n, i, j)
    requires Cell(was, n, j, i) == Cell(was, n, i, j)
    ensures Swept(was, d, n, goal, i, j + 1)
  {
  }

  lemma SweepNextRow(was: seq<int>, d: seq<int>, n: int, goal: Goal, i: int)
    requires Swept(was, d, n, goal, i, n)
    ensures Swept(was, d, n, goal, i + 1, i + 2)
  {
  }

  /** All cells are distances over inner nodes below k. */
  ghost predicate AllDist(ws: seq<string>, d: seq<int>, k: int)
    requires SameLength(ws)
  {
    |d| == |ws| * |ws| &&
    forall i, j :: 0 <= i < |ws| && 0 <= j < |ws| ==> IsDist(ws, k, i, j, Cell(d, |ws|, i, j))
  }

  ghost predicate Symmetric(d: seq<int>, n: int) {
    |d| == n * n && forall i, j :: 0 <= i < n && 0 <= j < n ==> Cell(d, n, i, j) == Cell(d, n, j, i)
  }

  ghost predicate ZeroDiagonal(d: seq<int>, n: int) {
    |d| == n * n && forall i :: 0 <= i < n ==> Cell(d, n, i, i) == 0
  }

  /** What the matrix is between sweeps, right or wrong. */
  ghost predicate CharMatrix(d: seq<int>, n: int) {
    && Symmetric(d, n) && ZeroDiagonal(d, n)
    && forall i, j :: 0 <= i < n && 0 <= j < n ==> -128 <= Cell(d, n, i, j) <= 127
  }

  lemma StartMatrix(ws: seq<string>, zero: seq<int>, d: seq<int>)
    requires SameLength(ws) && Swept(zero, d, |ws|, StartGoal(ws), |ws|, |ws|)
    requires ZeroDiagonal(zero, |ws|)
    ensures AllDist(ws, d, 0) && CharMatrix(d, |ws|)
  {
    var n := |ws|;
    forall i, j | 0 <= i < n && 0 <= j < n ensures IsDist(ws, 0, i, j, Cell(d, n, i, j)) {
      StartIsDist(ws, i, j);
      if i > j { DifferencesSymmetric(ws[i], ws[j]); }
    }
  }

  lemma CharMatrixIsSymmetric(d: seq<int>, n: int)
    requires CharMatrix(d, n)
    ensures Symmetric(d, n)
  {
  }

  lemma RelaxKeepsPivot(was: seq<int>, n: int, k: int, a: int, b: int)
    requires InMatrix(was, n, a, b) && 0 <= k < n && CharMatrix(was, n) && (a == k || b == k)
    ensures ToChar(RelaxCell(was, n, k, a, b)) == Cell(was, n, a, b)
  {
  }

  /** Row and column k do not change during sweep k, so reading them is reading the old matrix. */
  lemma PivotUnchanged(was: seq<int>, d: seq<int>, n: int, k: int, i: int, j: int, a: int)
    requires 0 <= k < n && 0 <= a < n && CharMatrix(was, n) && Swept(was, d, n, FloydGoal(was, n, k), i, j)
    ensures |was| == |d| == n * n
    ensures Cell(d, n, a, k) == Cell(was, n, a, k) && Cell(d, n, k, a) == Cell(was, n, k, a)
  {
    hide ToChar;
    RelaxKeepsPivot(was, n, k, a, k);
    RelaxKeepsPivot(was, n, k, k, a);
  }

  lemma {:induction false} SweepSkipRow(was: seq<int>, d: seq<int>, n: int, goal: Goal, i: int, j: int)
    requires Swept(was, d, n, goal, i, j) && 0 <= i < j <= n && Symmetric(was, n)
    requires forall b :: i < b < n ==> goal.At(i, b) == Cell(was, n, i, b)
    ensures Swept(was, d, n, goal, i, n)
    decreases n - j
  {
    if j < n {
      SweepSkip(was, d, n, goal, i, j);
      SweepSkipRow(was, d, n, goal, i, j + 1);
    }
  }

  lemma SweepStart(d: seq<int>, n: int, k: int)
    requires Symmetric(d, n)
    ensures Swept(d, d, n, FloydGoal(d, n, k), 0, 1)
  {
  }

  /** What one pass of the inner loop must do to the matrix d. */
  lemma FloydCell(was: seq<int>, d: seq<int>, n: int, k: int, i: int, j: int)
    requires 0 <= k < n && 0 <= i < j < n && CharMatrix(was, n) && Swept(was, d, n, FloydGoal(was, n, k), i, j)
    ensures var goal := FloydGoal(was, n, k);
            var ij, ji, ik, kj := Index(n, i, j), Index(n, j, i), Index(n, i, k), Index(n, k, j);
            && 0 <= ij < |d| && 0 <= ji < |d| && 0 <= ik < |d| == |was| && 0 <= kj < |d|
            && d[ik] == was[ik] && -128 <= d[ij] <= 127
            && var v := ToChar(Relax(d[ij], d[ik], d[kj]));
            && Swept(was, d[ij := v][ji := v], n, goal, i, j + 1)
            && (d[kj] == -1 ==> Swept(was, d, n, goal, i, j + 1))
  {
    hide ZeroDiagonal, Index;
    var goal := FloydGoal(was, n, k);
    PivotUnchanged(was, d, n, k, i, j, i);
    PivotUnchanged(was, d, n, k, i, j, j);
    IndexInRange(n, i, j);
    IndexInRange(n, j, i);
    IndexInRange(n, i, k);
    IndexInRange(n, k, j);
    SweepStep(was, d, n, goal, i, j);
    if Cell(d, n, k, j) == -1 { SweepSkip(was, d, n, goal, i, j); }
  }

  /** A row whose own distance to k is missing needs no work. */
  lemma FloydRowSkipped(was: seq<int>, d: seq<int>, n: int, k: int, i: int)
    requires 0 <= k < n && 0 <= i < n && CharMatrix(was, n) && Swept(was, d, n, FloydGoal(was, n, k), i, i + 1)
    ensures var ik := Index(n, i, k);
            && 0 <= ik < |d| == |was| && d[ik] == was[ik]
            && (d[ik] == -1 ==> Swept(was, d, n, FloydGoal(was, n, k), i, n))
  {
    hide ZeroDiagonal, Index;
    IndexInRange(n, i, k);
    PivotUnchanged(was, d, n, k, i, i + 1, i);
    if Cell(d, n, i, k) == -1 { SweepSkipRow(was, d, n, FloydGoal(was, n, k), i, i + 1); }
  }

  /** After a whole sweep. */
  lemma SweptMatrix(was: seq<int>, d: seq<int>, n: int, k: int)
    requires 0 <= k < n && CharMatrix(was, n) && Swept(was, d, n, FloydGoal(was, n, k), n, n + 1)
    ensures CharMatrix(d, n)
    ensures forall i, j :: 0 <= i < n && 0 <= j < n ==>
      Cell(d, n, i, j) == if i == j then 0 else ToChar(RelaxCell(was, n, k, i, j))
  {
    forall i, j | 0 <= i < n && 0 <= j < n
      ensures Cell(d, n, i, j) == if i == j then 0 else ToChar(RelaxCell(was, n, k, i, j))
    {
      assert RelaxCell(was, n, k, i, j) == RelaxCell(was, n, k, j, i);
    }
  }

  // --------------------------------------------- when chars are wide enough

  /** A char holds the distances over inner nodes below h, for every h up to k. */
  ghost predicate FitsTo(ws: seq<string>, k: int)
    requires SameLength(ws)
  {
    forall h, i, j, v :: 0 <= h <= k && IsDist(ws, h, i, j, v) ==> v <= 127
  }

  ghost predicate FitsChar(ws: seq<string>)
    requires SameLength(ws)
  {
    FitsTo(ws, |ws|)
  }

  lemma FewWordsFit(ws: seq<string>)
    requires SameLength(ws) && |ws| <= 128
    ensures FitsChar(ws)
  {
    hide IsDist;
    forall k, i, j, v | 0 <= k <= |ws| && IsDist(ws, k, i, j, v) ensures v <= 127 { DistBound(ws, k, i, j, v); }
  }

  lemma DistUnique(ws: seq<string>, k: int, i: int, j: int, v: int, u: int)
    requires SameLength(ws) && IsDist(ws, k, i, j, v) && IsDist(ws, k, i, j, u)
    ensures v == u
  {
  }

  lemma DistInRange(ws: seq<string>, k: int, i: int, j: int, v: int)
    requires SameLength(ws) && IsDist(ws, k, i, j, v) && v >= 0
    ensures 0 <= i < |ws| && 0 <= j < |ws|
    ensures i == j ==> v == 0
  {
    var p :| Walk(ws, k, i, j, p) && |p| == v + 1;
    assert p[0] == i && p[|p| - 1] == j;
    if i == j { assert Walk(ws, k, i, j, [i]); }
  }

  lemma FitsAtStart(ws: seq<string>)
    requires SameLength(ws)
    ensures FitsTo(ws, 0)
  {
    hide IsDist;
    forall h, i, j, v | 0 <= h <= 0 && IsDist(ws, h, i, j, v) ensures v <= 127 {
      if v > 127 {
        DistInRange(ws, 0, i, j, v);
        StartIsDist(ws, i, j);
        DistUnique(ws, 0, i, j, v, if i == j then 0 else if Edge(ws, i, j) then 1 else -1);
      }
    }
  }

  /** Some cell is below -1, which no distance is. */
  ghost predicate Sunk(d: seq<int>, n: int) {
    |d| == n * n && exists i, j :: 0 <= i < n && 0 <= j < n && Cell(d, n, i, j) <= -2
  }

  /** While a char holds the new distances, a sweep takes distances below k to below k + 1. */
  lemma SweepRight(ws: seq<string>, was: seq<int>, d: seq<int>, k: int)
    requires SameLength(ws) && 0 <= k < |ws| && AllDist(ws, was, k) && FitsTo(ws, k + 1)
    requires |d| == |ws| * |ws| && forall i, j :: 0 <= i < |ws| && 0 <= j < |ws| ==>
      Cell(d, |ws|, i, j) == if i == j then 0 else ToChar(RelaxCell(was, |ws|, k, i, j))
    ensures AllDist(ws, d, k + 1)
  {
    hide IsDist;
    var n := |ws|;
    forall i, j | 0 <= i < n && 0 <= j < n ensures IsDist(ws, k + 1, i, j, Cell(d, n, i, j)) {
      RelaxedIs(ws, was, k, i, j);
      DistLow(ws, k + 1, i, j, RelaxCell(was, n, k, i, j));
    }
  }

  lemma RelaxedIs(ws: seq<string>, was: seq<int>, k: int, i: int, j: int)
    requires SameLength(ws) && 0 <= k < |ws| && 0 <= i < |ws| && 0 <= j < |ws| && AllDist(ws, was, k)
    ensures IsDist(ws, k + 1, i, j, RelaxCell(was, |ws|, k, i, j))
  {
    hide IsDist;
    var n := |ws|;
    RelaxIsDist(ws, k, i, j, Cell(was, n, i, j), Cell(was, n, i, k), Cell(was, n, k, j));
  }

  lemma DistLow(ws: seq<string>, k: int, i: int, j: int, v: int)
    requires SameLength(ws) && IsDist(ws, k, i, j, v)
    ensures v >= -1 && (i == j && 0 <= i < |ws| ==> v == 0)
  {
    if i == j && 0 <= i < |ws| { assert Walk(ws, k, i, j, [i]); }
  }

  /** The first distance that is too long is stored as a number below -1. */
  lemma SweepSinks(ws: seq<string>, was: seq<int>, d: seq<int>, k: int)
    requires SameLength(ws) && 0 <= k < |ws| && AllDist(ws, was, k) && FitsTo(ws, k) && !FitsTo(ws, k + 1)
    requires |d| == |ws| * |ws| && forall i, j :: 0 <= i < |ws| && 0 <= j < |ws| ==>
      Cell(d, |ws|, i, j) == if i == j then 0 else ToChar(RelaxCell(was, |ws|, k, i, j))
    ensures Sunk(d, |ws|)
  {
    hide IsDist;
    var n := |ws|;
    var h, i, j, v :| 0 <= h <= k + 1 && IsDist(ws, h, i, j, v) && v > 127;
    DistInRange(ws, h, i, j, v);
    RelaxedIs(ws, was, k, i, j);
    DistUnique(ws, k + 1, i, j, v, RelaxCell(was, n, k, i, j));
    assert IsDist(ws, k, i, j, Cell(was, n, i, j));
    assert IsDist(ws, k, i, k, Cell(was, n, i, k)) && IsDist(ws, k, k, j, Cell(was, n, k, j));
    assert Cell(d, n, i, j) <= -2;
  }

  /** Such a number never goes away: when a sum wraps back upwards, both its parts are below -1
      and stay. */
  lemma StaysSunk(was: seq<int>, d: seq<int>, n: int, k: int)
    requires 0 <= k < n && CharMatrix(was, n) && Sunk(was, n)
    requires |d| == n * n && forall i, j :: 0 <= i < n && 0 <= j < n ==>
      Cell(d, n, i, j) == if i == j then 0 else ToChar(RelaxCell(was, n, k, i, j))
    ensures Sunk(d, n)
  {
    var i, j :| 0 <= i < n && 0 <= j < n && Cell(was, n, i, j) <= -2;
    RelaxKeepsPivot(was, n, k, i, k);
    if Cell(d, n, i, j) > -2 {
      assert Cell(was, n, i, k) <= -2;
      assert i != k;
      assert Cell(d, n, i, k) <= -2;
    }
  }

  /** The matrix before sweep k: distances, as long as chars have held them. */
  ghost predicate RightOrSunk(ws: seq<string>, d: seq<int>, k: int)
    requires SameLength(ws)
  {
    if FitsTo(ws, k) then AllDist(ws, d, k) else Sunk(d, |ws|)
  }

  lemma FloydSweep(ws: seq<string>, was: seq<int>, d: seq<int>, k: int)
    requires SameLength(ws) && 0 <= k < |ws| && CharMatrix(was, |ws|) && RightOrSunk(ws, was, k)
    requires Swept(was, d, |ws|, FloydGoal(was, |ws|, k), |ws|, |ws| + 1)
    ensures CharMatrix(d, |ws|) && RightOrSunk(ws, d, k + 1)
  {
    hide IsDist, ToChar, RelaxCell, AllDist, Sunk;
    SweptMatrix(was, d, |ws|, k);
    if !FitsTo(ws, k) {
      StaysSunk(was, d, |ws|, k);
    } else if FitsTo(ws, k + 1) {
      SweepRight(ws, was, d, k);
    } else {
      SweepSinks(ws, was, d, k);
    }
  }

  /** The matrix is right in the end exactly when chars have held every distance. */
  lemma RightIffFits(ws: seq<string>, d: seq<int>)
    requires SameLength(ws) && RightOrSunk(ws, d, |ws|)
    ensures AllDist(ws, d, |ws|) <==> FitsChar(ws)
  {
    hide FitsTo;
    if Sunk(d, |ws|) {
      var i, j :| 0 <= i < |ws| && 0 <= j < |ws| && Cell(d, |ws|, i, j) <= -2;
      assert !IsDist(ws, |ws|, i, j, Cell(d, |ws|, i, j));
    }
  }

  // ------------------------------------------ words that are too far apart

  /** t times b, then a, n letters in all. */
  function Rung(n: nat, t: nat): string { seq(n, x requires 0 <= x < n => if x < t then 'b' else 'a') }

  /** n + 1 words, each one letter away from the next. */
  function Ladder(n: nat): seq<string> { seq(n + 1, t requires 0 <= t <= n => Rung(n, t)) }

  lemma {:induction false} RungsDiffer(n: nat, s: nat, t: nat)
    requires s <= t <= n
    ensures Differences(Rung(n, s), Rung(n, t)) == t - s
    decreases n
  {
    if n > 0 {
      var s', t' := if s == n then n - 1 else s, if t == n then n - 1 else t;
      assert Rung(n, s)[..n - 1] == Rung(n - 1, s') && Rung(n, t)[..n - 1] == Rung(n - 1, t');
      RungsDiffer(n - 1, s', t');
    }
  }

  lemma LadderEdges(n: nat, s: nat, t: nat)
    requires s <= n && t <= n
    ensures SameLength(Ladder(n)) && (Edge(Ladder(n), s, t) <==> s == t + 1 || t == s + 1)
  {
    if s <= t { RungsDiffer(n, s, t); } else { RungsDiffer(n, t, s); }
    DifferencesSymmetric(Rung(n, s), Rung(n, t));
  }

  lemma {:induction false} RungsClimbed(n: nat, p: seq<int>, t: nat)
    requires SameLength(Ladder(n)) && Walk(Ladder(n), n + 1, 0, n, p) && t < |p|
    ensures p[t] <= t
  {
    if t > 0 {
      RungsClimbed(n, p, t - 1);
      LadderEdges(n, p[t - 1], p[t]);
    }
  }

  /** The ends of the ladder are n apart. */
  lemma LadderIsLong(n: nat)
    ensures SameLength(Ladder(n)) && Distance(Ladder(n), 0, n, n)
  {
    var ws := Ladder(n);
    LadderEdges(n, 0, 0);
    var p := seq(n + 1, x requires 0 <= x <= n => x);
    forall t | 0 <= t < n ensures Edge(ws, p[t], p[t + 1]) { LadderEdges(n, t, t + 1); }
    assert Walk(ws, n + 1, 0, n, p);
    forall q | Walk(ws, n + 1, 0, n, q) ensures 0 <= n < |q| { RungsClimbed(n, q, |q| - 1); }
  }

  /** From 129 words on, chars can be too narrow. */
  lemma LadderDoesNotFit(n: nat)
    requires n >= 128
    ensures SameLength(Ladder(n)) && |Ladder(n)| == n + 1 && !FitsChar(Ladder(n))
  {
    hide IsDist;
    LadderIsLong(n);
    assert IsDist(Ladder(n), n + 1, 0, n, n);
  }

  lemma CharAt(d: seq<int>, n: int, i: int, j: int)
    requires CharMatrix(d, n) && 0 <= i < n && 0 <= j < n
    ensures 0 <= Index(n, i, j) < |d| == n * n && Cell(d, n, i, j) == d[Index(n, i, j)] && -128 <= d[Index(n, i, j)] <= 127
  {
    IndexInRange(n, i, j);
  }

  // ------------------------------------------------- breadth-first search

  lemma OneIsEdge(ws: seq<string>, k: int, i: int, j: int, v: int)
    requires SameLength(ws) && k >= 0 && 0 <= i < |ws| && 0 <= j < |ws| && IsDist(ws, k, i, j, v)
    ensures v == 1 <==> Edge(ws, i, j)
    ensures v == 0 <==> i == j
  {
    if i == j { assert Walk(ws, k, i, j, [i]); }
    if Edge(ws, i, j) { assert Walk(ws, k, i, j, [i, j]); }
    if v >= 0 {
      var p :| Walk(ws, k, i, j, p) && |p| == v + 1;
    }
  }

  /** No walk from 0 to u has fewer than m edges. */
  ghost predicate AtLeast(ws: seq<string>, u: int, m: int)
    requires SameLength(ws)
  {
    forall p :: Walk(ws, |ws|, 0, u, p) ==> |p| > m
  }

  /** All neighbours of v below `upTo` have been seen. */
  ghost predicate Expanded(ws: seq<string>, level: map<int, int>, v: int, upTo: int)
    requires SameLength(ws) && 0 <= v < |ws|
  {
    forall u :: 0 <= u < upTo && u < |ws| && Edge(ws, v, u) ==> u in level
  }

  /** The nodes seen are at their distance, the queue holds the ones still to
      expand in order of level, c or c + 1, and all others are further than c. */
  ghost predicate Frontier(ws: seq<string>, q1: seq<int>, q2: seq<int>, level: map<int, int>, c: int)
    requires SameLength(ws)
  {
    && |q1| == |q2|
    && (forall v :: v in level ==> 0 <= v < |ws| && Distance(ws, 0, v, level[v]))
    && (forall x :: 0 <= x < |q1| ==> q1[x] in level && q2[x] == level[q1[x]] && c <= q2[x] <= c + 1)
    && (forall x, y :: 0 <= x < y < |q1| ==> q2[x] <= q2[y] && q1[x] != q1[y])
    && (forall u :: 0 <= u < |ws| && u !in level ==> AtLeast(ws, u, c + 1))
  }

  /** Nodes that have left the queue, `busy` aside, were expanded and are not the target. */
  ghost predicate Settled(ws: seq<string>, q1: seq<int>, level: map<int, int>, busy: int)
    requires SameLength(ws)
  {
    forall v :: v in level && 0 <= v < |ws| && v !in q1 && v != busy ==>
      v != |ws| - 1 && Expanded(ws, level, v, |ws|)
  }

  lemma BfsStart(ws: seq<string>)
    requires SameLength(ws) && |ws| >= 1
    ensures Frontier(ws, [0], [0], map[0 := 0], 0) && Settled(ws, [0], map[0 := 0], -1)
  {
    assert Walk(ws, |ws|, 0, 0, [0]);
    forall u, p | 0 <= u < |ws| && u != 0 && Walk(ws, |ws|, 0, u, p) ensures |p| > 1 {}
  }

  /** A neighbour not seen before is one further than the node being expanded. */
  lemma BfsNextLevel(ws: seq<string>, n: int, d: int, i: int)
    requires SameLength(ws) && 0 <= i < |ws| && 0 <= n < |ws| && d >= 0
    requires Distance(ws, 0, n, d) && Edge(ws, n, i) && AtLeast(ws, i, d + 1)
    ensures Distance(ws, 0, i, d + 1)
  {
    var p :| Walk(ws, |ws|, 0, n, p) && |p| == d + 1;
    assert Walk(ws, |ws|, 0, i, p + [i]);
  }

  lemma BfsSeen(ws: seq<string>, q1: seq<int>, q2: seq<int>, level: map<int, int>, n: int, d: int, i: int)
    requires SameLength(ws) && 0 <= i < |ws| && n in level && 0 <= n < |ws| && level[n] == d >= 0 && n !in q1
    requires Frontier(ws, q1, q2, level, d) && Settled(ws, q1, level, n)
    requires Edge(ws, n, i) && i !in level && Expanded(ws, level, n, i)
    ensures var level' := level[i := d + 1];
      && Frontier(ws, q1 + [i], q2 + [d + 1], level', d)
      && Settled(ws, q1 + [i], level', n)
      && Expanded(ws, level', n, i + 1)
  {
    hide IsDist, AtLeast, Expanded, Settled;
    BfsNextLevel(ws, n, d, i);
    SettledGrows(ws, q1, level, n, d + 1, i);
  }

  lemma SettledGrows(ws: seq<string>, q1: seq<int>, level: map<int, int>, n: int, l: int, i: int)
    requires SameLength(ws) && 0 <= i < |ws| && 0 <= n < |ws|
    requires Settled(ws, q1, level, n) && Expanded(ws, level, n, i)
    ensures Settled(ws, q1 + [i], level[i := l], n) && Expanded(ws, level[i := l], n, i + 1)
  {
    hide Edge;
    assert i in q1 + [i];
    assert forall v :: v in q1 ==> v in q1 + [i];
  }

  lemma NothingExpanded(ws: seq<string>, q1: seq<int>, q2: seq<int>, level: map<int, int>, n: int, c: int)
    requires SameLength(ws) && 0 <= n < |ws| && Frontier(ws, q1, q2, level, c)
    ensures Expanded(ws, level, n, 0) && |q1| == |q2|
  {
  }

  lemma SeenInRange(ws: seq<string>, q1: seq<int>, q2: seq<int>, level: map<int, int>, c: int)
    requires SameLength(ws) && Frontier(ws, q1, q2, level, c)
    ensures |level.Keys| <= |ws|
  {
    RangeCount(level.Keys, |ws|);
  }

  /** Where all cells are distances, 1 stands for an edge. */
  lemma CellIsEdge(ws: seq<string>, d: seq<int>, k: int, i: int, j: int)
    requires SameLength(ws) && AllDist(ws, d, k) && k >= 0 && 0 <= i < |ws| && 0 <= j < |ws|
    ensures 0 <= Index(|ws|, i, j) < |d| && IsDist(ws, k, i, j, d[Index(|ws|, i, j)])
    ensures d[Index(|ws|, i, j)] == 1 <==> Edge(ws, i, j)
    ensures d[Index(|ws|, i, j)] == 0 <==> i == j
  {
    IndexInRange(|ws|, i, j);
    OneIsEdge(ws, k, i, j, Cell(d, |ws|, i, j));
  }

  lemma BfsSkip(ws: seq<string>, level: map<int, int>, n: int, i: int)
    requires SameLength(ws) && 0 <= n < |ws| && 0 <= i < |ws| && Expanded(ws, level, n, i)
    requires i in level || !Edge(ws, n, i)
    ensures Expanded(ws, level, n, i + 1)
  {
  }

  /** Taking the front node off the queue to expand it. */
  lemma BfsPop(ws: seq<string>, q1: seq<int>, q2: seq<int>, level: map<int, int>, c: int)
    requires SameLength(ws) && Frontier(ws, q1, q2, level, c) && Settled(ws, q1, level, -1) && q1 != []
    ensures |q2| == |q1| && 0 <= q1[0] < |ws| && q1[0] in level && level[q1[0]] == q2[0] && q1[0] !in q1[1..]
    ensures Distance(ws, 0, q1[0], q2[0])
    ensures Frontier(ws, q1[1..], q2[1..], level, c) && Settled(ws, q1[1..], level, q1[0])
    ensures Expanded(ws, level, q1[0], 0)
  {
    assert forall v :: v in q1 ==> v == q1[0] || v in q1[1..];
  }

  lemma BfsPredecessor(ws: seq<string>, q1: seq<int>, q2: seq<int>, level: map<int, int>, d: int, p: seq<int>)
    requires SameLength(ws) && d >= 0 && |p| == d + 2 && Walk(ws, |ws|, 0, p[d + 1], p)
    requires Frontier(ws, q1, q2, level, d) && Settled(ws, q1, level, -1)
    requires forall x :: 0 <= x < |q1| ==> q2[x] == d + 1
    ensures p[d + 1] in level
  {
    var v := p[d];
    assert Walk(ws, |ws|, 0, v, p[..d + 1]);
    assert Edge(ws, v, p[d + 1]);
    assert v in level && level[v] <= d && v !in q1;
  }

  /** A node is expanded.  If that was the last one of its level, the nodes not seen
      are one step further away. */
  lemma BfsExpanded(ws: seq<string>, q1: seq<int>, q2: seq<int>, level: map<int, int>, n: int, d: int)
    returns (c: int)
    requires SameLength(ws) && 0 <= n < |ws| && n != |ws| - 1 && d >= 0
    requires Frontier(ws, q1, q2, level, d) && Settled(ws, q1, level, n) && Expanded(ws, level, n, |ws|)
    ensures c >= 0 && Frontier(ws, q1, q2, level, c) && Settled(ws, q1, level, -1)
    ensures q1 != [] ==> |q2| == |q1| && q2[0] == c
  {
    c := d;
    if q1 != [] && q2[0] == d + 1 {
      c := d + 1;
      forall u, p | 0 <= u < |ws| && u !in level && Walk(ws, |ws|, 0, u, p) ensures |p| > d + 2 {
        assert AtLeast(ws, u, d + 1);
        if |p| == d + 2 {
          BfsPredecessor(ws, q1, q2, level, d, p);
          assert false;
        }
      }
    }
  }

  /** The queue is empty: nothing outside the nodes seen can be reached. */
  lemma {:induction false} BfsClosed(ws: seq<string>, level: map<int, int>, j: int, p: seq<int>, t: nat)
    requires SameLength(ws) && 0 in level && Settled(ws, [], level, -1)
    requires Walk(ws, |ws|, 0, j, p) && t < |p|
    ensures p[t] in level && p[t] != |ws| - 1
  {
    if t > 0 {
      BfsClosed(ws, level, j, p, t - 1);
      assert Edge(ws, p[t - 1], p[t]);
    }
  }

  lemma BfsUnreachable(ws: seq<string>, level: map<int, int>)
    requires SameLength(ws) && |ws| >= 1 && 0 in level && Settled(ws, [], level, -1)
    ensures Distance(ws, 0, |ws| - 1, -1)
  {
    var last := |ws| - 1;
    forall p ensures !Walk(ws, |ws|, 0, last, p) {
      if Walk(ws, |ws|, 0, last, p) {
        BfsClosed(ws, level, last, p, |p| - 1);
        assert false;
      }
    }
  }

  // ---------------------------------------------------- all shortest paths

  /** p goes from f to t along as few edges as possible. */
  ghost predicate IsShortest(ws: seq<string>, f: int, t: int, p: seq<int>)
    requires SameLength(ws)
  {
    Walk(ws, |ws|, f, t, p) && Distance(ws, f, t, |p| - 1)
  }

  lemma ShortestFirstStep(ws: seq<string>, f: int, t: int, v: int, i: int, u: int, p: seq<int>)
    requires SameLength(ws) && 0 <= f < |ws| && 0 <= i < |ws| && f != t
    requires Distance(ws, f, t, v) && Distance(ws, i, t, u)
    requires |p| >= 2 && p[0] == f && p[1] == i
    ensures IsShortest(ws, f, t, p) <==> Edge(ws, f, i) && u == v - 1 && IsShortest(ws, i, t, p[1..])
  {
    var tail := p[1..];
    if IsShortest(ws, f, t, p) {
      assert Edge(ws, p[0], p[1]);
      assert Walk(ws, |ws|, i, t, tail);
      if u >= 0 {
        var q :| Walk(ws, |ws|, i, t, q) && |q| == u + 1;
        StepThenWalk(ws, f, i, t, q);
      }
    }
    if Edge(ws, f, i) && u == v - 1 && IsShortest(ws, i, t, tail) {
      StepThenWalk(ws, f, i, t, tail);
      assert [f] + tail == p;
    }
  }

  lemma StepThenWalk(ws: seq<string>, f: int, i: int, t: int, q: seq<int>)
    requires SameLength(ws) && 0 <= f < |ws| && 0 <= i < |ws| && Edge(ws, f, i) && Walk(ws, |ws|, i, t, q)
    ensures Walk(ws, |ws|, f, t, [f] + q)
  {
    var p := [f] + q;
    forall x | 0 <= x < |p| - 1 ensures Edge(ws, p[x], p[x + 1]) {
      if x > 0 { assert p[x] == q[x - 1] && p[x + 1] == q[x]; }
    }
  }

  /** The paths found so far are the shortest ones whose second node is below i. */
  ghost predicate FoundBelow(ws: seq<string>, f: int, t: int, paths: seq<seq<int>>, i: int)
    requires SameLength(ws)
  {
    && Distinct(paths)
    && (forall p :: p in paths <==> IsShortest(ws, f, t, p) && |p| >= 2 && p[1] < i)
  }

  /** What looking at neighbour i adds: the shortest paths that start with it. */
  ghost predicate FoundFrom(ws: seq<string>, f: int, t: int, v: int, i: int, u: int, more: seq<seq<int>>)
    requires SameLength(ws) && 0 <= f < |ws| && 0 <= i < |ws|
  {
    if Edge(ws, f, i) && u == v - 1
    then Distinct(more) && (forall p :: p in more <==> IsShortest(ws, i, t, p))
    else more == []
  }

  lemma FoundFromMeans(ws: seq<string>, f: int, t: int, v: int, i: int, u: int, more: seq<seq<int>>, p: seq<int>)
    requires SameLength(ws) && 0 <= f < |ws| && 0 <= i < |ws| && f != t
    requires Distance(ws, f, t, v) && Distance(ws, i, t, u) && FoundFrom(ws, f, t, v, i, u, more)
    ensures p in Prepend(f, more) <==> IsShortest(ws, f, t, p) && |p| >= 2 && p[1] == i
  {
    hide Prepend;
    InPrepend(f, more, p);
    if |p| >= 2 && p[0] == f && p[1] == i {
      ShortestFirstStep(ws, f, t, v, i, u, p);
    }
  }

  lemma {:induction false} DistinctJoin(f: int, i: int, paths: seq<seq<int>>, more: seq<seq<int>>)
    requires Distinct(paths) && Distinct(more)
    requires forall p :: p in paths ==> |p| >= 2 && p[1] < i
    requires forall p :: p in more ==> p != [] && p[0] == i
    ensures Distinct(paths + Prepend(f, more))
  {
    var all := paths + Prepend(f, more);
    forall x, y | 0 <= x < y < |all| ensures all[x] != all[y] {
      if x >= |paths| {
        assert all[x][1..] == more[x - |paths|] && all[y][1..] == more[y - |paths|];
      } else if y >= |paths| {
        assert paths[x] in paths && more[y - |paths|] in more;
        assert all[y][1] == i;
      }
    }
  }

  lemma FoundMore(ws: seq<string>, f: int, t: int, v: int, i: int, u: int, paths: seq<seq<int>>, more: seq<seq<int>>)
    requires SameLength(ws) && 0 <= f < |ws| && 0 <= i < |ws| && f != t
    requires Distance(ws, f, t, v) && Distance(ws, i, t, u) && FoundBelow(ws, f, t, paths, i)
    requires FoundFrom(ws, f, t, v, i, u, more)
    ensures FoundBelow(ws, f, t, paths + Prepend(f, more), i + 1)
  {
    hide Prepend, IsDist, Distance, Edge;
    var all := paths + Prepend(f, more);
    forall p ensures p in all <==> IsShortest(ws, f, t, p) && |p| >= 2 && p[1] < i + 1 {
      FoundFromMeans(ws, f, t, v, i, u, more, p);
    }
    DistinctJoin(f, i, paths, more);
  }

  lemma FoundNothing(ws: seq<string>, f: int, t: int)
    requires SameLength(ws)
    ensures FoundBelow(ws, f, t, [], 0)
  {
    forall p ensures !(IsShortest(ws, f, t, p) && |p| >= 2 && p[1] < 0) {}
  }

  lemma FoundAll(ws: seq<string>, f: int, t: int, paths: seq<seq<int>>)
    requires SameLength(ws) && f != t && FoundBelow(ws, f, t, paths, |ws|)
    ensures Distinct(paths) && forall p :: p in paths <==> IsShortest(ws, f, t, p)
  {
  }

  lemma OnlyTrivial(ws: seq<string>, f: int, paths: seq<seq<int>>)
    requires SameLength(ws) && 0 <= f < |ws| && paths == [[f]]
    ensures Distinct(paths) && forall p :: p in paths <==> IsShortest(ws, f, f, p)
  {
    assert Walk(ws, |ws|, f, f, [f]);
    forall p ensures p in paths <==> IsShortest(ws, f, f, p) {
      if IsShortest(ws, f, f, p) { assert p == [f]; }
      if p in paths { assert p == [f]; }
    }
  }

  lemma ShortestOrNone(ws: seq<string>, f: int, t: int, v: int, paths: seq<seq<int>>)
    requires SameLength(ws) && Distance(ws, f, t, v) && forall p :: p in paths <==> IsShortest(ws, f, t, p)
    ensures paths == [] <==> Distance(ws, f, t, -1)
  {
    assert paths != [] ==> paths[0] in paths;
    if v >= 0 {
      var p :| Walk(ws, |ws|, f, t, p) && |p| == v + 1;
      assert IsShortest(ws, f, t, p);
    }
  }

  class Solution {
    const res: seq<string>
    const N: int
    const dist: array<int>

    ghost predicate Valid() {
      SameLength(res) && N == |res| >= 1 && dist.Length == N * N
    }

    constructor (words: seq<string>)
      requires SameLength(words) && |words| >= 1
      ensures Valid() && res == words && fresh(dist)
    {
      res, N := words, |words|;
      dist := new int[|words| * |words|](_ => 0);
    }

    method IsAdjacent(i: int, j: int) returns (r: bool)
      requires Valid() && 0 <= i < N && 0 <= j < N
      ensures r <==> !exists x, y :: 0 <= x < y < |res[i]| && res[i][x] != res[j][x] && res[i][y] != res[j][y]
      ensures r <==> Differences(res[i], res[j]) <= 1
    {
      var diff := 0;
      for x := 0 to |res[i]|
        invariant diff == Differences(res[i][..x], res[j][..x])
      {
        assert res[i][..x + 1][..x] == res[i][..x] && res[j][..x + 1][..x] == res[j][..x];
        if res[i][x] != res[j][x] {
          diff := diff + 1;
        }
      }
      assert res[i][..|res[i]|] == res[i] && res[j][..|res[i]|] == res[j];
      FewDiffer(res[i], res[j]);
      r := diff <= 1;
    }

    /** Fills the matrix with 0, 1 for an edge, -1 for none. */
    method CalcDist()
      requires Valid()
      modifies dist
      ensures AllDist(res, dist[..], 0) && CharMatrix(dist[..], N)
    {
      ghost var was := dist[..];
      ghost var goal := StartGoal(res);
      for i := 0 to N
        invariant Swept(was, dist[..], N, goal, i, i + 1)
        invariant forall a :: 0 <= a < i ==> Cell(was, N, a, a) == 0
      {
        IndexInRange(N, i, i);
        SweepDiagonal(was, dist[..], N, goal, i);
        dist[Index(N, i, i)] := 0;
        was := SetCell(was, N, i, i, 0);
        for j := i + 1 to N
          invariant Swept(was, dist[..], N, goal, i, j)
        {
          IndexInRange(N, i, j);
          IndexInRange(N, j, i);
          SweepStep(was, dist[..], N, goal, i, j);
          var adjacent := IsAdjacent(i, j);
          ghost var next := SetBoth(dist[..], N, i, j, goal.At(i, j));
          if adjacent {
            dist[Index(N, i, j)] := 1;
            dist[Index(N, j, i)] := 1;
          } else {
            dist[Index(N, i, j)] := -1;
            dist[Index(N, j, i)] := -1;
          }
          assert dist[..] == next;
        }
        SweepNextRow(was, dist[..], N, goal, i);
      }
      StartMatrix(res, was, dist[..]);
    }

    /** Floyd's algorithm on the upper triangle, mirrored.  In the end each cell is the distance
        between its two words, -1 exactly when there is no path, if and only if chars held
        the distances of every sweep. */
    method CalcFloyd()
      requires Valid() && AllDist(res, dist[..], 0) && CharMatrix(dist[..], N)
      modifies dist
      ensures CharMatrix(dist[..], N) && (AllDist(res, dist[..], N) <==> FitsChar(res))
    {
      hide AllDist, CharMatrix, Swept, Index, FitsChar, FitsTo;
      FitsAtStart(res);
      for k := 0 to N
        invariant RightOrSunk(res, dist[..], k) && CharMatrix(dist[..], N)
      {
        ghost var was := dist[..];
        ghost var goal := FloydGoal(was, N, k);
        var ik := k;
        IndexStep(N, 0, k);
        SweepStart(was, N, k) by { CharMatrixIsSymmetric(was, N); }
        for i := 0 to N
          invariant ik == Index(N, i, k)
          invariant Swept(was, dist[..], N, goal, i, i + 1)
        {
          FloydRow(k, i, ik, was);
          SweepNextRow(was, dist[..], N, goal, i);
          IndexStep(N, i, k);
          ik := ik + N;
        }
        FloydSweep(res, was, dist[..], k);
      }
      RightIffFits(res, dist[..]);
    }

    /** The innermost statements: relax dist[ij], then mirror it. */
    method RelaxInPlace(ik: int, kj: int, ij: int, ji: int)
      requires 0 <= ik < dist.Length && 0 <= kj < dist.Length && 0 <= ij < dist.Length && 0 <= ji < dist.Length
      requires dist[ik] != -1 && dist[kj] != -1 && -128 <= dist[ij] <= 127
      modifies dist
      ensures var v := ToChar(Relax(old(dist[ij]), old(dist[ik]), old(dist[kj])));
              dist[..] == old(dist[..])[ij := v][ji := v]
    {
      var d := dist[ik] + dist[kj];
      if dist[ij] == -1 || d < dist[ij] {
        dist[ij] := ToChar(d);
      }
      dist[ji] := dist[ij];
    }

    /** One row of one sweep, from the test of dist[ik] on. */
    method FloydRow(k: int, i: int, ik: int, ghost was: seq<int>)
      requires Valid() && 0 <= k < N && 0 <= i < N && ik == Index(N, i, k) && CharMatrix(was, N)
      requires Swept(was, dist[..], N, FloydGoal(was, N, k), i, i + 1)
      modifies dist
      ensures Swept(was, dist[..], N, FloydGoal(was, N, k), i, N)
    {
      hide CharMatrix, Swept, Index, ToChar, Relax;
      FloydRowSkipped(was, dist[..], N, k, i);
      if dist[ik] == -1 {
        return;
      }
      ghost var goal := FloydGoal(was, N, k);
      var kj, ij := Index(N, k, i + 1), Index(N, i, i + 1);
      for j := i + 1 to N
        invariant kj == Index(N, k, j) && ij == Index(N, i, j)
        invariant Swept(was, dist[..], N, goal, i, j)
      {
        FloydCell(was, dist[..], N, k, i, j);
        if dist[kj] != -1 {
          RelaxInPlace(ik, kj, ij, Index(N, j, i));
        }
        IndexStep(N, k, j);
        IndexStep(N, i, j);
        kj, ij := kj + 1, ij + 1;
      }
    }

    /** The inner loop of the search: queue the neighbours of n not seen before. */
    method Expand(n: int, d: int, mask0: set<int>, q10: seq<int>, q20: seq<int>, ghost level0: map<int, int>)
      returns (mask: set<int>, q1: seq<int>, q2: seq<int>, ghost level: map<int, int>)
      requires Valid() && AllDist(res, dist[..], 0) && 0 <= n < N && d >= 0
      requires mask0 == level0.Keys && 0 in mask0 && n in level0 && level0[n] == d && n !in q10
      requires Frontier(res, q10, q20, level0, d) && Settled(res, q10, level0, n)
      ensures mask == level.Keys && 0 in mask && |q1| == |q2| && |mask| <= N
      ensures Frontier(res, q1, q2, level, d) && Settled(res, q1, level, n) && Expanded(res, level, n, N)
      ensures |q1| - |mask| == |q10| - |mask0|
    {
      hide Frontier, Settled, Expanded, AllDist, Index, IsDist;
      mask, q1, q2, level := mask0, q10, q20, level0;
      NothingExpanded(res, q1, q2, level, n, d);
      for i := 0 to N
        invariant mask == level.Keys && 0 in mask && n in level && level[n] == d && n !in q1
        invariant Frontier(res, q1, q2, level, d) && Settled(res, q1, level, n)
        invariant Expanded(res, level, n, i)
        invariant |q1| - |mask| == |q10| - |mask0| && |q1| == |q2|
      {
        CellIsEdge(res, dist[..], 0, n, i);
        if i !in mask && dist[Index(N, n, i)] == 1 {
          BfsSeen(res, q1, q2, level, n, d, i);
          mask := mask + {i};
          q1, q2 := q1 + [i], q2 + [d + 1];
          level := level[i := d + 1];
        } else {
          BfsSkip(res, level, n, i);
        }
      }
      SeenInRange(res, q1, q2, level, d);
    }

    /** The two-queue search: it returns the distance from the first word to the
        last, and falls off its end exactly when there is no path. */
    method GetMinDist() returns (found: bool, r: int)
      requires Valid() && AllDist(res, dist[..], 0)
      ensures found ==> r >= 0 && Distance(res, 0, N - 1, r)
      ensures !found ==> Distance(res, 0, N - 1, -1)
    {
      hide Frontier, Settled, Expanded, IsDist, AllDist;
      var mask := {0};
      var q1, q2 := [0], [0];
      ghost var level: map<int, int> := map[0 := 0];
      ghost var c := 0;
      BfsStart(res);
      while q1 != []
        invariant mask == level.Keys && 0 in mask && c >= 0
        invariant Frontier(res, q1, q2, level, c) && Settled(res, q1, level, -1)
        invariant |q1| == |q2| && (q1 != [] ==> q2[0] == c)
        decreases N - |mask| + |q1|
      {
        BfsPop(res, q1, q2, level, c);
        var n, d := q1[0], q2[0];
        q1, q2 := q1[1..], q2[1..];
        if n == N - 1 {
          return true, d;
        }
        mask, q1, q2, level := Expand(n, d, mask, q1, q2, level);
        c := BfsExpanded(res, q1, q2, level, n, d);
      }
      BfsUnreachable(res, level);
      return false, 0;
    }

    ghost function Spell(p: seq<int>): (r: seq<string>)
      requires forall x :: 0 <= x < |p| ==> 0 <= p[x] < |res|
      ensures |r| == |p|
    {
      seq(|p|, x requires 0 <= x < |p| => res[p[x]])
    }

    /** The ladders are the words along certain index paths, in order. */
    ghost predicate Spelled(vvs: seq<seq<string>>, paths: seq<seq<int>>) {
      && |vvs| == |paths|
      && (forall m, x :: 0 <= m < |paths| && 0 <= x < |paths[m]| ==> 0 <= paths[m][x] < |res|)
      && (forall m :: 0 <= m < |paths| ==> vvs[m] == Spell(paths[m]))
    }

    /** What getDescription counts down: the cell for the last word, made positive. */
    ghost function ToLast(f: int): int
      reads dist
    {
      if dist.Length == N * N && 0 <= f < N then Cell(dist[..], N, f, N - 1) + 129 else 0
    }

    /** Whatever the chars in the matrix are, this terminates; when they are the distances, it
        returns every shortest path from word f to the last word, each exactly once, and
        nothing else, and no path at all when the last word cannot be reached. */
    method GetDescription(f: int) returns (vvs: seq<seq<string>>, ghost paths: seq<seq<int>>)
      requires Valid() && CharMatrix(dist[..], N) && 0 <= f < N
      ensures Spelled(vvs, paths)
      ensures AllDist(res, dist[..], N) ==>
        && Distinct(paths) && (forall p :: p in paths <==> IsShortest(res, f, N - 1, p))
        && (vvs == [] <==> Distance(res, f, N - 1, -1))
      decreases ToLast(f)
    {
      hide AllDist, IsShortest, IsDist, Index, Spelled, Edge, FoundBelow, CharMatrix;
      var last := N - 1;
      ghost var right := AllDist(res, dist[..], N);
      CharAt(dist[..], N, f, last);
      ghost var v := dist[Index(N, f, last)];
      if right { CellIsEdge(res, dist[..], N, f, last); }
      if f == last {
        vvs, paths := [[res[f]]], [[f]];
        SpelledHere(f);
        OnlyTrivial(res, f, paths);
      } else {
        vvs, paths := [], [];
        FoundNothing(res, f, last);
        SpelledNothing();
        for i := 0 to N
          invariant Spelled(vvs, paths) && (right ==> FoundBelow(res, f, last, paths, i))
        {
          CharAt(dist[..], N, f, i);
          CharAt(dist[..], N, i, last);
          ghost var u := dist[Index(N, i, last)];
          ghost var more: seq<seq<int>> := [];
          if right {
            CellIsEdge(res, dist[..], N, f, i);
            CellIsEdge(res, dist[..], N, i, last);
          }
          if dist[Index(N, f, i)] == 1 && dist[Index(N, i, last)] == dist[Index(N, f, last)] - 1 {
            var vvs2;
            vvs2, more := GetDescription(i);
            vvs := PushAll(f, vvs, vvs2, paths, more);
          } else {
            assert paths + Prepend(f, more) == paths;
          }
          if right { FoundMore(res, f, last, v, i, u, paths, more); }
          paths := paths + Prepend(f, more);
        }
        if right { FoundAll(res, f, last, paths); }
      }
      if right { ShortestOrNone(res, f, last, v, paths); }
      SpelledLength(vvs, paths);
    }

    /** The loop that puts word f in front of each ladder found further on. */
    method PushAll(f: int, vvs: seq<seq<string>>, vvs2: seq<seq<string>>,
                   ghost paths: seq<seq<int>>, ghost more: seq<seq<int>>) returns (r: seq<seq<string>>)
      requires 0 <= f < |res| && Spelled(vvs, paths) && Spelled(vvs2, more)
      ensures Spelled(r, paths + Prepend(f, more))
    {
      ghost var all := paths + Prepend(f, more);
      r := vvs;
      for m := 0 to |vvs2|
        invariant Spelled(r, paths + Prepend(f, more)[..m])
      {
        var vs := [res[f]] + vvs2[m];
        assert vs == Spell([f] + more[m]);
        r := r + [vs];
        assert Prepend(f, more)[..m + 1] == Prepend(f, more)[..m] + [[f] + more[m]];
      }
      assert Prepend(f, more)[..|vvs2|] == Prepend(f, more);
    }

    lemma SpelledHere(f: int)
      requires 0 <= f < |res|
      ensures Spelled([[res[f]]], [[f]])
    {
      assert Spell([f]) == [res[f]];
    }

    lemma SpelledNothing()
      ensures Spelled([], [])
    {
    }

    lemma SpelledLength(vvs: seq<seq<string>>, paths: seq<seq<int>>)
      requires Spelled(vvs, paths)
      ensures |vvs| == |paths|
    {
    }
  }

  /** All shortest index paths from the first word to the last, each once, spelled in words. */
  ghost predicate AllLadders(ws: seq<string>, ladders: seq<seq<string>>, paths: seq<seq<int>>)
    requires SameLength(ws) && |ws| >= 1
  {
    && |ladders| == |paths| && Distinct(paths)
    && (forall p :: p in paths <==> IsShortest(ws, 0, |ws| - 1, p))
    && (forall m, x :: 0 <= m < |paths| && 0 <= x < |paths[m]| ==>
          0 <= paths[m][x] < |ws| && |ladders[m]| == |paths[m]| && ladders[m][x] == ws[paths[m][x]])
  }

  /** `findLadders` for words of one length.  The number printed is the distance between the
      ends; when chars hold the distances, the ladders are all the shortest ones. */
  method FindLadders(start: string, end: string, dict: seq<string>)
    returns (ladders: seq<seq<string>>, found: bool, printed: int)
    requires SameLength([start] + dict + [end])
    ensures var ws := [start] + dict + [end];
      && Distance(ws, 0, |ws| - 1, if found then printed else -1)
      && (FitsChar(ws) ==>
            && (found <==> ladders != []) && (exists paths :: AllLadders(ws, ladders, paths))
            && (forall m :: 0 <= m < |ladders| ==> |ladders[m]| == printed + 1))
  {
    hide AllDist, CharMatrix, IsDist, IsShortest, SameLength, FitsChar;
    var ws := [start] + dict + [end];
    var sol := new Solution(ws);
    sol.CalcDist();
    found, printed := sol.GetMinDist();
    sol.CalcFloyd();
    ghost var paths;
    ladders, paths := sol.GetDescription(0);
    LaddersAreWords(sol, ladders, paths);
    if FitsChar(ws) {
      if found {
        LadderLengths(ws, printed, paths);
      } else {
        ShortestOrNone(ws, 0, |ws| - 1, -1, paths);
      }
      assert AllLadders(ws, ladders, paths);
    }
  }

  lemma LadderLengths(ws: seq<string>, v: nat, paths: seq<seq<int>>)
    requires SameLength(ws) && |ws| >= 1 && Distance(ws, 0, |ws| - 1, v)
    requires forall p :: p in paths <==> IsShortest(ws, 0, |ws| - 1, p)
    ensures paths != [] && forall m :: 0 <= m < |paths| ==> |paths[m]| == v + 1
  {
    hide IsDist;
    ShortestOrNone(ws, 0, |ws| - 1, v, paths);
    forall m | 0 <= m < |paths| ensures |paths[m]| == v + 1 {
      assert paths[m] in paths;
      DistanceUnique(ws, 0, |ws| - 1, v, |paths[m]| - 1);
    }
    if paths == [] { DistanceUnique(ws, 0, |ws| - 1, v, -1); }
  }

  lemma LaddersAreWords(sol: Solution, ladders: seq<seq<string>>, paths: seq<seq<int>>)
    requires sol.Spelled(ladders, paths)
    ensures |ladders| == |paths|
    ensures forall m, x :: 0 <= m < |paths| && 0 <= x < |paths[m]| ==>
      0 <= paths[m][x] < |sol.res| && |ladders[m]| == |paths[m]| && ladders[m][x] == sol.res[paths[m][x]]
    ensures forall m :: 0 <= m < |paths| ==> |ladders[m]| == |paths[m]|
  {
  }

  /** The search and Floyd's algorithm agree on every graph. */
  lemma SearchAgreesWithFloyd(ws: seq<string>, d: seq<int>, r: int)
    requires SameLength(ws) && |ws| >= 1 && AllDist(ws, d, |ws|) && Distance(ws, 0, |ws| - 1, r)
    ensures Cell(d, |ws|, 0, |ws| - 1) == r
  {
    DistanceUnique(ws, 0, |ws| - 1, r, Cell(d, |ws|, 0, |ws| - 1));
  }

  /** A diagonal cell is outside the sweep. */
  lemma SweepDiagonal(was: seq<int>, d: seq<int>, n: int, goal: Goal, i: int)
    requires Swept(was, d, n, goal, i, i + 1) && 0 <= i < n
    ensures Swept(SetCell(was, n, i, i, 0), SetCell(d, n, i, i, 0), n, goal, i, i + 1)
    ensures forall a :: 0 <= a < n ==>
      Cell(SetCell(was, n, i, i, 0), n, a, a) == if a == i then 0 else Cell(was, n, a, a)
  {
    var was', d' := SetCell(was, n, i, i, 0), SetCell(d, n, i, i, 0);
    forall a, b | 0 <= a < n && 0 <= b < n
      ensures Cell(was', n, a, b) == if a == i && b == i then 0 else Cell(was, n, a, b)
      ensures Cell(d', n, a, b) == if a == i && b == i then 0 else Cell(d, n, a, b)
    {
      SetCellAt(was, n, i, i, 0, a, b);
      SetCellAt(d, n, i, i, 0, a, b);
    }
  }
}
