/** four-sum: all quadruples with a given sum, by a pruned search over the sorted
    input.  Integers are unbounded. */
module FourSum {
  import opened ListFacts

  ghost predicate Sorted(s: seq<int>) { forall x, y :: 0 <= x < y < |s| ==> s[x] <= s[y] }

  /** q is a non-decreasing quadruple of elements of num, each used at most as often
      as it occurs, and adds up to the target. */
  ghost predicate Solution(num: seq<int>, target: int, q: seq<int>) {
    && |q| == 4 && Sorted(q)
    && q[0] + q[1] + q[2] + q[3] == target
    && multiset(q) <= multiset(num)
  }

  // ------------------------------------- solutions as positions in sorted input

  ghost predicate Increasing(s: seq<int>, pos: seq<int>) {
    && (forall x :: 0 <= x < |pos| ==> 0 <= pos[x] < |s|)
    && (forall x, y :: 0 <= x < y < |pos| ==> pos[x] < pos[y])
  }

  ghost predicate ReadsAt(s: seq<int>, pos: seq<int>, q: seq<int>) {
    && Increasing(s, pos) && |q| == |pos|
    && (forall x :: 0 <= x < |pos| ==> s[pos[x]] == q[x])
  }

  /** In sorted s, index of the last x. */
  lemma {:induction false} LastOf(s: seq<int>, x: int) returns (j: int)
    requires Sorted(s) && x in s
    ensures 0 <= j < |s| && s[j] == x && forall y :: j < y < |s| ==> s[y] > x
    decreases |s|
  {
    j := |s| - 1;
    if s[j] != x {
      assert x in s[..j];
      var j' := LastOf(s[..j], x);
      assert s[j'] == x && s[..j][j'] == x;
      forall y | j' < y < |s| ensures s[y] > x {
        if y < j { assert s[..j][y] > x; }
      }
      j := j';
    }
  }

  lemma SplitCount(s: seq<int>, j: nat, y: int)
    requires j < |s|
    ensures multiset(s)[y] == multiset(s[..j])[y] + (if s[j] == y then 1 else 0) + multiset(s[j + 1..])[y]
  {
    assert s == s[..j] + [s[j]] + s[j + 1..];
  }

  /** The rest of q is found before the last occurrence of its greatest element. */
  lemma FrontCounts(s: seq<int>, q: seq<int>, j: int)
    requires Sorted(q) && q != [] && multiset(q) <= multiset(s)
    requires 0 <= j < |s| && s[j] == q[|q| - 1] && forall y :: j < y < |s| ==> s[y] > s[j]
    ensures multiset(q[..|q| - 1]) <= multiset(s[..j])
  {
    var m := |q| - 1;
    forall y ensures multiset(q[..m])[y] <= multiset(s[..j])[y] {
      SplitCount(q, m, y);
      SplitCount(s, j, y);
      assert q[m + 1..] == [];
      if y in q[..m] {
        assert y <= q[m];
        assert y !in s[j + 1..];
      }
    }
  }

  lemma {:induction false} PositionsExist(s: seq<int>, q: seq<int>) returns (pos: seq<int>)
    requires Sorted(s) && Sorted(q) && multiset(q) <= multiset(s)
    ensures ReadsAt(s, pos, q)
    decreases |q|
  {
    pos := [];
    if q != [] {
      var m := |q| - 1;
      var x := q[m];
      assert x in multiset(q);
      var j := LastOf(s, x);
      FrontCounts(s, q, j);
      var front := PositionsExist(s[..j], q[..m]);
      pos := front + [j];
      assert forall z :: 0 <= z < m ==> s[..j][front[z]] == s[front[z]];
    }
  }

  lemma {:induction false} PositionsCount(s: seq<int>, pos: seq<int>, q: seq<int>)
    requires ReadsAt(s, pos, q)
    ensures multiset(q) <= multiset(s)
    decreases |q|
  {
    if q != [] {
      var m := |q| - 1;
      var j := pos[m];
      PositionsCount(s[..j], pos[..m], q[..m]);
      forall y ensures multiset(q)[y] <= multiset(s)[y] {
        SplitCount(q, m, y);
        SplitCount(s, j, y);
        assert q[m + 1..] == [];
      }
    }
  }

  /** q is s at positions a < b < c < d and adds up. */
  ghost predicate QuadAt(s: seq<int>, target: int, q: seq<int>, a: int, b: int, c: int, d: int) {
    && 0 <= a < b < c < d < |s| && |q| == 4
    && q[0] == s[a] && q[1] == s[b] && q[2] == s[c] && q[3] == s[d]
    && q[0] + q[1] + q[2] + q[3] == target
  }

  ghost predicate Quad(s: seq<int>, target: int, q: seq<int>) {
    exists a, b, c, d :: QuadAt(s, target, q, a, b, c, d)
  }

  /** On sorted input, solutions are the quadruples read at increasing positions. */
  lemma QuadIsSolution(s: seq<int>, target: int, q: seq<int>)
    requires Sorted(s)
    ensures Quad(s, target, q) <==> Solution(s, target, q)
  {
    if Quad(s, target, q) {
      var a, b, c, d :| QuadAt(s, target, q, a, b, c, d);
      PositionsCount(s, [a, b, c, d], q);
    }
    if Solution(s, target, q) {
      var pos := PositionsExist(s, q);
      assert QuadAt(s, target, q, pos[0], pos[1], pos[2], pos[3]);
    }
  }

  // ----------------------------------------------------------- binary search

  /** `isOK`: is x among num[s..e]? */
  method IsOK(num: seq<int>, s: int, e: int, x: int) returns (r: bool)
    requires Sorted(num) && 0 <= s <= e + 1 <= |num|
    ensures r <==> x in num[s..e + 1]
  {
    var u, v := 0, e - s;
    while u <= v
      invariant 0 <= u <= v + 1 <= e - s + 1
      invariant forall z :: s <= z < s + u ==> num[z] < x
      invariant forall z :: s + v < z <= e ==> num[z] > x
      decreases v - u
    {
      var m := (u + v) / 2;
      if num[m + s] == x {
        assert num[s..e + 1][m] == x;
        return true;
      }
      if num[m + s] > x {
        v := m - 1;
      } else {
        u := m + 1;
      }
    }
    assert forall z :: s <= z <= e ==> num[z] != x;
    r := false;
  }

  // ---------------------------------------------------------------- the search

  /** How far the three loops have come. */
  datatype Stage = AtI(i: int) | AtK(i: int, k: int) | AtJ(i: int, k: int, j: int)

  /** Quadruples the search has dealt with: by first value, then by second, then
      by last value from the top. */
  ghost predicate Covered(s: seq<int>, stage: Stage, q: seq<int>) {
    && |q| == 4 && 0 <= stage.i <= |s|
    && match stage
       case AtI(i) => q[0] in s[..i]
       case AtK(i, k) =>
         i < k <= |s| && (q[0] in s[..i] || (q[0] == s[i] && q[1] in s[i + 1..k]))
       case AtJ(i, k, j) =>
         i < k < |s| && k <= j < |s| &&
         (q[0] in s[..i] || (q[0] == s[i] && (q[1] in s[i + 1..k] || (q[1] == s[k] && q[3] in s[j + 1..]))))
  }

  /** The result so far: what is covered, each once. */
  ghost predicate Collected(s: seq<int>, target: int, stage: Stage, res: seq<seq<int>>) {
    && Distinct(res)
    && forall q :: q in res <==> Quad(s, target, q) && Covered(s, stage, q)
  }

  lemma SameCoverage(s: seq<int>, target: int, from: Stage, to: Stage, res: seq<seq<int>>)
    requires Collected(s, target, from, res)
    requires forall q :: Quad(s, target, q) ==> (Covered(s, from, q) <==> Covered(s, to, q))
    ensures Collected(s, target, to, res)
  {
  }

  lemma OneMore(s: seq<int>, target: int, from: Stage, to: Stage, res: seq<seq<int>>, r: seq<int>)
    requires Collected(s, target, from, res) && Quad(s, target, r) && !Covered(s, from, r)
    requires forall q :: Quad(s, target, q) ==> (Covered(s, to, q) <==> Covered(s, from, q) || q == r)
    ensures Collected(s, target, to, res + [r])
  {
    assert r !in res;
  }

  /** i holds a value for the first time. */
  ghost predicate FreshI(s: seq<int>, i: int) { 0 <= i < |s| && (i == 0 || s[i] != s[i - 1]) }

  /** k holds a value for the first time after i. */
  ghost predicate FreshK(s: seq<int>, i: int, k: int) {
    0 <= i < k < |s| && (k == i + 1 || s[k] != s[k - 1])
  }

  /** j holds a value for the last time. */
  ghost predicate FreshJ(s: seq<int>, j: int) { 0 <= j < |s| && (j == |s| - 1 || s[j] != s[j + 1]) }

  lemma FirstOfValue(s: seq<int>, i: int, a: int)
    requires Sorted(s) && FreshI(s, i) && 0 <= a < |s| && s[a] == s[i]
    ensures i <= a
  {
  }

  lemma FirstAfter(s: seq<int>, i: int, k: int, b: int)
    requires Sorted(s) && FreshK(s, i, k) && i < b < |s| && s[b] == s[k]
    ensures k <= b
  {
  }

  lemma LastOfValue(s: seq<int>, j: int, d: int)
    requires Sorted(s) && FreshJ(s, j) && 0 <= d < |s| && s[d] == s[j]
    ensures d <= j
  {
  }

  lemma InSlice(s: seq<int>, lo: int, hi: int, x: int)
    requires 0 <= lo <= x < hi <= |s|
    ensures s[x] in s[lo..hi]
  {
    assert s[lo..hi][x - lo] == s[x];
  }

  /** Where the other elements of a quadruple with first value s[i] can lie. */
  lemma SecondLies(s: seq<int>, target: int, q: seq<int>, i: int)
    requires Sorted(s) && Quad(s, target, q) && FreshI(s, i) && q[0] == s[i]
    ensures i + 4 <= |s| && q[1] in s[i + 1..|s| - 2]
  {
    var a, b, c, d :| QuadAt(s, target, q, a, b, c, d);
    FirstOfValue(s, i, a);
    InSlice(s, i + 1, |s| - 2, b);
  }

  lemma LastLies(s: seq<int>, target: int, q: seq<int>, i: int, k: int)
    requires Sorted(s) && Quad(s, target, q) && FreshI(s, i) && q[0] == s[i] && FreshK(s, i, k) && q[1] == s[k]
    ensures k + 3 <= |s| && q[3] in s[k + 2..]
  {
    var a, b, c, d :| QuadAt(s, target, q, a, b, c, d);
    FirstOfValue(s, i, a);
    FirstAfter(s, i, k, b);
    InSlice(s, k + 2, |s|, d);
  }

  lemma ThirdLies(s: seq<int>, target: int, q: seq<int>, i: int, k: int, j: int)
    requires Sorted(s) && Quad(s, target, q) && FreshI(s, i) && q[0] == s[i] && FreshK(s, i, k) && q[1] == s[k]
    requires FreshJ(s, j) && q[3] == s[j]
    ensures k + 2 <= j && q[2] in s[k + 1..j]
  {
    var a, b, c, d :| QuadAt(s, target, q, a, b, c, d);
    FirstOfValue(s, i, a);
    FirstAfter(s, i, k, b);
    LastOfValue(s, j, d);
    InSlice(s, k + 1, j, c);
  }

  lemma QuadOrdered(s: seq<int>, target: int, q: seq<int>)
    requires Sorted(s) && Quad(s, target, q)
    ensures |q| == 4 && q[0] <= q[1] <= q[2] <= q[3] && q[0] + q[1] + q[2] + q[3] == target
    ensures |s| >= 4 && q[0] in s[..|s| - 3]
  {
    var a, b, c, d :| QuadAt(s, target, q, a, b, c, d);
    InSlice(s, 0, |s| - 3, a);
  }

  lemma SliceSnoc(s: seq<int>, lo: int, hi: int, x: int)
    requires 0 <= lo <= hi < |s|
    ensures x in s[lo..hi + 1] <==> x in s[lo..hi] || x == s[hi]
  {
    assert s[lo..hi + 1] == s[lo..hi] + [s[hi]];
  }

  lemma SliceCons(s: seq<int>, lo: int, x: int)
    requires 0 <= lo < |s|
    ensures x in s[lo..] <==> x == s[lo] || x in s[lo + 1..]
  {
    assert s[lo..] == [s[lo]] + s[lo + 1..];
  }

  // ------------------------------------------------ the loops' steps on coverage

  lemma SkipI(s: seq<int>, target: int, i: int, res: seq<seq<int>>)
    requires 0 < i < |s| && s[i] == s[i - 1] && Collected(s, target, AtI(i), res)
    ensures Collected(s, target, AtI(i + 1), res)
  {
    hide Quad;
    forall q: seq<int> | |q| == 4 ensures Covered(s, AtI(i), q) <==> Covered(s, AtI(i + 1), q) {
      SliceSnoc(s, 0, i, q[0]);
      assert s[..i][i - 1] == s[i];
    }
    SameCoverage(s, target, AtI(i), AtI(i + 1), res);
  }

  lemma EnterI(s: seq<int>, target: int, i: int, res: seq<seq<int>>)
    requires 0 <= i < |s| && Collected(s, target, AtI(i), res)
    ensures Collected(s, target, AtK(i, i + 1), res)
  {
    hide Quad;
    SameCoverage(s, target, AtI(i), AtK(i, i + 1), res);
  }

  lemma LeaveI(s: seq<int>, target: int, i: int, res: seq<seq<int>>)
    requires Sorted(s) && FreshI(s, i) && i + 3 < |s| && Collected(s, target, AtK(i, |s| - 2), res)
    ensures Collected(s, target, AtI(i + 1), res)
  {
    hide Quad;
    forall q | Quad(s, target, q)
      ensures Covered(s, AtK(i, |s| - 2), q) <==> Covered(s, AtI(i + 1), q)
    {
      QuadOrdered(s, target, q);
      SliceSnoc(s, 0, i, q[0]);
      if q[0] == s[i] { SecondLies(s, target, q, i); }
    }
    SameCoverage(s, target, AtK(i, |s| - 2), AtI(i + 1), res);
  }

  lemma SkipK(s: seq<int>, target: int, i: int, k: int, res: seq<seq<int>>)
    requires 0 <= i && i + 1 < k < |s| && s[k] == s[k - 1] && Collected(s, target, AtK(i, k), res)
    ensures Collected(s, target, AtK(i, k + 1), res)
  {
    hide Quad;
    forall q: seq<int> | |q| == 4 ensures Covered(s, AtK(i, k), q) <==> Covered(s, AtK(i, k + 1), q) {
      SliceSnoc(s, i + 1, k, q[1]);
      assert s[i + 1..k][k - 1 - (i + 1)] == s[k];
    }
    SameCoverage(s, target, AtK(i, k), AtK(i, k + 1), res);
  }

  lemma EnterK(s: seq<int>, target: int, i: int, k: int, res: seq<seq<int>>)
    requires 0 <= i < k < |s| && Collected(s, target, AtK(i, k), res)
    ensures Collected(s, target, AtJ(i, k, |s| - 1), res)
  {
    hide Quad;
    SameCoverage(s, target, AtK(i, k), AtJ(i, k, |s| - 1), res);
  }

  /** No quadruple is left for the pair: the j loop ran out, or broke off because the
      missing element would have to exceed s[j]. */
  lemma LeaveK(s: seq<int>, target: int, i: int, k: int, j: int, res: seq<seq<int>>)
    requires Sorted(s) && FreshI(s, i) && FreshK(s, i, k) && k < j < |s|
    requires j == k + 1 || target - (s[i] + s[j] + s[k]) > s[j]
    requires Collected(s, target, AtJ(i, k, j), res)
    ensures Collected(s, target, AtK(i, k + 1), res)
  {
    hide Quad;
    forall q | Quad(s, target, q)
      ensures Covered(s, AtJ(i, k, j), q) <==> Covered(s, AtK(i, k + 1), q)
    {
      QuadOrdered(s, target, q);
      SliceSnoc(s, i + 1, k, q[1]);
      if q[0] == s[i] && q[1] == s[k] {
        LastLies(s, target, q, i, k);
        if j != k + 1 {
          assert q[3] > s[j];
          var d :| k + 2 <= d < |s| && s[d] == q[3];
          InSlice(s, j + 1, |s|, d);
        }
      }
    }
    SameCoverage(s, target, AtJ(i, k, j), AtK(i, k + 1), res);
  }

  lemma SkipJ(s: seq<int>, target: int, i: int, k: int, j: int, res: seq<seq<int>>)
    requires 0 <= i < k < j < |s| - 1 && s[j] == s[j + 1] && Collected(s, target, AtJ(i, k, j), res)
    ensures Collected(s, target, AtJ(i, k, j - 1), res)
  {
    hide Quad;
    forall q: seq<int> | |q| == 4 ensures Covered(s, AtJ(i, k, j), q) <==> Covered(s, AtJ(i, k, j - 1), q) {
      SliceCons(s, j, q[3]);
      SliceCons(s, j + 1, q[3]);
    }
    SameCoverage(s, target, AtJ(i, k, j), AtJ(i, k, j - 1), res);
  }

  /** Looking at (i, k, j) settles the one quadruple with these first, second and last values. */
  lemma TryJ(s: seq<int>, target: int, i: int, k: int, j: int, res: seq<seq<int>>)
    requires Sorted(s) && FreshI(s, i) && FreshK(s, i, k) && FreshJ(s, j) && k + 1 < j
    requires Collected(s, target, AtJ(i, k, j), res)
    ensures var xz := target - (s[i] + s[j] + s[k]);
            Collected(s, target, AtJ(i, k, j - 1),
                      if xz in s[k + 1..j] then res + [[s[i], s[k], xz, s[j]]] else res)
  {
    hide Quad;
    var xz := target - (s[i] + s[j] + s[k]);
    var r := [s[i], s[k], xz, s[j]];
    forall q | Quad(s, target, q)
      ensures Covered(s, AtJ(i, k, j - 1), q) <==> Covered(s, AtJ(i, k, j), q) || q == r
      ensures q == r ==> xz in s[k + 1..j]
    {
      QuadOrdered(s, target, q);
      SliceCons(s, j, q[3]);
      if q[0] == s[i] && q[1] == s[k] && q[3] == s[j] { ThirdLies(s, target, q, i, k, j); }
    }
    if xz in s[k + 1..j] {
      TriedIsQuad(s, target, i, k, j);
      NotCoveredYet(s, i, k, j, r);
      OneMore(s, target, AtJ(i, k, j), AtJ(i, k, j - 1), res, r);
    } else {
      SameCoverage(s, target, AtJ(i, k, j), AtJ(i, k, j - 1), res);
    }
  }

  lemma TriedIsQuad(s: seq<int>, target: int, i: int, k: int, j: int)
    requires 0 <= i < k < j < |s| && target - (s[i] + s[j] + s[k]) in s[k + 1..j]
    ensures Quad(s, target, [s[i], s[k], target - (s[i] + s[j] + s[k]), s[j]])
  {
    var xz := target - (s[i] + s[j] + s[k]);
    var c :| k < c < j && s[c] == xz;
    assert QuadAt(s, target, [s[i], s[k], xz, s[j]], i, k, c, j);
  }

  lemma NotCoveredYet(s: seq<int>, i: int, k: int, j: int, r: seq<int>)
    requires Sorted(s) && FreshI(s, i) && FreshK(s, i, k) && FreshJ(s, j) && k < j
    requires |r| == 4 && r[0] == s[i] && r[1] == s[k] && r[3] == s[j]
    ensures !Covered(s, AtJ(i, k, j), r)
  {
  }

  lemma Start(s: seq<int>, target: int)
    ensures Collected(s, target, AtI(0), [])
  {
    hide Quad;
  }

  lemma Finish(s: seq<int>, target: int, i: int, res: seq<seq<int>>)
    requires Sorted(s) && 0 <= i <= |s| && i >= |s| - 3 && Collected(s, target, AtI(i), res)
    ensures Distinct(res) && forall q :: q in res <==> Solution(s, target, q)
  {
    hide Quad;
    forall q ensures q in res <==> Solution(s, target, q) {
      QuadIsSolution(s, target, q);
      if Quad(s, target, q) {
        QuadOrdered(s, target, q);
        var a :| 0 <= a < |s| - 3 && s[a] == q[0];
        InSlice(s, 0, i, a);
      }
    }
  }

  /** The three nested loops, on sorted input: every solution exactly once and
      nothing else, whatever the skips, `continue`s and the `break` leave out. */
  method Search(num: seq<int>, target: int) returns (res: seq<seq<int>>)
    requires Sorted(num)
    ensures Distinct(res)
    ensures forall q :: q in res <==> Solution(num, target, q)
  {
    hide Collected;
    var n := |num|;
    res := [];
    Start(num, target);
    var i := 0;
    while i < n - 3
      invariant 0 <= i <= n && Collected(num, target, AtI(i), res)
    {
      if i != 0 && num[i] == num[i - 1] {
        SkipI(num, target, i, res);
      } else {
        EnterI(num, target, i, res);
        res := SearchFrom(num, target, i, res);
      }
      i := i + 1;
    }
    Finish(num, target, i, res);
  }

  /** The k and j loops for one i. */
  method SearchFrom(num: seq<int>, target: int, i: int, found: seq<seq<int>>) returns (res: seq<seq<int>>)
    requires Sorted(num) && FreshI(num, i) && i + 3 < |num| && Collected(num, target, AtK(i, i + 1), found)
    ensures Collected(num, target, AtI(i + 1), res)
  {
    hide Collected, Sorted;
    var n := |num|;
    res := found;
    var k := i + 1;
    while k < n - 2
      invariant i < k <= n - 2 && Collected(num, target, AtK(i, k), res)
    {
      if k != i + 1 && num[k] == num[k - 1] {
        SkipK(num, target, i, k, res);
      } else {
        EnterK(num, target, i, k, res);
        var j := n - 1;
        while j >= k + 2
          invariant k < j < n && Collected(num, target, AtJ(i, k, j), res)
          decreases j
        {
          var xj := num[j];
          if j != n - 1 && num[j] == num[j + 1] {
            SkipJ(num, target, i, k, j, res);
            j := j - 1;
            continue;
          }
          var xz := target - (num[i] + xj + num[k]);
          if xz > xj { break; }
          TryJ(num, target, i, k, j, res);
          if xz < num[i] || xz < num[k] {
            TooSmall(num, k, j, xz);
            j := j - 1;
            continue;
          }
          var ok := IsOK(num, k + 1, j - 1, xz);
          if ok {
            res := res + [[num[i], num[k], xz, xj]];
          }
          j := j - 1;
        }
        LeaveK(num, target, i, k, j, res);
      }
      k := k + 1;
    }
    LeaveI(num, target, i, res);
  }

  lemma TooSmall(s: seq<int>, k: int, j: int, x: int)
    requires Sorted(s) && 0 <= k < j < |s| && (x < s[k] || exists i :: 0 <= i < k && x < s[i])
    ensures x !in s[k + 1..j]
  {
  }

  // ------------------------------------------------------------------- sorting

  lemma SortedEmpty()
    ensures Sorted([])
  {
  }

  lemma InsertKeeps(r: seq<int>, p: int, x: int)
    requires Sorted(r) && 0 <= p <= |r| && (p == 0 || r[p - 1] <= x)
    requires forall y :: p <= y < |r| ==> r[y] > x
    ensures Sorted(r[..p] + [x] + r[p..])
  {
    var t := r[..p] + [x] + r[p..];
    forall y, z | 0 <= y < z < |t| ensures t[y] <= t[z] {
      assert t[y] == (if y < p then r[y] else if y == p then x else r[y - 1]);
      assert t[z] == (if z < p then r[z] else if z == p then x else r[z - 1]);
      assert y < p ==> r[y] <= r[p - 1];
    }
  }

  lemma InsertCounts(r: seq<int>, p: int, x: int)
    requires 0 <= p <= |r|
    ensures multiset(r[..p] + [x] + r[p..]) == multiset(r) + multiset{x}
  {
    assert r == r[..p] + r[p..];
  }

  /** Stands for the library's sort. */
  method Sort(s: seq<int>) returns (r: seq<int>)
    ensures Sorted(r) && multiset(r) == multiset(s)
  {
    hide Sorted;
    r := [];
    SortedEmpty();
    for n := 0 to |s|
      invariant Sorted(r) && multiset(r) == multiset(s[..n])
    {
      var p := |r|;
      while p > 0 && r[p - 1] > s[n]
        invariant 0 <= p <= |r| && forall x :: p <= x < |r| ==> r[x] > s[n]
      {
        p := p - 1;
      }
      InsertKeeps(r, p, s[n]);
      InsertCounts(r, p, s[n]);
      assert s[..n + 1] == s[..n] + [s[n]];
      r := r[..p] + [s[n]] + r[p..];
    }
    assert s[..|s|] == s;
  }

  /** `fourSum`: sorts num in place, then searches. */
  method FourSum(num: array<int>, target: int) returns (res: seq<seq<int>>)
    modifies num
    ensures Sorted(num[..]) && multiset(num[..]) == multiset(old(num[..]))
    ensures Distinct(res)
    ensures forall q :: q in res <==> Solution(old(num[..]), target, q)
  {
    var sorted := Sort(num[..]);
    assert |multiset(sorted)| == |multiset(num[..])|;
    forall x | 0 <= x < num.Length { num[x] := sorted[x]; }
    assert num[..] == sorted;
    res := Search(num[..], target);
  }
}
