/** word-break-2: a memoised test whether a string can be cut into dictionary
    words, and a trie-driven enumeration of all the ways to do it. */
module WordBreak {
  import opened FlatMatrix
  import opened ListFacts
  import opened SetFacts

  // ------------------------------------------------------------- ways to cut

  /** c lists the ends of consecutive non-empty dictionary words that fill s[f..g]. */
  ghost predicate IsCut(s: string, dict: set<string>, f: int, g: int, c: seq<int>)
    requires 0 <= f <= g <= |s|
    decreases |c|
  {
    if c == [] then f == g
    else f < c[0] <= g && s[f..c[0]] in dict && IsCut(s, dict, c[0], g, c[1..])
  }

  /** All cuts of s[f..], by increasing end of the first word. */
  ghost function Cuts(s: string, dict: set<string>, f: int): seq<seq<int>>
    requires 0 <= f <= |s|
    decreases |s| - f, |s| + 1
  {
    (if f == |s| then [[]] else []) + CutsFrom(s, dict, f, f)
  }

  /** Those whose first word ends after i. */
  ghost function CutsFrom(s: string, dict: set<string>, f: int, i: int): seq<seq<int>>
    requires 0 <= f <= i <= |s|
    decreases |s| - f, |s| - i
  {
    if i == |s| then []
    else (if s[f..i + 1] in dict then Prepend(i + 1, Cuts(s, dict, i + 1)) else []) + CutsFrom(s, dict, f, i + 1)
  }

  lemma {:induction false} CutsAreCuts(s: string, dict: set<string>, f: int, c: seq<int>)
    requires 0 <= f <= |s|
    ensures c in Cuts(s, dict, f) <==> IsCut(s, dict, f, |s|, c)
    decreases |s| - f, |s| + 1
  {
    CutsFromAre(s, dict, f, f, c);
  }

  lemma {:induction false} CutsFromAre(s: string, dict: set<string>, f: int, i: int, c: seq<int>)
    requires 0 <= f <= i <= |s|
    ensures c in CutsFrom(s, dict, f, i) <==> c != [] && c[0] > i && IsCut(s, dict, f, |s|, c)
    decreases |s| - f, |s| - i
  {
    if i < |s| {
      hide Prepend;
      CutsFromAre(s, dict, f, i + 1, c);
      InPrepend(i + 1, Cuts(s, dict, i + 1), c);
      if c != [] { CutsAreCuts(s, dict, i + 1, c[1..]); }
    }
  }

  lemma {:induction false} CutsDistinct(s: string, dict: set<string>, f: int)
    requires 0 <= f <= |s|
    ensures Distinct(Cuts(s, dict, f))
    decreases |s| - f, |s| + 1
  {
    CutsFromDistinct(s, dict, f, f);
  }

  lemma {:induction false} CutsFromDistinct(s: string, dict: set<string>, f: int, i: int)
    requires 0 <= f <= i <= |s|
    ensures Distinct(CutsFrom(s, dict, f, i))
    decreases |s| - f, |s| - i
  {
    if i < |s| {
      var first := Prepend(i + 1, Cuts(s, dict, i + 1));
      var rest := CutsFrom(s, dict, f, i + 1);
      CutsDistinct(s, dict, i + 1);
      CutsFromDistinct(s, dict, f, i + 1);
      forall x, y | 0 <= x < y < |first| ensures first[x] != first[y] {
        assert first[x][1..] == Cuts(s, dict, i + 1)[x] && first[y][1..] == Cuts(s, dict, i + 1)[y];
      }
      forall x, y | 0 <= x < |first| && 0 <= y < |rest| ensures first[x] != rest[y] {
        assert rest[y] in rest;
        CutsFromAre(s, dict, f, i + 1, rest[y]);
      }
    }
  }

  /** The cuts are listed by the end of their first word, then of their second, and so on. */
  lemma {:induction false} CutsAscend(s: string, dict: set<string>, f: int)
    requires 0 <= f <= |s|
    ensures Ascending(Cuts(s, dict, f))
    decreases |s| - f, |s| + 1
  {
    CutsFromAscend(s, dict, f, f);
    if f == |s| { assert CutsFrom(s, dict, f, f) == []; }
  }

  lemma {:induction false} CutsFromAscend(s: string, dict: set<string>, f: int, i: int)
    requires 0 <= f <= i <= |s|
    ensures Ascending(CutsFrom(s, dict, f, i))
    decreases |s| - f, |s| - i
  {
    if i < |s| {
      var first := Prepend(i + 1, Cuts(s, dict, i + 1));
      var rest := CutsFrom(s, dict, f, i + 1);
      CutsAscend(s, dict, i + 1);
      CutsFromAscend(s, dict, f, i + 1);
      forall x, y | 0 <= x < y < |first| ensures Earlier(first[x], first[y]) {
        assert first[x][1..] == Cuts(s, dict, i + 1)[x] && first[y][1..] == Cuts(s, dict, i + 1)[y];
      }
      forall x, y | 0 <= x < |first| && 0 <= y < |rest| ensures Earlier(first[x], rest[y]) {
        assert rest[y] in rest;
        CutsFromAre(s, dict, f, i + 1, rest[y]);
      }
    }
  }

  // ------------------------------------------------------------ the memo test

  /** The unmemoised definition of `wb`: split in two anywhere. */
  ghost predicate Breaks(s: string, dict: set<string>, f: int, e: int)
    requires 0 <= f <= e + 1 <= |s|
    decreases e + 1 - f
  {
    f > e || s[f..e + 1] in dict ||
    exists i :: f < i <= e && Breaks(s, dict, f, i - 1) && Breaks(s, dict, i, e)
  }

  lemma {:induction false} CutsJoin(s: string, dict: set<string>, f: int, m: int, g: int, c: seq<int>, d: seq<int>)
    requires 0 <= f <= m <= g <= |s| && IsCut(s, dict, f, m, c) && IsCut(s, dict, m, g, d)
    ensures IsCut(s, dict, f, g, c + d)
    decreases |c|
  {
    if c == [] {
      assert c + d == d;
    } else {
      CutsJoin(s, dict, c[0], m, g, c[1..], d);
      assert (c + d)[1..] == c[1..] + d;
    }
  }

  lemma {:induction false} BreaksHasCut(s: string, dict: set<string>, f: int, e: int) returns (c: seq<int>)
    requires 0 <= f <= e + 1 <= |s| && Breaks(s, dict, f, e)
    ensures IsCut(s, dict, f, e + 1, c)
    decreases e + 1 - f
  {
    if f > e {
      c := [];
    } else if s[f..e + 1] in dict {
      c := [e + 1];
      assert IsCut(s, dict, e + 1, e + 1, c[1..]);
    } else {
      var i :| f < i <= e && Breaks(s, dict, f, i - 1) && Breaks(s, dict, i, e);
      var c1 := BreaksHasCut(s, dict, f, i - 1);
      var c2 := BreaksHasCut(s, dict, i, e);
      CutsJoin(s, dict, f, i, e + 1, c1, c2);
      c := c1 + c2;
    }
  }

  lemma {:induction false} CutBreaks(s: string, dict: set<string>, f: int, e: int, c: seq<int>)
    requires 0 <= f <= e + 1 <= |s| && IsCut(s, dict, f, e + 1, c)
    ensures Breaks(s, dict, f, e)
    decreases |c|
  {
    if c != [] && c[0] <= e {
      CutBreaks(s, dict, c[0], e, c[1..]);
      assert Breaks(s, dict, f, c[0] - 1);
    }
  }

  /** Binary splitting finds a cut exactly when there is one. */
  lemma BreaksIffCuts(s: string, dict: set<string>)
    requires s != ""
    ensures Breaks(s, dict, 0, |s| - 1) <==> Cuts(s, dict, 0) != []
  {
    if Breaks(s, dict, 0, |s| - 1) {
      var c := BreaksHasCut(s, dict, 0, |s| - 1);
      CutsAreCuts(s, dict, 0, c);
    }
    if Cuts(s, dict, 0) != [] {
      var c := Cuts(s, dict, 0)[0];
      assert c in Cuts(s, dict, 0);
      CutsAreCuts(s, dict, 0, c);
      CutBreaks(s, dict, 0, |s| - 1, c);
    }
  }

  /** Every filled cell of the table agrees with the unmemoised definition. */
  ghost predicate MemoAgrees(s: string, dict: set<string>, d: seq<int>) {
    |d| == |s| * |s| &&
    forall f, e :: 0 <= f <= e < |s| && Cell(d, |s|, f, e) != -1 ==>
      (Cell(d, |s|, f, e) == 1 <==> Breaks(s, dict, f, e))
  }

  lemma MemoStep(s: string, dict: set<string>, d: seq<int>, f: int, e: int, b: bool)
    requires MemoAgrees(s, dict, d) && 0 <= f <= e < |s| && (b <==> Breaks(s, dict, f, e))
    ensures MemoAgrees(s, dict, SetCell(d, |s|, f, e, if b then 1 else 0))
  {
    var v := if b then 1 else 0;
    forall a, z | 0 <= a <= z < |s| && Cell(SetCell(d, |s|, f, e, v), |s|, a, z) != -1
      ensures Cell(SetCell(d, |s|, f, e, v), |s|, a, z) == 1 <==> Breaks(s, dict, a, z)
    {
      SetCellAt(d, |s|, f, e, v, a, z);
    }
  }

  lemma MemoHit(s: string, dict: set<string>, d: seq<int>, f: int, e: int)
    requires MemoAgrees(s, dict, d) && 0 <= f <= e < |s|
    ensures 0 <= Index(|s|, f, e) < |d|
    ensures d[Index(|s|, f, e)] != -1 ==> (d[Index(|s|, f, e)] == 1 <==> Breaks(s, dict, f, e))
  {
    IndexInRange(|s|, f, e);
    assert Cell(d, |s|, f, e) == d[Index(|s|, f, e)];
  }

  /** `Solution1`: the table dp, N by N, -1 where nothing is known yet. */
  class Memo {
    const N: int
    const dp: array<int>

    constructor (n: nat)
      ensures N == n && dp.Length == n * n && fresh(dp) && forall x :: 0 <= x < dp.Length ==> dp[x] == -1
    {
      N := n;
      dp := new int[n * n](_ => -1);
    }

    method Wb(s: string, f: int, e: int, dict: set<string>) returns (r: bool)
      requires 0 <= f <= e + 1 <= |s| == N
      requires MemoAgrees(s, dict, dp[..])
      modifies dp
      ensures MemoAgrees(s, dict, dp[..])
      ensures r <==> Breaks(s, dict, f, e)
      decreases e + 1 - f
    {
      hide MemoAgrees, Index;
      if f > e {
        return true;
      }
      var index := Index(N, f, e);
      MemoHit(s, dict, dp[..], f, e);
      if dp[index] != -1 {
        return dp[index] == 1;
      }
      var found := false;
      if s[f..e + 1] !in dict {
        var i := f + 1;
        while i <= e
          invariant f < i <= e + 1 && MemoAgrees(s, dict, dp[..])
          invariant !found && forall j :: f < j < i ==> !(Breaks(s, dict, f, j - 1) && Breaks(s, dict, j, e))
        {
          var b1 := Wb(s, f, i - 1, dict);
          var b2 := Wb(s, i, e, dict);
          if b1 && b2 {
            found := true;
            break;
          }
          i := i + 1;
        }
      } else {
        found := true;
      }
      MemoHit(s, dict, dp[..], f, e);
      MemoStep(s, dict, dp[..], f, e, found);
      dp[index] := if found then 1 else 0;
      r := found;
    }
  }

  // ------------------------------------------------------------------ the trie

  /** A heap node.  A null entry of the source's child map is an absent one here. */
  class Trie {
    var eof: bool
    var sub: map<char, Trie>
    constructor ()
      ensures !eof && sub == map[]
    {
      eof, sub := false, map[];
    }
  }

  /** A path is in the trie only with the path one character shorter. */
  ghost predicate Closed(nodes: map<string, Trie>, p: string) { p == "" || p[..|p| - 1] in nodes }

  /** The child map of the node at p follows the paths. */
  ghost predicate Follows(nodes: map<string, Trie>, subs: map<string, map<char, Trie>>, p: string, c: char)
    requires p in subs
  {
    && (c in subs[p] <==> p + [c] in nodes)
    && (c in subs[p] ==> subs[p][c] == nodes[p + [c]])
  }

  /** Nodes by the path that leads to them, and their child maps, form a tree. */
  ghost predicate IsTree(nodes: map<string, Trie>, subs: map<string, map<char, Trie>>) {
    && "" in nodes && subs.Keys == nodes.Keys
    && (forall p, q :: p in nodes && q in nodes && nodes[p] == nodes[q] ==> p == q)
    && (forall p {:trigger Closed(nodes, p)} :: p in nodes ==> Closed(nodes, p))
    && (forall p, c {:trigger Follows(nodes, subs, p, c)} :: p in nodes ==> Follows(nodes, subs, p, c))
  }

  lemma SnocParts(p: string, c: char)
    ensures (p + [c])[..|p|] == p && (p + [c])[|p|] == c && |p + [c]| == |p| + 1
  {
  }

  lemma ClosedGrown(nodes: map<string, Trie>, path: string, ch: char, t: Trie, q: string)
    requires path in nodes && (q in nodes ==> Closed(nodes, q)) && (q in nodes || q == path + [ch])
    ensures Closed(nodes[path + [ch] := t], q)
  {
    SnocParts(path, ch);
  }

  lemma FollowsGrown(nodes: map<string, Trie>, subs: map<string, map<char, Trie>>, path: string, ch: char, t: Trie,
                     q: string, c: char)
    requires subs.Keys == nodes.Keys && path in nodes && path + [ch] !in nodes
    requires q in nodes ==> Follows(nodes, subs, q, c)
    requires q + [c] in nodes ==> Closed(nodes, q + [c])
    requires q in nodes || q == path + [ch]
    ensures Follows(nodes[path + [ch] := t], subs[path := subs[path][ch := t]][path + [ch] := map[]], q, c)
  {
    SnocParts(path, ch);
    SnocParts(q, c);
  }

  /** A new leaf under the node at `path`. */
  lemma TreeGrows(nodes: map<string, Trie>, subs: map<string, map<char, Trie>>, path: string, ch: char, t: Trie)
    requires IsTree(nodes, subs) && path in nodes && ch !in subs[path]
    requires forall q :: q in nodes ==> nodes[q] != t
    ensures path + [ch] !in nodes
    ensures IsTree(nodes[path + [ch] := t], subs[path := subs[path][ch := t]][path + [ch] := map[]])
  {
    hide Closed, Follows;
    var child := path + [ch];
    var nodes' := nodes[child := t];
    var subs' := subs[path := subs[path][ch := t]][child := map[]];
    TreeChild(nodes, subs, path, ch);
    forall q | q in nodes' ensures Closed(nodes', q) {
      assert q in nodes ==> Closed(nodes, q);
      ClosedGrown(nodes, path, ch, t, q);
    }
    forall q, c | q in nodes' ensures Follows(nodes', subs', q, c) {
      assert q in nodes ==> Follows(nodes, subs, q, c);
      assert q + [c] in nodes ==> Closed(nodes, q + [c]);
      FollowsGrown(nodes, subs, path, ch, t, q, c);
    }
  }

  lemma TreeChild(nodes: map<string, Trie>, subs: map<string, map<char, Trie>>, path: string, ch: char)
    requires IsTree(nodes, subs) && path in nodes
    ensures subs.Keys == nodes.Keys
    ensures ch in subs[path] <==> path + [ch] in nodes
    ensures ch in subs[path] ==> subs[path][ch] == nodes[path + [ch]]
    ensures forall q :: q in nodes && nodes[q] == nodes[path] ==> q == path
  {
    assert Follows(nodes, subs, path, ch);
  }

  /** A path of the trie has all its beginnings in the trie. */
  lemma {:induction false} PrefixInTree(nodes: map<string, Trie>, subs: map<string, map<char, Trie>>, w: string, n: nat)
    requires IsTree(nodes, subs) && w in nodes && n <= |w|
    ensures w[..n] in nodes
    decreases |w|
  {
    if n == |w| {
      assert w[..n] == w;
    } else {
      var front := w[..|w| - 1];
      assert Closed(nodes, w);
      PrefixInTree(nodes, subs, front, n);
      assert front[..n] == w[..n];
    }
  }

  /** What a trie in the heap stands for: a tree, and the paths that end a word. */
  datatype Shape = Shape(nodes: map<string, Trie>, subs: map<string, map<char, Trie>>, words: set<string>)
  {
    ghost predicate Valid()
      reads nodes.Values
    {
      && IsTree(nodes, subs) && words <= nodes.Keys
      && forall p :: p in nodes ==> p in subs && nodes[p].sub == subs[p] && (nodes[p].eof <==> p in words)
    }
  }

  /** The child of node p (at `path`) for ch, made if it is not there. */
  method Child(p: Trie, path: string, ch: char, ghost shape: Shape) returns (t: Trie, ghost shape': Shape)
    requires shape.Valid() && path in shape.nodes && shape.nodes[path] == p
    modifies p
    ensures shape'.Valid() && shape'.words == shape.words
    ensures path + [ch] in shape'.nodes && shape'.nodes[path + [ch]] == t
    ensures shape.nodes.Keys <= shape'.nodes.Keys
    ensures forall q :: q in shape'.nodes ==>
      if q in shape.nodes then shape'.nodes[q] == shape.nodes[q] else fresh(shape'.nodes[q])
  {
    hide IsTree;
    TreeChild(shape.nodes, shape.subs, path, ch);
    if ch in p.sub {
      t, shape' := p.sub[ch], shape;
    } else {
      t := new Trie();
      TreeGrows(shape.nodes, shape.subs, path, ch, t);
      p.sub := p.sub[ch := t];
      shape' := Shape(shape.nodes[path + [ch] := t],
                      shape.subs[path := shape.subs[path][ch := t]][path + [ch] := map[]], shape.words);
    }
  }

  /** `buildTrie(p, s, f)`: follow or create the path of s from f on and mark its end. */
  method InsertFrom(p: Trie, s: string, f: nat, ghost shape: Shape) returns (ghost shape': Shape)
    requires f <= |s| && shape.Valid() && s[..f] in shape.nodes && shape.nodes[s[..f]] == p
    modifies shape.nodes.Values
    ensures shape'.Valid() && shape'.words == shape.words + {s}
    ensures shape.nodes.Keys <= shape'.nodes.Keys
    ensures forall q :: q in shape'.nodes ==>
      if q in shape.nodes then shape'.nodes[q] == shape.nodes[q] else fresh(shape'.nodes[q])
    decreases |s| - f
  {
    hide IsTree;
    if f == |s| {
      assert s[..f] == s;
      TreeChild(shape.nodes, shape.subs, s, 'a');
      p.eof := true;
      shape' := shape.(words := shape.words + {s});
    } else {
      assert s[..f + 1] == s[..f] + [s[f]];
      var t;
      ghost var grown;
      t, grown := Child(p, s[..f], s[f], shape);
      shape' := InsertFrom(t, s, f + 1, grown);
    }
  }

  method NewTrie() returns (root: Trie, ghost shape: Shape)
    ensures fresh(root) && shape.Valid() && shape.words == {} && shape.nodes == map["" := root]
  {
    hide IsTree;
    root := new Trie();
    shape := Shape(map["" := root], map["" := map[]], {});
    LoneRoot(root);
  }

  /** `buildTrie(p, dict)` on a new root. */
  method BuildTrie(dict: set<string>) returns (root: Trie, ghost shape: Shape)
    ensures shape.Valid() && shape.words == dict && "" in shape.nodes && shape.nodes[""] == root
  {
    hide IsTree, Shape.Valid;
    root, shape := NewTrie();
    var rest := dict;
    while rest != {}
      invariant rest <= dict && shape.Valid() && shape.words == dict - rest
      invariant "" in shape.nodes && shape.nodes[""] == root
      invariant forall q :: q in shape.nodes ==> fresh(shape.nodes[q])
      decreases |rest|
    {
      ghost var some := Pick(rest);
      var w :| w in rest;
      rest := rest - {w};
      assert w[..0] == "";
      shape := InsertFrom(root, w, 0, shape);
    }
  }

  lemma LoneRoot(root: Trie)
    ensures IsTree(map["" := root], map["" := map[]])
  {
    var nodes := map["" := root];
    forall p: string, c | p in nodes ensures Follows(nodes, map["" := map[]], p, c) { assert p + [c] != ""; }
  }

  // ----------------------------------------------------------- the enumeration

  /** The word between the (k-1)-st and the k-th end. */
  function Piece(s: string, idx: seq<int>, k: int): string
    requires 0 <= k < |idx|
  {
    var x := if k == 0 then 0 else idx[k - 1];
    if 0 <= x <= idx[k] <= |s| then s[x..idx[k]] else ""
  }

  /** The first n words, separated by blanks. */
  ghost function Sentence(s: string, idx: seq<int>, n: nat): string
    requires n <= |idx|
  {
    if n == 0 then ""
    else if n == 1 then Piece(s, idx, 0)
    else Sentence(s, idx, n - 1) + " " + Piece(s, idx, n - 1)
  }

  /** The k-th of n words stands in xs k places further on than in s, with a blank after it
      unless it is the last. */
  ghost predicate SpacedAt(s: string, idx: seq<int>, n: nat, xs: string, k: nat)
    requires k < n <= |idx|
  {
    var start := if k == 0 then 0 else idx[k - 1];
    && 0 <= start < idx[k] <= |s| && idx[k] + k <= |xs| && xs[start + k..idx[k] + k] == s[start..idx[k]]
    && (k + 1 < n ==> idx[k] + k < |xs| && xs[idx[k] + k] == ' ')
  }

  /** xs is the first n words of s cut at idx, with blanks between them. */
  ghost predicate Spaced(s: string, idx: seq<int>, n: nat, xs: string)
    requires n <= |idx|
  {
    |xs| == (if n == 0 then 0 else idx[n - 1] + n - 1) && forall k: nat :: k < n ==> SpacedAt(s, idx, n, xs, k)
  }

  lemma SpacedEarlier(s: string, idx: seq<int>, n: nat, before: string, piece: string, k: nat)
    requires EndsAt(s, idx, |s|) && k < n < |idx| && SpacedAt(s, idx, n, before, k)
    requires |before| == idx[n - 1] + n - 1
    ensures SpacedAt(s, idx, n + 1, before + " " + piece, k)
  {
    var xs, start := before + " " + piece, if k == 0 then 0 else idx[k - 1];
    assert xs[start + k..idx[k] + k] == before[start + k..idx[k] + k];
    if k + 1 < n {
      assert xs[idx[k] + k] == before[idx[k] + k];
    } else {
      assert xs[|before|] == ' ';
    }
  }

  lemma SpacedLast(s: string, idx: seq<int>, n: nat, before: string)
    requires EndsAt(s, idx, |s|) && 1 <= n < |idx| && |before| == idx[n - 1] + n - 1
    ensures SpacedAt(s, idx, n + 1, before + " " + Piece(s, idx, n), n)
    ensures |before + " " + Piece(s, idx, n)| == idx[n] + n
  {
    var xs := before + " " + Piece(s, idx, n);
    assert xs[idx[n - 1] + n..idx[n] + n] == Piece(s, idx, n);
  }

  /** Where the letters of a sentence are. */
  lemma {:induction false} SentenceSpaced(s: string, idx: seq<int>, n: nat)
    requires n <= |idx| && EndsAt(s, idx, |s|)
    ensures Spaced(s, idx, n, Sentence(s, idx, n))
    decreases n
  {
    hide SpacedAt, EndsAt, Piece;
    if n == 1 {
      SpacedOne(s, idx);
    } else if n > 1 {
      var before := Sentence(s, idx, n - 1);
      SentenceSpaced(s, idx, n - 1);
      SpacedLast(s, idx, n - 1, before);
      forall k: nat | k < n ensures SpacedAt(s, idx, n, Sentence(s, idx, n), k) {
        if k < n - 1 { SpacedEarlier(s, idx, n - 1, before, Piece(s, idx, n - 1), k); }
      }
    }
  }

  lemma SpacedOne(s: string, idx: seq<int>)
    requires 1 <= |idx| && EndsAt(s, idx, |s|)
    ensures SpacedAt(s, idx, 1, Piece(s, idx, 0), 0) && |Piece(s, idx, 0)| == idx[0]
  {
  }

  /** A cut of s ends with s, and its ends increase. */
  lemma {:induction false} CutEnds(s: string, dict: set<string>, f: int, c: seq<int>)
    requires 0 <= f <= |s| && IsCut(s, dict, f, |s|, c)
    ensures c == [] ==> f == |s|
    ensures c != [] ==> c[|c| - 1] == |s| && EndsAt(s, c, |s|) && c[0] > f
    decreases |c|
  {
    if c != [] {
      CutEnds(s, dict, c[0], c[1..]);
      assert forall k :: 1 <= k < |c| ==> c[k] == c[1..][k - 1];
    }
  }

  ghost function Sentences(s: string, idx: seq<int>, cuts: seq<seq<int>>): (r: seq<string>)
    ensures |r| == |cuts|
  {
    seq(|cuts|, x requires 0 <= x < |cuts| => Sentence(s, idx + cuts[x], |idx + cuts[x]|))
  }

  /** Ends of words from the start of s up to f. */
  ghost predicate EndsAt(s: string, idx: seq<int>, f: int) {
    && (forall k :: 0 <= k < |idx| ==> 0 < idx[k] <= f <= |s|)
    && (forall k, l :: 0 <= k < l < |idx| ==> idx[k] < idx[l])
  }

  /** The loop that spells a cut out. */
  method Spell(s: string, idx: seq<int>) returns (xs: string)
    requires EndsAt(s, idx, |s|)
    ensures xs == Sentence(s, idx, |idx|) && Spaced(s, idx, |idx|, xs)
  {
    hide Spaced;
    SentenceSpaced(s, idx, |idx|);
    var x := 0;
    xs := "";
    for i := 0 to |idx|
      invariant x == (if i == 0 then 0 else idx[i - 1])
      invariant xs == Sentence(s, idx, i)
    {
      var y := idx[i];
      var t := s[x..y];
      if x != 0 {
        xs := xs + " ";
      }
      xs := xs + t;
      x := y;
    }
  }

  lemma SentencesPrepend(s: string, idx: seq<int>, e: int, cuts: seq<seq<int>>)
    ensures Sentences(s, idx, Prepend(e, cuts)) == Sentences(s, idx + [e], cuts)
  {
    hide Sentence;
    var r := Prepend(e, cuts);
    forall x | 0 <= x < |cuts| ensures Sentences(s, idx, r)[x] == Sentences(s, idx + [e], cuts)[x] {
      assert idx + ([e] + cuts[x]) == idx + [e] + cuts[x];
    }
  }

  lemma SentencesConcat(s: string, idx: seq<int>, a: seq<seq<int>>, b: seq<seq<int>>)
    ensures Sentences(s, idx, a + b) == Sentences(s, idx, a) + Sentences(s, idx, b)
  {
    hide Sentence;
  }

  lemma {:induction false} NoWordBeyond(s: string, dict: set<string>, f: int, i: int)
    requires 0 <= f <= i <= |s| && forall e :: i < e <= |s| ==> s[f..e] !in dict
    ensures CutsFrom(s, dict, f, i) == []
    decreases |s| - i
  {
    if i < |s| {
      assert s[f..i + 1] !in dict;
      NoWordBeyond(s, dict, f, i + 1);
    }
  }

  /** No path of the trie beyond s[f..i]: no word there either. */
  lemma TrieEnds(s: string, shape: Shape, f: int, i: int)
    requires IsTree(shape.nodes, shape.subs) && shape.words <= shape.nodes.Keys
    requires 0 <= f <= i < |s| && s[f..i + 1] !in shape.nodes
    ensures CutsFrom(s, shape.words, f, i) == []
  {
    forall e | i < e <= |s| ensures s[f..e] !in shape.words {
      assert s[f..e][..i + 1 - f] == s[f..i + 1];
      if s[f..e] in shape.nodes {
        PrefixInTree(shape.nodes, shape.subs, s[f..e], i + 1 - f);
        assert false;
      }
    }
    NoWordBeyond(s, shape.words, f, i);
  }

  /** What the loop of matchTrie adds at i. */
  lemma CutsStep(s: string, dict: set<string>, f: int, i: int, idx: seq<int>)
    requires 0 <= f <= i < |s|
    ensures Sentences(s, idx, CutsFrom(s, dict, f, i)) ==
            (if s[f..i + 1] in dict then Sentences(s, idx + [i + 1], Cuts(s, dict, i + 1)) else [])
            + Sentences(s, idx, CutsFrom(s, dict, f, i + 1))
  {
    hide Sentences, Prepend, Cuts, CutsFrom;
    CutsFromUnfold(s, dict, f, i);
    if s[f..i + 1] in dict {
      SentencesConcat(s, idx, Prepend(i + 1, Cuts(s, dict, i + 1)), CutsFrom(s, dict, f, i + 1));
      SentencesPrepend(s, idx, i + 1, Cuts(s, dict, i + 1));
    }
  }

  lemma CutsFromUnfold(s: string, dict: set<string>, f: int, i: int)
    requires 0 <= f <= i < |s|
    ensures CutsFrom(s, dict, f, i) ==
            if s[f..i + 1] in dict then Prepend(i + 1, Cuts(s, dict, i + 1)) + CutsFrom(s, dict, f, i + 1)
            else CutsFrom(s, dict, f, i + 1)
  {
    hide Prepend, Cuts;
  }

  lemma SentencesNone(s: string, idx: seq<int>)
    ensures Sentences(s, idx, []) == []
  {
  }

  lemma CutsStart(s: string, dict: set<string>, f: int, idx: seq<int>)
    requires 0 <= f <= |s|
    ensures Sentences(s, idx, Cuts(s, dict, f)) ==
            (if f == |s| then [Sentence(s, idx, |idx|)] else []) + Sentences(s, idx, CutsFrom(s, dict, f, f))
  {
    var here: seq<seq<int>> := if f == |s| then [[]] else [];
    SentencesConcat(s, idx, here, CutsFrom(s, dict, f, f));
    assert idx + [] == idx;
    assert Sentences(s, idx, here) == if f == |s| then [Sentence(s, idx, |idx|)] else [];
  }

  /** `matchTrie`: append one sentence for each cut of s[f..], in order; idx is as
      it was when the call returns. */
  method MatchTrie(p0: Trie, s: string, f: nat, idx0: seq<int>, vs0: seq<string>, ghost shape: Shape)
    returns (idx: seq<int>, vs: seq<string>)
    requires shape.Valid() && "" in shape.nodes && shape.nodes[""] == p0
    requires f <= |s| && EndsAt(s, idx0, f) && (f == 0 || (idx0 != [] && idx0[|idx0| - 1] == f))
    ensures idx == idx0
    ensures vs == vs0 + Sentences(s, idx0, Cuts(s, shape.words, f))
    decreases |s| - f
  {
    hide IsTree, Sentences, Cuts, CutsFrom, Sentence;
    idx, vs := idx0, vs0;
    ghost var words := shape.words;
    CutsStart(s, words, f, idx);
    if f == |s| {
      var xs := Spell(s, idx);
      vs := vs + [xs];
    }
    var p := p0;
    assert s[f..f] == "";
    ghost var all := vs0 + Sentences(s, idx0, Cuts(s, words, f));
    var i := f;
    while i < |s|
      invariant f <= i <= |s| && idx == idx0
      invariant s[f..i] in shape.nodes && shape.nodes[s[f..i]] == p
      invariant vs + Sentences(s, idx, CutsFrom(s, words, f, i)) == all
    {
      assert s[f..i + 1] == s[f..i] + [s[i]];
      TreeChild(shape.nodes, shape.subs, s[f..i], s[i]);
      if s[i] !in p.sub {
        TrieEnds(s, shape, f, i);
        SentencesNone(s, idx);
        assert vs == all;
        return;
      }
      var t := p.sub[s[i]];
      CutsStep(s, words, f, i, idx);
      if t.eof {
        idx := idx + [i + 1];
        idx, vs := MatchTrie(p0, s, i + 1, idx, vs, shape);
        idx := idx[..|idx| - 1];
      }
      p := t;
      i := i + 1;
    }
    NoWordBeyond(s, words, f, i);
    SentencesNone(s, idx);
  }

  /** `wordBreak`: one sentence for every way to cut s into non-empty dictionary
      words, each way exactly once and in order of the word ends. */
  method AllSentences(s: string, dict: set<string>) returns (vs: seq<string>)
    ensures Distinct(Cuts(s, dict, 0)) && forall c :: c in Cuts(s, dict, 0) <==> IsCut(s, dict, 0, |s|, c)
    ensures |vs| == |Cuts(s, dict, 0)|
    ensures forall x :: 0 <= x < |vs| ==>
      var c := Cuts(s, dict, 0)[x]; Spaced(s, c, |c|, vs[x]) && |vs[x]| == |s| + if c == [] then 0 else |c| - 1
  {
    hide Cuts, IsCut, Sentence, MemoAgrees, Shape.Valid, Breaks, Spaced;
    ghost var cuts := Cuts(s, dict, 0);
    forall c ensures c in cuts <==> IsCut(s, dict, 0, |s|, c) { CutsAreCuts(s, dict, 0, c); }
    CutsDistinct(s, dict, 0);
    var possible := true;
    if s != "" {
      var memo := new Memo(|s|);
      NothingKnown(s, dict, memo.dp[..]);
      possible := memo.Wb(s, 0, |s| - 1, dict);
      BreaksIffCuts(s, dict);
    }
    vs := [];
    if possible {
      var root;
      ghost var shape;
      root, shape := BuildTrie(dict);
      var idx;
      idx, vs := MatchTrie(root, s, 0, [], vs, shape);
      forall x | 0 <= x < |vs|
        ensures var c := cuts[x]; Spaced(s, c, |c|, vs[x]) && |vs[x]| == |s| + if c == [] then 0 else |c| - 1
      {
        assert [] + cuts[x] == cuts[x] && cuts[x] in cuts;
        CutSpaced(s, dict, cuts[x]);
      }
    }
  }

  lemma CutSpaced(s: string, dict: set<string>, c: seq<int>)
    requires IsCut(s, dict, 0, |s|, c)
    ensures Spaced(s, c, |c|, Sentence(s, c, |c|))
    ensures |Sentence(s, c, |c|)| == |s| + if c == [] then 0 else |c| - 1
  {
    CutEnds(s, dict, 0, c);
    SentenceSpaced(s, c, |c|);
  }

  lemma NothingKnown(s: string, dict: set<string>, d: seq<int>)
    requires |d| == |s| * |s| && forall x :: 0 <= x < |d| ==> d[x] == -1
    ensures MemoAgrees(s, dict, d)
  {
    forall f, e | 0 <= f <= e < |s| ensures Cell(d, |s|, f, e) == -1 { IndexInRange(|s|, f, e); }
  }
}
