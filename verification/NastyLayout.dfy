/** The text nasty prints, line by line: one line for every leaf, described by the leaf's index
    path and by nothing the printer computes. */
module NastyLayout {
  import opened Octets
  import opened NastyLexer
  import opened NastyParser
  import opened NastyPrinter
  import opened ListFacts

  // ------------------------------------------------------------------- leaves

  /** The indices lead from a to a leaf: into its list, into the list there, and so on. */
  ghost predicate AtLeaf(a: Atom, q: seq<int>)
    decreases |q|
  {
    match a
    case Leaf(_, _) => q == []
    case Ex(atoms) => q != [] && 0 <= q[0] < |atoms| && AtLeaf(atoms[q[0]], q[1..])
  }

  ghost predicate LeafOf(e: Expr, p: seq<int>) { p != [] && 0 <= p[0] < |e| && AtLeaf(e[p[0]], p[1..]) }

  ghost function TextAt(a: Atom, q: seq<int>): seq<byte>
    requires AtLeaf(a, q)
    decreases |q|
  {
    match a
    case Leaf(_, text) => text
    case Ex(atoms) => TextAt(atoms[q[0]], q[1..])
  }

  /** The leaf is the first of a. */
  ghost predicate FirstLeaf(q: seq<int>) { forall m :: 0 <= m < |q| ==> q[m] == 0 }

  /** The leaf is the last of a. */
  ghost predicate LastLeaf(a: Atom, q: seq<int>)
    requires AtLeaf(a, q)
    decreases |q|
  {
    match a
    case Leaf(_, _) => true
    case Ex(atoms) => q[0] == |atoms| - 1 && LastLeaf(atoms[q[0]], q[1..])
  }

  /** How many of the lists around the leaf it is the first leaf of. */
  ghost function Opens(q: seq<int>): nat {
    if q == [] then 0 else Opens(q[1..]) + if FirstLeaf(q) then 1 else 0
  }

  /** How many of the lists around the leaf it is the last leaf of. */
  ghost function Closes(a: Atom, q: seq<int>): nat
    requires AtLeaf(a, q)
    decreases |q|
  {
    match a
    case Leaf(_, _) => 0
    case Ex(atoms) => Closes(atoms[q[0]], q[1..]) + if LastLeaf(a, q) then 1 else 0
  }

  // -------------------------------------------------------------------- lines

  ghost function Copies(n: int, c: byte): seq<byte> { if n <= 0 then [] else seq(n, _ => c) }

  /** The line of a leaf of a, where a is `indent` lists deep and `owed` lists begin at a. */
  ghost function LineAt(a: Atom, q: seq<int>, indent: int, owed: int): seq<byte>
    requires AtLeaf(a, q)
  {
    var depth, opens := indent + |q|, Opens(q) + if FirstLeaf(q) then owed else 0;
    Copies(if opens == 0 then depth else depth - 1, SPACE) + Copies(opens, LPAREN)
    + TextAt(a, q) + Copies(Closes(a, q), RPAREN)
  }

  /** The line of the leaf at p: blanks for the lists around it, one less where a list begins;
      the lists that begin; its text; the lists that end. */
  ghost function Line(e: Expr, p: seq<int>): seq<byte>
    requires LeafOf(e, p)
  {
    LineAt(e[p[0]], p[1..], 0, 0)
  }

  ghost function Join(lines: seq<seq<byte>>): seq<byte> {
    if lines == [] then [] else if |lines| == 1 then lines[0] else lines[0] + [NEWLINE] + Join(lines[1..])
  }

  // ------------------------------------------------------- the leaves in order

  ghost function AtomPaths(a: Atom): seq<seq<int>>
    decreases a, 0
  {
    match a
    case Leaf(_, _) => [[]]
    case Ex(atoms) => PathsFrom(atoms, 0)
  }

  /** The leaves of e[k..], with their indices in e. */
  ghost function PathsFrom(e: Expr, k: int): seq<seq<int>>
    requires 0 <= k <= |e|
    decreases e, |e| - k
  {
    if k == |e| then [] else Prepend(k, AtomPaths(e[k])) + PathsFrom(e, k + 1)
  }

  ghost function Paths(e: Expr): seq<seq<int>> { PathsFrom(e, 0) }

  lemma {:induction false} AtomPathsAreLeaves(a: Atom, q: seq<int>)
    ensures q in AtomPaths(a) <==> AtLeaf(a, q)
    ensures Ascending(AtomPaths(a))
    decreases a, 0
  {
    if a.Ex? { PathsFromAreLeaves(a.atoms, 0, q); }
  }

  lemma {:induction false} PathsFromAreLeaves(e: Expr, k: int, p: seq<int>)
    requires 0 <= k <= |e|
    ensures p in PathsFrom(e, k) <==> LeafOf(e, p) && p[0] >= k
    ensures Ascending(PathsFrom(e, k))
    decreases e, |e| - k
  {
    if k < |e| {
      var front, back := Prepend(k, AtomPaths(e[k])), PathsFrom(e, k + 1);
      InPrepend(k, AtomPaths(e[k]), p);
      AtomPathsAreLeaves(e[k], if p == [] then [] else p[1..]);
      PathsFromAreLeaves(e, k + 1, p);
      forall x, y | 0 <= x < y < |front + back| ensures Earlier((front + back)[x], (front + back)[y]) {
        if y < |front| {
          assert front[x][1..] == AtomPaths(e[k])[x] && front[y][1..] == AtomPaths(e[k])[y];
        } else if x < |front| {
          PathsFromAreLeaves(e, k + 1, back[y - |front|]);
        }
      }
    }
  }

  /** Paths lists every leaf of e once, from left to right. */
  lemma PathsAreLeaves(e: Expr, p: seq<int>)
    ensures p in Paths(e) <==> LeafOf(e, p)
    ensures Ascending(Paths(e))
  {
    PathsFromAreLeaves(e, 0, p);
  }

  // --------------------------------------------------------- the printer's lines

  ghost function AtomLine(a: Atom, q: seq<int>, indent: int, owed: int): seq<byte> {
    if AtLeaf(a, q) then LineAt(a, q, indent, owed) else []
  }

  ghost function ExprLine(e: Expr, p: seq<int>, indent: int, owed: int): seq<byte> {
    if LeafOf(e, p) then LineAt(e[p[0]], p[1..], indent, if p[0] == 0 then owed else 0) else []
  }

  ghost function AtomLines(a: Atom, indent: int, owed: int): (r: seq<seq<byte>>)
    ensures |r| == |AtomPaths(a)|
  {
    seq(|AtomPaths(a)|, x requires 0 <= x < |AtomPaths(a)| => AtomLine(a, AtomPaths(a)[x], indent, owed))
  }

  ghost function LinesFrom(e: Expr, k: int, indent: int, owed: int): (r: seq<seq<byte>>)
    requires 0 <= k <= |e|
    ensures |r| == |PathsFrom(e, k)|
  {
    seq(|PathsFrom(e, k)|, x requires 0 <= x < |PathsFrom(e, k)| => ExprLine(e, PathsFrom(e, k)[x], indent, owed))
  }

  /** The lines of the whole text. */
  ghost function Lines(e: Expr): seq<seq<byte>> { LinesFrom(e, 0, 0, 0) }

  lemma LinesSplit(e: Expr, k: int, indent: int, owed: int)
    requires 0 <= k < |e|
    ensures LinesFrom(e, k, indent, owed) ==
            AtomLines(e[k], indent, if k == 0 then owed else 0) + LinesFrom(e, k + 1, indent, owed)
  {
    hide LineAt;
    var ps := AtomPaths(e[k]);
    forall x | 0 <= x < |ps|
      ensures ExprLine(e, PathsFrom(e, k)[x], indent, owed) == AtomLine(e[k], ps[x], indent, if k == 0 then owed else 0)
    {
      var p := PathsFrom(e, k)[x];
      assert p == Prepend(k, ps)[x] == [k] + ps[x];
      assert p[0] == k && p[1..] == ps[x];
    }
  }

  /** Only the last leaf is the last leaf. */
  lemma {:induction false} LastAtomPath(a: Atom, x: int)
    requires ProductiveAtom(a)
    ensures AtomPaths(a) != []
    ensures 0 <= x < |AtomPaths(a)| ==>
      AtLeaf(a, AtomPaths(a)[x]) && (LastLeaf(a, AtomPaths(a)[x]) <==> x == |AtomPaths(a)| - 1)
    decreases a, 0
  {
    if a.Ex? { LastPath(a.atoms, 0, x); }
  }

  lemma {:induction false} LastPath(e: Expr, k: int, x: int)
    requires Productive(e) && 0 <= k < |e|
    ensures PathsFrom(e, k) != []
    ensures 0 <= x < |PathsFrom(e, k)| ==>
      var p := PathsFrom(e, k)[x];
      LeafOf(e, p) && (p[0] == |e| - 1 && LastLeaf(e[p[0]], p[1..]) <==> x == |PathsFrom(e, k)| - 1)
    decreases e, |e| - k
  {
    hide AtomPaths, AtLeaf, LastLeaf, ProductiveAtom;
    var ps := AtomPaths(e[k]);
    LastAtomPath(e[k], x);
    if k + 1 < |e| { LastPath(e, k + 1, x - |ps|); }
    if 0 <= x < |ps| {
      assert PathsFrom(e, k)[x] == Prepend(k, ps)[x] == [k] + ps[x];
      assert ([k] + ps[x])[1..] == ps[x];
    } else if |ps| <= x < |PathsFrom(e, k)| {
      assert PathsFrom(e, k)[x] == PathsFrom(e, k + 1)[x - |ps|];
    }
  }

  lemma {:induction false} JoinConcat(a: seq<seq<byte>>, b: seq<seq<byte>>)
    requires a != [] && b != []
    ensures Join(a + b) == Join(a) + [NEWLINE] + Join(b)
    decreases |a|
  {
    if |a| == 1 {
      assert (a + b)[1..] == b;
    } else {
      assert (a + b)[1..] == a[1..] + b;
      JoinConcat(a[1..], b);
    }
  }

  lemma {:induction false} JoinLast(a: seq<seq<byte>>, b: seq<seq<byte>>, c: seq<byte>)
    requires a != [] && |b| == |a| && b == a[|a| - 1 := a[|a| - 1] + c]
    ensures Join(b) == Join(a) + c
    decreases |a|
  {
    if |a| > 1 {
      JoinLast(a[1..], b[1..], c);
    }
  }

  lemma {:induction false} RepeatIsCopies(n: int, c: byte)
    ensures Repeat(n, c) == Copies(n, c)
    decreases n
  {
    if n > 0 { RepeatIsCopies(n - 1, c); }
  }

  /** A list's lines are those of its atoms, one list deeper and one more begun, with a closing
      parenthesis at the end. */
  lemma ListLines(atoms: Expr, indent: int, owed: int)
    requires Productive(atoms)
    ensures var inner, outer := LinesFrom(atoms, 0, indent + 1, owed + 1), AtomLines(Ex(atoms), indent, owed);
            inner != [] && outer == inner[|inner| - 1 := inner[|inner| - 1] + [RPAREN]]
  {
    hide AtomLine, ExprLine, LastLeaf, AtLeaf, PathsFrom, LeafOf;
    var ps := PathsFrom(atoms, 0);
    var inner, outer := LinesFrom(atoms, 0, indent + 1, owed + 1), AtomLines(Ex(atoms), indent, owed);
    LastPath(atoms, 0, 0);
    assert AtomPaths(Ex(atoms)) == ps;
    forall x | 0 <= x < |ps| ensures outer[x] == if x == |ps| - 1 then inner[x] + [RPAREN] else inner[x] {
      assert inner[x] + [] == inner[x];
      LastPath(atoms, 0, x);
      ListLine(atoms, ps[x], indent, owed);
      Inside(atoms, ps[x]);
    }
  }

  lemma ListLine(atoms: Expr, p: seq<int>, indent: int, owed: int)
    requires LeafOf(atoms, p)
    ensures AtomLine(Ex(atoms), p, indent, owed) ==
            ExprLine(atoms, p, indent + 1, owed + 1) + if LastLeaf(Ex(atoms), p) then [RPAREN] else []
  {
    hide AtLeaf, LastLeaf, TextAt, Copies, FirstLeaf, Opens, Closes;
    Inside(atoms, p);
    FirstOfFirst(p);
    CopiesMore(Closes(atoms[p[0]], p[1..]), RPAREN);
  }

  lemma Inside(atoms: Expr, p: seq<int>)
    requires LeafOf(atoms, p)
    ensures p != [] && 0 <= p[0] < |atoms| && AtLeaf(atoms[p[0]], p[1..])
    ensures AtLeaf(Ex(atoms), p) && TextAt(Ex(atoms), p) == TextAt(atoms[p[0]], p[1..])
    ensures LastLeaf(Ex(atoms), p) <==> p[0] == |atoms| - 1 && LastLeaf(atoms[p[0]], p[1..])
    ensures Closes(Ex(atoms), p) == Closes(atoms[p[0]], p[1..]) + if LastLeaf(Ex(atoms), p) then 1 else 0
  {
  }

  lemma FirstOfFirst(p: seq<int>)
    requires p != []
    ensures FirstLeaf(p) <==> p[0] == 0 && FirstLeaf(p[1..])
    ensures Opens(p) == Opens(p[1..]) + if FirstLeaf(p) then 1 else 0
  {
    if p[0] == 0 && FirstLeaf(p[1..]) {
      forall m | 0 <= m < |p| ensures p[m] == 0 { if m > 0 { assert p[m] == p[1..][m - 1]; } }
    }
  }

  lemma CopiesMore(n: nat, c: byte)
    ensures Copies(n + 1, c) == Copies(n, c) + [c]
  {
  }

  lemma LeafLayout(a: Atom, indent: int, lbrace: int)
    requires a.Leaf? && lbrace >= 0
    ensures WriteAtom(a, indent, lbrace) == (Join(AtomLines(a, indent, lbrace)), 0)
  {
    var blanks := if lbrace != 0 then indent - 1 else indent;
    RepeatIsCopies(blanks, SPACE);
    RepeatIsCopies(lbrace, LPAREN);
    assert LineAt(a, [], indent, lbrace) == Copies(blanks, SPACE) + Copies(lbrace, LPAREN) + a.text;
    assert AtomLines(a, indent, lbrace) == [LineAt(a, [], indent, lbrace)];
  }

  lemma {:induction false} AtomLayout(a: Atom, indent: int, lbrace: int)
    requires ProductiveAtom(a) && lbrace >= 0
    ensures WriteAtom(a, indent, lbrace) == (Join(AtomLines(a, indent, lbrace)), 0)
    decreases a, 0
  {
    match a
    case Leaf(_, text) => LeafLayout(a, indent, lbrace);
    case Ex(atoms) =>
      assert atoms[0..] == atoms;
      ExprLayout(atoms, 0, indent + 1, lbrace + 1);
      ListLines(atoms, indent, lbrace);
      JoinLast(LinesFrom(atoms, 0, indent + 1, lbrace + 1), AtomLines(a, indent, lbrace), [RPAREN]);
  }

  lemma {:induction false} ExprLayout(e: Expr, k: int, indent: int, lbrace: int)
    requires Productive(e) && lbrace >= 0 && 0 <= k < |e|
    ensures WriteAtoms(e[k..], indent, if k == 0 then lbrace else 0) == (Join(LinesFrom(e, k, indent, lbrace)), 0)
    decreases e, |e| - k
  {
    hide AtomLines, LinesFrom, WriteAtom;
    var owed := if k == 0 then lbrace else 0;
    AtomLayout(e[k], indent, owed);
    LinesSplit(e, k, indent, lbrace);
    LastAtomPath(e[k], 0);
    if k + 1 < |e| {
      assert e[k..][1..] == e[k + 1..];
      ExprLayout(e, k + 1, indent, lbrace);
      LastPath(e, k + 1, 0);
      JoinConcat(AtomLines(e[k], indent, owed), LinesFrom(e, k + 1, indent, lbrace));
    } else {
      assert AtomLines(e[k], indent, owed) + [] == AtomLines(e[k], indent, owed);
    }
  }

  /** The printed text of every tree without empty lists: a line for each leaf, from left to
      right, joined by newlines. */
  lemma PrintLayout(e: Expr)
    requires Productive(e)
    ensures Print(e) == Join(Lines(e)) && |Lines(e)| == |Paths(e)|
    ensures forall x :: 0 <= x < |Lines(e)| ==> LeafOf(e, Paths(e)[x]) && Lines(e)[x] == Line(e, Paths(e)[x])
  {
    hide LineAt;
    assert e[0..] == e;
    ExprLayout(e, 0, 0, 0);
    forall x | 0 <= x < |Lines(e)| ensures LeafOf(e, Paths(e)[x]) && Lines(e)[x] == Line(e, Paths(e)[x]) {
      LastPath(e, 0, x);
    }
  }
}
