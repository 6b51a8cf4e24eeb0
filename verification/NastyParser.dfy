/** The LALR(1) parser of nasty: bison's tables and shift/reduce driver, against
    the grammar
      program: expr     expr: expr atom | atom     atom: ( expr ) | leaf
    The parser stack is unbounded (no YYMAXDEPTH) and a syntax error is rejection. */
module NastyParser {
  import opened Octets
  import opened NastyLexer

  datatype Option<T> = None | Some(value: T)

  datatype Atom = Leaf(kind: Kind, text: seq<byte>) | Ex(atoms: seq<Atom>)

  type Expr = seq<Atom>

  // ------------------------------------------------------------- the grammar

  /** The token string a parse tree derives; `Yield` follows the left-recursive
      rule expr: expr atom. */
  function Yield(e: Expr): seq<Token>
    decreases e
  {
    if e == [] then [] else Yield(e[..|e| - 1]) + YieldAtom(e[|e| - 1])
  }

  function YieldAtom(a: Atom): seq<Token>
    decreases a
  {
    match a
    case Leaf(kind, text) => [LeafToken(kind, text)]
    case Ex(atoms) => [LBrace] + Yield(atoms) + [RBrace]
  }

  /** The grammar has no empty expr: no `()` anywhere. */
  predicate Productive(e: Expr)
    decreases e
  {
    e != [] && forall i :: 0 <= i < |e| ==> ProductiveAtom(e[i])
  }

  predicate ProductiveAtom(a: Atom)
    decreases a
  {
    a.Leaf? || Productive(a.atoms)
  }

  /** `e` is a parse tree of the whole token string. */
  predicate Derives(e: Expr, toks: seq<Token>) { Productive(e) && Yield(e) == toks }

  // ------------------------------------------------------------- the tables

  const YYFINAL := 10
  const YYLAST := 14
  const YYNTOKENS := 9
  const YYPACT_NINF := -4

  const YYDEFACT: seq<int> := [0, 0, 6, 7, 8, 9, 0, 2, 4, 0, 1, 3, 5]
  const YYDEFGOTO: seq<int> := [-1, 6, 7, 8]
  const YYPACT: seq<int> := [3, 3, -4, -4, -4, -4, 7, 3, -4, -3, -4, -4, -4]
  const YYPGOTO: seq<int> := [-4, -4, 12, 5]
  const YYTABLE: seq<int> := [1, 12, 2, 3, 4, 5, 1, 10, 2, 3, 4, 5, 11, 9, 11]
  const YYCHECK: seq<int> := [3, 4, 5, 6, 7, 8, 3, 0, 5, 6, 7, 8, 7, 1, 9]

  /** `yyr1` and `yyr2`: the symbol a rule derives and the length of its right side. */
  function YyR1(rule: int): int
    requires 0 <= rule <= 9
  {
    match rule case 0 => 0 case 1 => 9 case 2 => 10 case 3 => 11 case 4 => 11 case _ => 12
  }

  function YyR2(rule: int): int
    requires 0 <= rule <= 9
  {
    match rule case 0 => 0 case 1 => 2 case 3 => 2 case 5 => 3 case _ => 1
  }

  /** Internal symbol number of a token (`yytranslate`). */
  function Terminal(t: Token): (n: int)
    ensures 3 <= n <= 8
  {
    match t
    case LBrace => 3
    case RBrace => 4
    case LeafToken(kind, _) => LeafSymbol(kind)
  }

  function LeafSymbol(kind: Kind): int {
    match kind case ID => 5 case DBL => 6 case INT => 7 case SR => 8
  }

  datatype Action = Shift(state: int) | Reduce(rule: int) | Error

  /** `yybackup` and `yydefault`. */
  function ActionOf(state: int, tok: int): Action
    requires 0 <= state <= 12 && 0 <= tok <= 8
  {
    var n := YYPACT[state];
    if n != YYPACT_NINF && 0 <= n + tok <= YYLAST && YYCHECK[n + tok] == tok then
      Shift(YYTABLE[n + tok])
    else if YYDEFACT[state] == 0 then Error
    else Reduce(YYDEFACT[state])
  }

  /** The state entered after a reduction to symbol `lhs` uncovers `state`. */
  function GotoOf(state: int, lhs: int): int
    requires 0 <= state <= 12 && 9 <= lhs <= 12
  {
    var n := YYPGOTO[lhs - YYNTOKENS] + state;
    if 0 <= n <= YYLAST && YYCHECK[n] == state then YYTABLE[n] else YYDEFGOTO[lhs - YYNTOKENS]
  }

  function LeafState(kind: Kind): int {
    match kind case ID => 2 case DBL => 3 case INT => 4 case SR => 5
  }

  /** What the tables say wherever the driver can be. */
  lemma ActionTable(tok: int)
    requires tok == 0 || 3 <= tok <= 8
    ensures forall state | state in {0, 1} ::
      ActionOf(state, tok) == if tok == 3 then Shift(1) else if tok >= 5 then Shift(tok - 3) else Error
    ensures ActionOf(7, tok) == if tok == 3 then Shift(1) else if tok >= 5 then Shift(tok - 3) else Reduce(2)
    ensures ActionOf(9, tok) == if tok == 0 then Error else if tok == 3 then Shift(1)
                                else if tok == 4 then Shift(12) else Shift(tok - 3)
    ensures forall state | 2 <= state <= 5 :: ActionOf(state, tok) == Reduce(state + 4)
    ensures ActionOf(8, tok) == Reduce(4) && ActionOf(11, tok) == Reduce(3) && ActionOf(12, tok) == Reduce(5)
    ensures ActionOf(6, tok) == if tok == 0 then Shift(YYFINAL) else Error
  {
  }

  lemma GotoTable()
    ensures GotoOf(0, 10) == 6 && GotoOf(0, 11) == 7 && GotoOf(1, 11) == 9
    ensures GotoOf(0, 12) == 8 && GotoOf(1, 12) == 8 && GotoOf(7, 12) == 11 && GotoOf(9, 12) == 11
  {
  }

  // ------------------------------------ a reading of the tokens, without tables

  /** `frames[0]` is what has been read outside any open parenthesis, `frames[i]`
      what has been read inside the i-th; the last frame is growing. */
  function Append(frames: seq<Expr>, a: Atom): seq<Expr>
    requires frames != []
  {
    frames[..|frames| - 1] + [frames[|frames| - 1] + [a]]
  }

  function Run(frames: seq<Expr>, toks: seq<Token>): Option<Expr>
    requires frames != []
    decreases |toks|
  {
    var top := frames[|frames| - 1];
    if toks == [] then
      if |frames| == 1 && top != [] then Some(top) else None
    else
      match toks[0]
      case LBrace => Run(frames + [[]], toks[1..])
      case RBrace =>
        if |frames| >= 2 && top != [] then Run(Append(frames[..|frames| - 1], Ex(top)), toks[1..])
        else None
      case LeafToken(kind, text) => Run(Append(frames, Leaf(kind, text)), toks[1..])
  }

  /** Highest number of unclosed parentheses, `open` of them before `toks`. */
  function Nesting(toks: seq<Token>, open: int): (n: int)
    ensures n >= open
    decreases |toks|
  {
    if toks == [] then open
    else
      var rest := Nesting(toks[1..], match toks[0] case LBrace => open + 1
                                                   case RBrace => open - 1
                                                   case _ => open);
      if rest > open then rest else open
  }

  /** Opening less closing parentheses. */
  function Unclosed(toks: seq<Token>): int {
    multiset(toks)[LBrace] as int - multiset(toks)[RBrace] as int
  }

  /** Nesting is the largest number of unclosed parentheses after any of the tokens. */
  lemma {:induction false} NestingIsDepth(toks: seq<Token>, open: int)
    ensures forall k :: 0 <= k <= |toks| ==> open + Unclosed(toks[..k]) <= Nesting(toks, open)
    ensures exists k :: 0 <= k <= |toks| && open + Unclosed(toks[..k]) == Nesting(toks, open)
    decreases |toks|
  {
    assert toks[..0] == [] && Unclosed([]) == 0;
    if toks != [] {
      var rest := toks[1..];
      var open' := match toks[0] case LBrace => open + 1 case RBrace => open - 1 case _ => open;
      NestingIsDepth(rest, open');
      forall k | 1 <= k <= |toks| ensures open + Unclosed(toks[..k]) == open' + Unclosed(rest[..k - 1]) {
        assert toks[..k] == [toks[0]] + rest[..k - 1];
      }
      var k :| 0 <= k <= |rest| && open' + Unclosed(rest[..k]) == Nesting(rest, open');
      assert open + Unclosed(toks[..k + 1]) == open' + Unclosed(rest[..k + 1 - 1]);
      if Nesting(toks, open) != open { assert open + Unclosed(toks[..k + 1]) == Nesting(toks, open); }
    }
  }

  // ---------------------------------------------- the reading is the grammar

  predicate ProductiveAtoms(e: Expr) { forall i :: 0 <= i < |e| ==> ProductiveAtom(e[i]) }

  predicate ProductiveFrames(frames: seq<Expr>) {
    forall i :: 0 <= i < |frames| ==> ProductiveAtoms(frames[i])
  }

  lemma {:induction false} RunReadsAtom(frames: seq<Expr>, a: Atom, rest: seq<Token>)
    requires frames != [] && ProductiveAtom(a)
    ensures Run(frames, YieldAtom(a) + rest) == Run(Append(frames, a), rest)
    decreases a
  {
    var toks := YieldAtom(a) + rest;
    match a
    case Leaf(kind, text) =>
      assert toks[1..] == rest;
    case Ex(atoms) =>
      var inner := frames + [[]];
      assert toks[1..] == Yield(atoms) + ([RBrace] + rest);
      RunReadsExpr(inner, atoms, [RBrace] + rest);
      var empty: Expr := inner[|frames|];
      assert inner[..|frames|] == frames && empty + atoms == atoms;
      assert ([RBrace] + rest)[1..] == rest;
      assert (frames + [atoms])[..|frames|] == frames;
  }

  lemma {:induction false} RunReadsExpr(frames: seq<Expr>, e: Expr, rest: seq<Token>)
    requires frames != [] && ProductiveAtoms(e)
    ensures Run(frames, Yield(e) + rest) == Run(frames[..|frames| - 1] + [frames[|frames| - 1] + e], rest)
    decreases e
  {
    var front, top := frames[..|frames| - 1], frames[|frames| - 1];
    if e == [] {
      assert Yield(e) + rest == rest && top + e == top;
      assert front + [top] == frames;
    } else {
      var n := |e| - 1;
      var grown := front + [top + e[..n]];
      assert Yield(e) + rest == Yield(e[..n]) + (YieldAtom(e[n]) + rest);
      RunReadsExpr(frames, e[..n], YieldAtom(e[n]) + rest);
      RunReadsAtom(grown, e[n], rest);
      assert (top + e[..n]) + [e[n]] == top + e;
      assert Append(grown, e[n]) == front + [top + e];
    }
  }

  /** The tokens that the open frames stand for. */
  function YieldFrames(frames: seq<Expr>): seq<Token>
    requires frames != []
  {
    var n := |frames| - 1;
    if n == 0 then Yield(frames[0]) else YieldFrames(frames[..n]) + [LBrace] + Yield(frames[n])
  }

  lemma FramesAppend(frames: seq<Expr>, a: Atom)
    requires frames != []
    ensures ProductiveFrames(frames) && ProductiveAtom(a) ==> ProductiveFrames(Append(frames, a))
    ensures YieldFrames(Append(frames, a)) == YieldFrames(frames) + YieldAtom(a)
  {
    var n := |frames| - 1;
    var grown := frames[n] + [a];
    assert grown[..|grown| - 1] == frames[n];
    assert Append(frames, a)[..n] == frames[..n];
  }

  lemma FramesOpen(frames: seq<Expr>)
    requires frames != [] && ProductiveFrames(frames)
    ensures ProductiveFrames(frames + [[]])
    ensures YieldFrames(frames + [[]]) == YieldFrames(frames) + [LBrace]
  {
    var n := |frames|;
    var wider: seq<Expr> := frames + [[]];
    assert ProductiveAtoms(wider[n]) && wider[..n] == frames;
  }

  lemma FramesClose(frames: seq<Expr>)
    requires |frames| >= 2 && ProductiveFrames(frames) && frames[|frames| - 1] != []
    ensures var closed := Append(frames[..|frames| - 1], Ex(frames[|frames| - 1]));
            ProductiveFrames(closed) && YieldFrames(closed) == YieldFrames(frames) + [RBrace]
  {
    var n := |frames| - 1;
    assert Productive(frames[n]);
    FramesAppend(frames[..n], Ex(frames[n]));
  }

  lemma {:induction false} RunIsDerivation(frames: seq<Expr>, toks: seq<Token>)
    requires frames != [] && ProductiveFrames(frames)
    ensures Run(frames, toks).Some? ==> Derives(Run(frames, toks).value, YieldFrames(frames) + toks)
    decreases |toks|
  {
    var n := |frames| - 1;
    if toks == [] {
      assert YieldFrames(frames) + toks == YieldFrames(frames);
    } else {
      hide YieldFrames, ProductiveFrames, Derives;
      assert YieldFrames(frames) + toks == YieldFrames(frames) + [toks[0]] + toks[1..];
      match toks[0]
      case LBrace =>
        FramesOpen(frames);
        RunIsDerivation(frames + [[]], toks[1..]);
      case RBrace =>
        if n >= 1 && frames[n] != [] {
          FramesClose(frames);
          RunIsDerivation(Append(frames[..n], Ex(frames[n])), toks[1..]);
        }
      case LeafToken(kind, text) =>
        FramesAppend(frames, Leaf(kind, text));
        RunIsDerivation(Append(frames, Leaf(kind, text)), toks[1..]);
    }
  }

  /** What the parser answers for a token string. */
  function ParseTokens(toks: seq<Token>): Option<Expr> { Run([[]], toks) }

  /** A tree is delivered exactly when the grammar derives the tokens from it,
      so a token string has at most one parse tree. */
  lemma ParseIsGrammar(e: Expr, toks: seq<Token>)
    ensures ParseTokens(toks) == Some(e) <==> Derives(e, toks)
  {
    var start: seq<Expr> := [[]];
    assert ProductiveAtoms(start[0]);
    RunIsDerivation(start, toks);
    assert YieldFrames(start) + toks == toks;
    if Derives(e, toks) {
      RunReadsExpr(start, e, []);
      assert Yield(e) + [] == toks && start[0] + e == e;
      assert start[..0] + [e] == [e];
    }
  }

  // -------------------------------------------------------------- the driver

  datatype Value = NoValue | AtomValue(atom: Atom) | ExprValue(expr: Expr)

  function TopState(frames: seq<Expr>): int
    requires frames != []
  {
    if frames[|frames| - 1] == [] then if |frames| == 1 then 0 else 1
    else if |frames| == 1 then 7 else 9
  }

  /** The state stack between tokens, bottom first. */
  function States(frames: seq<Expr>): (r: seq<int>)
    requires frames != []
    ensures 1 <= |r| <= 2 * |frames| && r[|r| - 1] == TopState(frames)
    decreases |frames|, 1
  {
    var n := |frames| - 1;
    Below(frames[..n]) + (if frames[n] == [] then [] else [TopState(frames)])
  }

  /** The states under the expression being read, `outer` being the frames around it. */
  function Below(outer: seq<Expr>): (r: seq<int>)
    ensures 1 <= |r| <= 2 * |outer| + 1 && r[|r| - 1] == if outer == [] then 0 else 1
    decreases |outer| + 1, 0
  {
    if outer == [] then [0] else States(outer) + [1]
  }

  /** The value stack between tokens. */
  function Values(frames: seq<Expr>): (r: seq<Value>)
    requires frames != []
    ensures |r| == |States(frames)| - 1
    decreases |frames|, 1
  {
    var n := |frames| - 1;
    ValuesBelow(frames[..n]) + (if frames[n] == [] then [] else [ExprValue(frames[n])])
  }

  function ValuesBelow(outer: seq<Expr>): (r: seq<Value>)
    ensures |r| == |Below(outer)| - 1
    decreases |outer| + 1, 0
  {
    if outer == [] then [] else Values(outer) + [NoValue]
  }

  lemma StacksAppend(frames: seq<Expr>, a: Atom)
    requires frames != []
    ensures var n := |frames| - 1; var grown := Append(frames, a);
            States(grown) == Below(frames[..n]) + [if n == 0 then 7 else 9]
            && Values(grown) == ValuesBelow(frames[..n]) + [ExprValue(frames[n] + [a])]
  {
    assert Append(frames, a)[..|frames| - 1] == frames[..|frames| - 1];
  }

  lemma StacksOpen(frames: seq<Expr>)
    requires frames != []
    ensures States(frames + [[]]) == States(frames) + [1] && Values(frames + [[]]) == Values(frames) + [NoValue]
  {
    assert (frames + [[]])[..|frames|] == frames;
  }

  lemma StacksClose(frames: seq<Expr>)
    requires |frames| >= 2 && frames[|frames| - 1] != []
    ensures var n := |frames| - 1;
            States(frames) == States(frames[..n]) + [1, 9]
            && Values(frames) == Values(frames[..n]) + [NoValue, ExprValue(frames[n])]
  {
    hide States, Values, Below, ValuesBelow;
    var n := |frames| - 1;
    StacksTop(frames);
    BelowTop(frames[..n]);
    TwoMore(States(frames[..n]), 1, 9);
    TwoMore(Values(frames[..n]), NoValue, ExprValue(frames[n]));
  }

  lemma TwoMore<T>(s: seq<T>, x: T, y: T)
    ensures s + [x] + [y] == s + [x, y]
  {
  }

  lemma StacksTop(frames: seq<Expr>)
    requires frames != []
    ensures var n := |frames| - 1;
      if frames[n] == [] then States(frames) == Below(frames[..n]) && Values(frames) == ValuesBelow(frames[..n])
      else States(frames) == Below(frames[..n]) + [TopState(frames)]
           && Values(frames) == ValuesBelow(frames[..n]) + [ExprValue(frames[n])]
  {
  }

  lemma BelowTop(outer: seq<Expr>)
    requires outer != []
    ensures Below(outer) == States(outer) + [1] && ValuesBelow(outer) == Values(outer) + [NoValue]
  {
  }

  lemma StacksSingle(frames: seq<Expr>)
    requires |frames| == 1 && frames[0] != []
    ensures States(frames) == [0, 7] && Values(frames) == [ExprValue(frames[0])]
  {
  }

  /** Where the driver stands between two tokens. */
  datatype Phase = Ready | LeafShifted(atom: Atom) | AtomReduced(atom: Atom) | Closing | ProgramReduced | Final

  ghost predicate Stacked(phase: Phase, frames: seq<Expr>, states: seq<int>, values: seq<Value>)
    requires frames != []
  {
    var n := |frames| - 1;
    match phase
    case Ready => states == States(frames) && values == Values(frames)
    case LeafShifted(a) =>
      a.Leaf? && states == States(frames) + [LeafState(a.kind)] && values == Values(frames) + [AtomValue(a)]
    case AtomReduced(a) =>
      states == States(frames) + [if frames[n] == [] then 8 else 11] && values == Values(frames) + [AtomValue(a)]
    case Closing =>
      n >= 1 && frames[n] != [] && states == States(frames) + [12] && values == Values(frames) + [NoValue]
    case ProgramReduced => n == 0 && frames[0] != [] && states == [0, 6] && values == [ExprValue(frames[0])]
    case Final =>
      n == 0 && frames[0] != [] && states == [0, 6, YYFINAL] && values == [ExprValue(frames[0]), NoValue]
  }

  /** What the rest of the input will lead to. */
  ghost function Outcome(phase: Phase, frames: seq<Expr>, rest: seq<Token>): Option<Expr>
    requires frames != [] && (phase.Closing? ==> |frames| >= 2)
  {
    var n := |frames| - 1;
    match phase
    case Ready => Run(frames, rest)
    case LeafShifted(a) => Run(Append(frames, a), rest)
    case AtomReduced(a) => Run(Append(frames, a), rest)
    case Closing => Run(Append(frames[..n], Ex(frames[n])), rest)
    case ProgramReduced => if rest == [] then Some(frames[0]) else None
    case Final => Some(frames[0])
  }

  ghost function PhaseRank(phase: Phase): nat {
    match phase
    case LeafShifted(_) => 4 case Closing => 4 case AtomReduced(_) => 3
    case Ready => 2 case ProgramReduced => 1 case Final => 0
  }

  /** Rule `rule` may be applied: enough entries, values of the right sort, and
      a known state underneath. */
  ghost predicate CanReduce(rule: int, states: seq<int>, values: seq<Value>) {
    && 2 <= rule <= 9
    && |values| == |states| - 1 >= YyR2(rule)
    && 0 <= states[|states| - 1 - YyR2(rule)] <= 12
    && var args := values[|values| - YyR2(rule)..];
       match rule
       case 2 => args[0].ExprValue?
       case 3 => args[0].ExprValue? && args[1].AtomValue?
       case 4 => args[0].AtomValue?
       case 5 => args[1].ExprValue?
       case _ => true
  }

  /** The semantic action: `$$` from the popped values. */
  function ReduceValue(rule: int, args: seq<Value>): Value
    requires 2 <= rule <= 9 && |args| == YyR2(rule)
    requires rule == 3 ==> args[0].ExprValue? && args[1].AtomValue?
    requires rule == 4 ==> args[0].AtomValue?
    requires rule == 5 ==> args[1].ExprValue?
  {
    match rule
    case 3 => ExprValue(args[0].expr + [args[1].atom])
    case 4 => ExprValue([args[0].atom])
    case 5 => AtomValue(Ex(args[1].expr))
    case _ => args[0]
  }

  function ReducedStates(rule: int, states: seq<int>): seq<int>
    requires 2 <= rule <= 9 && |states| > YyR2(rule) && 0 <= states[|states| - 1 - YyR2(rule)] <= 12
  {
    var kept := states[..|states| - YyR2(rule)];
    kept + [GotoOf(kept[|kept| - 1], YyR1(rule))]
  }

  function ReducedValues(rule: int, states: seq<int>, values: seq<Value>): seq<Value>
    requires CanReduce(rule, states, values)
  {
    var n := |values| - YyR2(rule);
    values[..n] + [ReduceValue(rule, values[n..])]
  }

  /** The lookahead's symbol number; 0 is end-of-file. */
  function Lookahead(rest: seq<Token>): (tok: int)
    ensures tok == 0 || 3 <= tok <= 8
  {
    if rest == [] then 0 else Terminal(rest[0])
  }

  function ShiftValue(rest: seq<Token>): Value {
    if rest != [] && rest[0].LeafToken? then AtomValue(Leaf(rest[0].kind, rest[0].text)) else NoValue
  }

  /** Where a round that starts between tokens ends. */
  ghost function AfterReady(frames: seq<Expr>, rest: seq<Token>): (r: (Phase, seq<Expr>))
    requires frames != []
    ensures r.1 != [] && (r.0.Closing? ==> |r.1| >= 2)
  {
    if rest != [] && rest[0].LBrace? then (Ready, frames + [[]])
    else if rest != [] && rest[0].LeafToken? then (LeafShifted(Leaf(rest[0].kind, rest[0].text)), frames)
    else if |frames| >= 2 then (Closing, frames)
    else (ProgramReduced, frames)
  }

  /** One round of the driver leads from `phase` to `next` and loses nothing. */
  ghost predicate RoundLeadsTo(phase: Phase, frames: seq<Expr>, states: seq<int>, values: seq<Value>,
                               rest: seq<Token>, next: Phase, nextFrames: seq<Expr>)
    requires frames != [] && nextFrames != [] && states != [] && 0 <= states[|states| - 1] <= 12
    requires (phase.Closing? ==> |frames| >= 2) && (next.Closing? ==> |nextFrames| >= 2)
  {
    match ActionOf(states[|states| - 1], Lookahead(rest))
    case Error => Outcome(phase, frames, rest) == None
    case Shift(state) =>
      && Stacked(next, nextFrames, states + [state], values + [ShiftValue(rest)])
      && Outcome(next, nextFrames, if rest == [] then [] else rest[1..]) == Outcome(phase, frames, rest)
      && (rest == [] ==> PhaseRank(next) < PhaseRank(phase))
    case Reduce(rule) =>
      && CanReduce(rule, states, values)
      && Stacked(next, nextFrames, ReducedStates(rule, states), ReducedValues(rule, states, values))
      && Outcome(next, nextFrames, rest) == Outcome(phase, frames, rest)
      && PhaseRank(next) < PhaseRank(phase)
  }

  lemma ReduceShape(rule: int, below: seq<int>, popped: seq<int>, valuesBelow: seq<Value>, args: seq<Value>)
    requires 2 <= rule <= 9 && |popped| == |args| == YyR2(rule) && |valuesBelow| == |below| - 1
    requires 0 <= below[|below| - 1] <= 12
    requires rule == 2 ==> args[0].ExprValue?
    requires rule == 3 ==> args[0].ExprValue? && args[1].AtomValue?
    requires rule == 4 ==> args[0].AtomValue?
    requires rule == 5 ==> args[1].ExprValue?
    ensures var states, values := below + popped, valuesBelow + args;
      && CanReduce(rule, states, values)
      && ReducedStates(rule, states) == below + [GotoOf(below[|below| - 1], YyR1(rule))]
      && ReducedValues(rule, states, values) == valuesBelow + [ReduceValue(rule, args)]
  {
    var states, values := below + popped, valuesBelow + args;
    assert states[..|below|] == below;
    assert values[..|valuesBelow|] == valuesBelow && values[|valuesBelow|..] == args;
  }

  /** The entries the reduction of an atom works on. */
  lemma AtomShape(frames: seq<Expr>, a: Atom)
    requires frames != []
    ensures var n := |frames| - 1; var below, valuesBelow := Below(frames[..n]), ValuesBelow(frames[..n]);
      if frames[n] == [] then
        && States(frames) + [8] == below + [8]
        && Values(frames) + [AtomValue(a)] == valuesBelow + [AtomValue(a)]
        && frames[n] + [a] == [a]
      else
        && States(frames) + [11] == below + [TopState(frames), 11]
        && Values(frames) + [AtomValue(a)] == valuesBelow + [ExprValue(frames[n]), AtomValue(a)]
  {
    hide States, Values, Below, ValuesBelow;
    StacksTop(frames);
    TwoMore(Below(frames[..|frames| - 1]), TopState(frames), 11);
    TwoMore(ValuesBelow(frames[..|frames| - 1]), ExprValue(frames[|frames| - 1]), AtomValue(a));
  }

  lemma RoundFirstAtom(frames: seq<Expr>, a: Atom, states: seq<int>, values: seq<Value>, rest: seq<Token>)
    requires frames != [] && frames[|frames| - 1] == [] && Stacked(AtomReduced(a), frames, states, values)
    ensures RoundLeadsTo(AtomReduced(a), frames, states, values, rest, Ready, Append(frames, a))
  {
    hide States, Values, Below, ValuesBelow, Run, ActionOf, GotoOf, Append, CanReduce, ReducedStates, ReducedValues;
    var n := |frames| - 1;
    var below, valuesBelow := Below(frames[..n]), ValuesBelow(frames[..n]);
    ActionTable(Lookahead(rest));
    GotoTable();
    StacksAppend(frames, a);
    AtomShape(frames, a);
    ReduceShape(4, below, [8], valuesBelow, [AtomValue(a)]);
  }

  lemma RoundLaterAtom(frames: seq<Expr>, a: Atom, states: seq<int>, values: seq<Value>, rest: seq<Token>)
    requires frames != [] && frames[|frames| - 1] != [] && Stacked(AtomReduced(a), frames, states, values)
    ensures RoundLeadsTo(AtomReduced(a), frames, states, values, rest, Ready, Append(frames, a))
  {
    hide States, Values, Below, ValuesBelow, Run, ActionOf, GotoOf, Append, CanReduce, ReducedStates, ReducedValues;
    var n := |frames| - 1;
    var below, valuesBelow := Below(frames[..n]), ValuesBelow(frames[..n]);
    ActionTable(Lookahead(rest));
    GotoTable();
    StacksAppend(frames, a);
    AtomShape(frames, a);
    ReduceShape(3, below, [TopState(frames), 11], valuesBelow, [ExprValue(frames[n]), AtomValue(a)]);
  }

  lemma RoundLeaf(phase: Phase, frames: seq<Expr>, states: seq<int>, values: seq<Value>, rest: seq<Token>)
    requires frames != [] && phase.LeafShifted? && Stacked(phase, frames, states, values)
    ensures RoundLeadsTo(phase, frames, states, values, rest, AtomReduced(phase.atom), frames)
  {
    hide States, Values, Run, ActionOf, GotoOf, Append, CanReduce, ReducedStates, ReducedValues;
    var kind := phase.atom.kind;
    ActionTable(Lookahead(rest));
    GotoTable();
    ReduceShape(LeafState(kind) + 4, States(frames), [LeafState(kind)], Values(frames), [AtomValue(phase.atom)]);
  }

  lemma RoundClosing(frames: seq<Expr>, states: seq<int>, values: seq<Value>, rest: seq<Token>)
    requires frames != [] && Stacked(Closing, frames, states, values)
    ensures var n := |frames| - 1;
            RoundLeadsTo(Closing, frames, states, values, rest, AtomReduced(Ex(frames[n])), frames[..n])
  {
    hide States, Values, Run, ActionOf, GotoOf, Append, CanReduce, ReducedStates, ReducedValues;
    var n := |frames| - 1;
    var outer := frames[..n];
    ActionTable(Lookahead(rest));
    GotoTable();
    StacksClose(frames);
    assert states == States(outer) + [1, 9, 12];
    assert values == Values(outer) + [NoValue, ExprValue(frames[n]), NoValue];
    ReduceShape(5, States(outer), [1, 9, 12], Values(outer), [NoValue, ExprValue(frames[n]), NoValue]);
  }

  lemma RoundProgram(frames: seq<Expr>, states: seq<int>, values: seq<Value>, rest: seq<Token>)
    requires frames != [] && Stacked(ProgramReduced, frames, states, values)
    ensures RoundLeadsTo(ProgramReduced, frames, states, values, rest, Final, frames)
  {
    hide ActionOf;
    ActionTable(Lookahead(rest));
  }

  lemma ProgramShape(e: Expr)
    ensures CanReduce(2, [0, 7], [ExprValue(e)])
    ensures ReducedStates(2, [0, 7]) == [0, 6] && ReducedValues(2, [0, 7], [ExprValue(e)]) == [ExprValue(e)]
  {
    hide GotoOf;
    GotoTable();
  }

  lemma RunOutside(frames: seq<Expr>, rest: seq<Token>)
    requires |frames| == 1 && frames[0] != [] && (rest == [] || rest[0].RBrace?)
    ensures Run(frames, rest) == if rest == [] then Some(frames[0]) else None
  {
  }

  /** Outside all parentheses, end-of-file or a stray `)`: the program rule. */
  lemma RoundReadyProgram(frames: seq<Expr>, states: seq<int>, values: seq<Value>, rest: seq<Token>)
    requires |frames| == 1 && frames[0] != [] && Stacked(Ready, frames, states, values)
    requires rest == [] || rest[0].RBrace?
    ensures RoundLeadsTo(Ready, frames, states, values, rest, ProgramReduced, frames)
  {
    hide Run, States, Values, ActionOf, GotoOf, CanReduce, ReducedStates, ReducedValues;
    assert Run(frames, rest) == if rest == [] then Some(frames[0]) else None by { RunOutside(frames, rest); }
    ActionTable(Lookahead(rest));
    StacksSingle(frames);
    ProgramShape(frames[0]);
  }

  lemma RoundReadyShift(frames: seq<Expr>, states: seq<int>, values: seq<Value>, rest: seq<Token>)
    requires frames != [] && Stacked(Ready, frames, states, values)
    requires !(|frames| == 1 && frames[0] != [] && (rest == [] || rest[0].RBrace?))
    ensures var (next, nextFrames) := AfterReady(frames, rest);
            RoundLeadsTo(Ready, frames, states, values, rest, next, nextFrames)
  {
    hide States, Values, ActionOf, CanReduce, ReducedStates, ReducedValues;
    ActionTable(Lookahead(rest));
    StacksOpen(frames);
  }

  /** The phase that follows. */
  ghost function NextPhase(phase: Phase, frames: seq<Expr>, rest: seq<Token>): (r: (Phase, seq<Expr>))
    requires frames != [] && !phase.Final? && (phase.Closing? ==> |frames| >= 2)
    ensures r.1 != [] && (r.0.Closing? ==> |r.1| >= 2)
  {
    match phase
    case LeafShifted(a) => (AtomReduced(a), frames)
    case AtomReduced(a) => (Ready, Append(frames, a))
    case Closing => (AtomReduced(Ex(frames[|frames| - 1])), frames[..|frames| - 1])
    case ProgramReduced => (Final, frames)
    case Ready => AfterReady(frames, rest)
  }

  lemma Round(phase: Phase, frames: seq<Expr>, states: seq<int>, values: seq<Value>, rest: seq<Token>)
    requires frames != [] && !phase.Final? && Stacked(phase, frames, states, values)
    ensures states != [] && 0 <= states[|states| - 1] <= 12 && states[|states| - 1] != YYFINAL
    ensures |states| <= 2 * |frames| + 1
    ensures var (next, nextFrames) := NextPhase(phase, frames, rest);
            RoundLeadsTo(phase, frames, states, values, rest, next, nextFrames)
  {
    hide RoundLeadsTo, States, Values, Append;
    match phase
    case LeafShifted(_) => RoundLeaf(phase, frames, states, values, rest);
    case AtomReduced(a) =>
      if frames[|frames| - 1] == [] {
        RoundFirstAtom(frames, a, states, values, rest);
      } else {
        RoundLaterAtom(frames, a, states, values, rest);
      }
    case Closing => RoundClosing(frames, states, values, rest);
    case ProgramReduced => RoundProgram(frames, states, values, rest);
    case Ready =>
      if |frames| == 1 && frames[0] != [] && (rest == [] || rest[0].RBrace?) {
        RoundReadyProgram(frames, states, values, rest);
      } else {
        RoundReadyShift(frames, states, values, rest);
      }
  }

  /** Unclosed parentheses among the tokens already shifted. */
  ghost function OpenCount(phase: Phase, frames: seq<Expr>): int {
    if phase.Closing? then |frames| - 2 else |frames| - 1
  }

  /** The action the tables prescribe, in terms of what has been read. */
  ghost function ExpectedAction(phase: Phase, frames: seq<Expr>, rest: seq<Token>): Action
    requires frames != []
  {
    var top := frames[|frames| - 1];
    match phase
    case LeafShifted(a) => if a.Leaf? then Reduce(LeafState(a.kind) + 4) else Error
    case AtomReduced(_) => Reduce(if top == [] then 4 else 3)
    case Closing => Reduce(5)
    case ProgramReduced => if rest == [] then Shift(YYFINAL) else Error
    case Final => Reduce(1)
    case Ready =>
      if rest != [] && rest[0].LBrace? then Shift(1)
      else if rest != [] && rest[0].LeafToken? then Shift(LeafState(rest[0].kind))
      else if top == [] then Error
      else if |frames| == 1 then Reduce(2)
      else if rest == [] then Error
      else Shift(12)
  }

  lemma ActionIsExpected(phase: Phase, frames: seq<Expr>, states: seq<int>, values: seq<Value>, rest: seq<Token>)
    requires frames != [] && !phase.Final? && Stacked(phase, frames, states, values)
    ensures states != [] && 0 <= states[|states| - 1] <= 12
    ensures ActionOf(states[|states| - 1], Lookahead(rest)) == ExpectedAction(phase, frames, rest)
  {
    hide ActionOf, States, Values;
    ActionTable(Lookahead(rest));
  }

  /** A round keeps the count of open parentheses in step with the tokens. */
  lemma RoundNesting(phase: Phase, frames: seq<Expr>, rest: seq<Token>)
    requires frames != [] && !phase.Final? && (phase.Closing? ==> |frames| >= 2)
    requires !ExpectedAction(phase, frames, rest).Error?
    ensures var (next, nextFrames) := NextPhase(phase, frames, rest);
            var rest' := if ExpectedAction(phase, frames, rest).Shift? && rest != [] then rest[1..] else rest;
            var nesting := Nesting(rest, OpenCount(phase, frames));
            Nesting(rest', OpenCount(next, nextFrames)) <= nesting
            && (|nextFrames| <= |frames| || |nextFrames| - 1 <= nesting)
  {
    hide Nesting;
    if phase.Ready? && rest != [] { NestingShift(rest, |frames| - 1); }
  }

  lemma NestingShift(rest: seq<Token>, open: int)
    requires rest != []
    ensures rest[0].LBrace? ==> open + 1 <= Nesting(rest[1..], open + 1) <= Nesting(rest, open)
    ensures rest[0].RBrace? ==> Nesting(rest[1..], open - 1) <= Nesting(rest, open)
    ensures rest[0].LeafToken? ==> Nesting(rest[1..], open) <= Nesting(rest, open)
  {
  }

  /** The driver's loop invariant. */
  ghost predicate Driving(toks: seq<Token>, pos: nat, phase: Phase, frames: seq<Expr>,
                          states: seq<int>, values: seq<Value>, tree: Expr)
  {
    && pos <= |toks| && frames != []
    && Stacked(phase, frames, states, values)
    && Outcome(phase, frames, toks[pos..]) == ParseTokens(toks)
    && Nesting(toks[pos..], OpenCount(phase, frames)) <= Nesting(toks, 0)
    && |frames| - 1 <= Nesting(toks, 0)
    && (phase.ProgramReduced? || phase.Final? ==> tree == frames[0])
  }

  lemma DriveStart(toks: seq<Token>, tree: Expr)
    ensures Driving(toks, 0, Ready, [[]], [0], [], tree)
  {
    assert toks[0..] == toks;
    var start: seq<Expr> := [[]];
    assert States(start) == [0] && Values(start) == [];
  }

  lemma DriveStacks(toks: seq<Token>, pos: nat, phase: Phase, frames: seq<Expr>,
                    states: seq<int>, values: seq<Value>, tree: Expr)
    requires Driving(toks, pos, phase, frames, states, values, tree)
    ensures 1 <= |states| <= 2 * Nesting(toks, 0) + 3 && 0 <= states[|states| - 1] <= 12
    ensures states[|states| - 1] == YYFINAL <==> phase.Final?
    ensures phase.Final? ==> ParseTokens(toks) == Some(tree)
  {
    hide Outcome, Nesting, States, RoundLeadsTo, NextPhase, ParseTokens;
    if phase.Final? {
      assert ParseTokens(toks) == Some(tree) by { OutcomeFinal(frames, toks[pos..]); }
    } else {
      Round(phase, frames, states, values, toks[pos..]);
    }
  }

  lemma OutcomeFinal(frames: seq<Expr>, rest: seq<Token>)
    requires frames != []
    ensures Outcome(Final, frames, rest) == Some(frames[0])
  {
  }

  /** The program rule is applied exactly when the tree on the stack is complete. */
  lemma RoundTree(phase: Phase, frames: seq<Expr>, states: seq<int>, values: seq<Value>, rest: seq<Token>)
    requires frames != [] && !phase.Final? && Stacked(phase, frames, states, values)
    ensures var (next, nextFrames) := NextPhase(phase, frames, rest);
            var action := ExpectedAction(phase, frames, rest);
            !action.Error? ==>
              && (next.ProgramReduced? <==> action == Reduce(2))
              && (next.ProgramReduced? ==> values != [] && values[|values| - 1] == ExprValue(nextFrames[0]))
              && (next.Final? ==> phase.ProgramReduced? && nextFrames == frames)
  {
    hide States, Values, Append;
    if phase.Ready? && |frames| == 1 && frames[0] != [] { StacksSingle(frames); }
  }

  lemma DriveRound(toks: seq<Token>, pos: nat, phase: Phase, frames: seq<Expr>,
                   states: seq<int>, values: seq<Value>, tree: Expr)
    returns (next: Phase, nextFrames: seq<Expr>)
    requires Driving(toks, pos, phase, frames, states, values, tree) && !phase.Final?
    requires 1 <= |states| && 0 <= states[|states| - 1] <= 12
    ensures match ActionOf(states[|states| - 1], Lookahead(toks[pos..]))
      case Error => ParseTokens(toks) == None
      case Shift(state) =>
        && Driving(toks, if pos < |toks| then pos + 1 else pos, next, nextFrames,
                   states + [state], values + [ShiftValue(toks[pos..])], tree)
        && (pos == |toks| ==> PhaseRank(next) < PhaseRank(phase))
      case Reduce(rule) =>
        && CanReduce(rule, states, values)
        && Driving(toks, pos, next, nextFrames, ReducedStates(rule, states), ReducedValues(rule, states, values),
                   if rule == 2 then values[|values| - 1].expr else tree)
        && PhaseRank(next) < PhaseRank(phase)
  {
    hide Stacked, Outcome, Nesting, States, ActionOf, ParseTokens, ReducedStates, ReducedValues;
    var rest := toks[pos..];
    Round(phase, frames, states, values, rest);
    var after := NextPhase(phase, frames, rest);
    next, nextFrames := after.0, after.1;
    ActionIsExpected(phase, frames, states, values, rest);
    if !ActionOf(states[|states| - 1], Lookahead(rest)).Error? {
      RoundNesting(phase, frames, rest);
      RoundTree(phase, frames, states, values, rest);
      assert pos < |toks| ==> rest[1..] == toks[pos + 1..];
    }
  }

  // ------------------------------------------------------------------ whole parses

  /** The driver between two rounds: its stacks and how many tokens have been shifted. */
  datatype Config = Config(states: seq<int>, values: seq<Value>, pos: nat)

  /** The first configuration. */
  const START := Config([0], [], 0)

  ghost predicate OnTable(toks: seq<Token>, c: Config) {
    c.pos <= |toks| && c.states != [] && 0 <= c.states[|c.states| - 1] <= 12
  }

  ghost predicate Accepting(c: Config) { c.states != [] && c.states[|c.states| - 1] == YYFINAL }

  ghost function ActionAt(toks: seq<Token>, c: Config): Action
    requires OnTable(toks, c)
  {
    ActionOf(c.states[|c.states| - 1], Lookahead(toks[c.pos..]))
  }

  /** One round of the driver takes a to b. */
  ghost predicate Follows(toks: seq<Token>, a: Config, b: Config) {
    && OnTable(toks, a) && !Accepting(a)
    && match ActionAt(toks, a)
       case Error => false
       case Shift(state) =>
         b == Config(a.states + [state], a.values + [ShiftValue(toks[a.pos..])],
                     if a.pos < |toks| then a.pos + 1 else a.pos)
       case Reduce(rule) =>
         && CanReduce(rule, a.states, a.values)
         && b == Config(ReducedStates(rule, a.states), ReducedValues(rule, a.states, a.values), a.pos)
  }

  /** The driver stops at c: in the final state when it accepts, at an error entry when not. */
  ghost predicate StopsAt(toks: seq<Token>, c: Config, accepts: bool) {
    if accepts then Accepting(c) else OnTable(toks, c) && !Accepting(c) && ActionAt(toks, c).Error?
  }

  /** The configurations the driver goes through, from the start. */
  ghost predicate IsTrace(toks: seq<Token>, trace: seq<Config>) {
    trace != [] && trace[0] == START && forall k :: 0 < k < |trace| ==> Follows(toks, trace[k - 1], trace[k])
  }

  /** The invariant of the driver holds all along a trace. */
  lemma {:induction false} TraceIsDriving(toks: seq<Token>, trace: seq<Config>, k: nat)
    returns (phase: Phase, frames: seq<Expr>, tree: Expr)
    requires IsTrace(toks, trace) && k < |trace|
    ensures Driving(toks, trace[k].pos, phase, frames, trace[k].states, trace[k].values, tree)
  {
    hide Driving, ActionOf, ReducedStates, ReducedValues;
    if k == 0 {
      phase, frames, tree := Ready, [[]], [];
      DriveStart(toks, tree);
    } else {
      var a := trace[k - 1];
      assert Follows(toks, a, trace[k]);
      phase, frames, tree := TraceIsDriving(toks, trace, k - 1);
      DriveStacks(toks, a.pos, phase, frames, a.states, a.values, tree);
      var next, nextFrames := DriveRound(toks, a.pos, phase, frames, a.states, a.values, tree);
      if ActionAt(toks, a) == Reduce(2) { tree := LastExpr(a.values); }
      phase, frames := next, nextFrames;
    }
  }

  function LastExpr(values: seq<Value>): Expr {
    if values != [] && values[|values| - 1].ExprValue? then values[|values| - 1].expr else []
  }

  /** However the driver got there, it holds at most 2 * nesting + 3 states, one more than
      values, and is in a state of the tables. */
  lemma StackBound(toks: seq<Token>, trace: seq<Config>, k: nat)
    requires IsTrace(toks, trace) && k < |trace|
    ensures 1 <= |trace[k].states| <= 2 * Nesting(toks, 0) + 3 && |trace[k].values| == |trace[k].states| - 1
    ensures OnTable(toks, trace[k])
  {
    hide IsTrace, Nesting, Outcome, ParseTokens;
    var phase, frames, tree := TraceIsDriving(toks, trace, k);
    DriveStacks(toks, trace[k].pos, phase, frames, trace[k].states, trace[k].values, tree);
  }

  /** `yyparse`.  It terminates on every token string and delivers the one tree the grammar
      derives the tokens from, or rejects when there is none.  The configurations it goes
      through are a trace that ends in the final state or at an error entry, and in each the
      state stack is within twice the nesting depth plus three. */
  method Parse(toks: seq<Token>) returns (result: Option<Expr>, ghost trace: seq<Config>)
    ensures result == ParseTokens(toks)
    ensures result.Some? ==> Derives(result.value, toks)
    ensures result.None? ==> forall e: Expr :: !Derives(e, toks)
    ensures IsTrace(toks, trace) && StopsAt(toks, trace[|trace| - 1], result.Some?)
    ensures forall k :: 0 <= k < |trace| ==> |trace[k].states| <= 2 * Nesting(toks, 0) + 3
  {
    hide Driving, ParseTokens, Nesting, Derives, Outcome, ActionOf, ReducedStates, ReducedValues;
    forall e: Expr ensures ParseTokens(toks) == Some(e) <==> Derives(e, toks) { ParseIsGrammar(e, toks); }
    var states: seq<int>, values: seq<Value>, pos, tree: Expr := [0], [], 0, [];
    ghost var phase: Phase, frames: seq<Expr> := Ready, [[]];
    DriveStart(toks, tree);
    DriveStacks(toks, pos, phase, frames, states, values, tree);
    trace := [START];
    while states[|states| - 1] != YYFINAL
      invariant 0 <= pos <= |toks| && Driving(toks, pos, phase, frames, states, values, tree)
      invariant 1 <= |states| && 0 <= states[|states| - 1] <= 12
      invariant states[|states| - 1] == YYFINAL <==> phase.Final?
      invariant phase.Final? ==> ParseTokens(toks) == Some(tree)
      invariant IsTrace(toks, trace) && trace[|trace| - 1] == Config(states, values, pos)
      decreases |toks| - pos, PhaseRank(phase)
    {
      ghost var next, nextFrames := DriveRound(toks, pos, phase, frames, states, values, tree);
      ghost var before := Config(states, values, pos);
      var rest := toks[pos..];
      match ActionOf(states[|states| - 1], Lookahead(rest)) {
      case Error =>
        result := None;
        TraceBounds(toks, trace);
        return;
      case Shift(state) =>
        states, values := states + [state], values + [ShiftValue(rest)];
        if pos < |toks| {
          pos := pos + 1;
        }
      case Reduce(rule) =>
        if rule == 2 {
          tree := values[|values| - 1].expr;
        }
        states, values := ReducedStates(rule, states), ReducedValues(rule, states, values);
      }
      assert Follows(toks, before, Config(states, values, pos));
      trace := trace + [Config(states, values, pos)];
      phase, frames := next, nextFrames;
      DriveStacks(toks, pos, phase, frames, states, values, tree);
    }
    result := Some(tree);
    TraceBounds(toks, trace);
  }

  lemma TraceBounds(toks: seq<Token>, trace: seq<Config>)
    requires IsTrace(toks, trace)
    ensures forall k :: 0 <= k < |trace| ==> |trace[k].states| <= 2 * Nesting(toks, 0) + 3
  {
    hide IsTrace, Nesting;
    forall k | 0 <= k < |trace| ensures |trace[k].states| <= 2 * Nesting(toks, 0) + 3 { StackBound(toks, trace, k); }
  }
}
