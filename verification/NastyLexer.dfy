/** The scanner of the nasty S-expression front end: the flex tables, the
    longest-match loop with back-up, and a table-free reference scanner.

    Input is a finite sequence of bytes.  Buffer refill is not modelled: running
    out of bytes plays the part of flex's end-of-buffer action, and a real NUL
    byte has character class 1, as the NUL-transition code gives it. */
module NastyLexer {
  import opened Octets

  const TAB: byte := 9
  const NEWLINE: byte := 10
  const SPACE: byte := 32
  const QUOTE: byte := 34
  const LPAREN: byte := 40
  const RPAREN: byte := 41
  const DOT: byte := 46
  const BACKSLASH: byte := 92

  // ---------------------------------------------------------------- tables

  function YyAccept(i: int): int
    requires 0 <= i < 20
  {
    match i
    case 0 => 0 case 1 => 0 case 2 => 0 case 3 => 10 case 4 => 8 case 5 => 7
    case 6 => 7 case 7 => 4 case 8 => 8 case 9 => 1 case 10 => 2 case 11 => 6
    case 12 => 4 case 13 => 0 case 14 => 3 case 15 => 0 case 16 => 5 case 17 => 6
    case 18 => 5 case _ => 0
  }

  function YyMeta(i: int): int
    requires 0 <= i < 11
  {
    match i
    case 0 => 0 case 1 => 1 case 2 => 1 case 3 => 1 case 4 => 2 case 5 => 1
    case 6 => 1 case 7 => 1 case 8 => 2 case 9 => 2 case _ => 1
  }

  function YyBase(i: int): int
    requires 0 <= i < 22
  {
    match i
    case 0 => 0 case 1 => 0 case 2 => 0 case 3 => 20 case 4 => 27 case 5 => 27
    case 6 => 27 case 7 => 0 case 8 => 6 case 9 => 27 case 10 => 27 case 11 => 9
    case 12 => 0 case 13 => 14 case 14 => 27 case 15 => 12 case 16 => 5 case 17 => 0
    case 18 => 4 case 19 => 27 case 20 => 10 case _ => 24
  }

  function YyDef(i: int): int
    requires 0 <= i < 22
  {
    match i
    case 0 => 0 case 1 => 19 case 2 => 1 case 3 => 19 case 4 => 19 case 5 => 19
    case 6 => 19 case 7 => 20 case 8 => 21 case 9 => 19 case 10 => 19 case 11 => 19
    case 12 => 20 case 13 => 21 case 14 => 19 case 15 => 21 case 16 => 19 case 17 => 11
    case 18 => 19 case 19 => 0 case 20 => 19 case _ => 19
  }

  function YyNxt(i: int): int
    requires 0 <= i < 38
  {
    match i
    case 0 => 0 case 1 => 4 case 2 => 5 case 3 => 6 case 4 => 7 case 5 => 8
    case 6 => 9 case 7 => 10 case 8 => 7 case 9 => 11 case 10 => 4 case 11 => 14
    case 12 => 12 case 13 => 18 case 14 => 18 case 15 => 19 case 16 => 15 case 17 => 16
    case 18 => 17 case 19 => 14 case 20 => 19 case 21 => 19 case 22 => 19 case 23 => 19
    case 24 => 15 case 25 => 13 case 26 => 13 case 27 => 3 case 28 => 19 case 29 => 19
    case 30 => 19 case 31 => 19 case 32 => 19 case 33 => 19 case 34 => 19 case 35 => 19
    case 36 => 19 case _ => 19
  }

  function YyChk(i: int): int
    requires 0 <= i < 38
  {
    match i
    case 0 => 0 case 1 => 1 case 2 => 1 case 3 => 1 case 4 => 1 case 5 => 1
    case 6 => 1 case 7 => 1 case 8 => 1 case 9 => 1 case 10 => 1 case 11 => 8
    case 12 => 20 case 13 => 18 case 14 => 16 case 15 => 15 case 16 => 8 case 17 => 11
    case 18 => 11 case 19 => 13 case 20 => 3 case 21 => 0 case 22 => 0 case 23 => 0
    case 24 => 13 case 25 => 21 case 26 => 21 case 27 => 19 case 28 => 19 case 29 => 19
    case 30 => 19 case 31 => 19 case 32 => 19 case 33 => 19 case 34 => 19 case 35 => 19
    case 36 => 19 case _ => 19
  }

  /** `yy_ec`, its 256 entries written as runs of equal value. */
  function YyEc(b: byte): (c: int)
    ensures 0 <= c <= 10
  {
    if b == 0 then 0
    else if b <= 8 then 1
    else if b == 9 then 2
    else if b == 10 then 3
    else if b <= 31 then 1
    else if b == 32 then 2
    else if b == 33 then 4
    else if b == 34 then 5
    else if b <= 38 then 4
    else if b == 39 then 1
    else if b == 40 then 6
    else if b == 41 then 7
    else if b <= 45 then 4
    else if b == 46 then 8
    else if b == 47 then 4
    else if b <= 57 then 9
    else if b == 58 then 4
    else if b == 59 then 1
    else if b == 60 then 4
    else if b == 61 then 1
    else if b == 62 then 4
    else if b == 63 then 1
    else if b <= 90 then 4
    else if b == 91 then 1
    else if b == 92 then 10
    else if b == 93 then 1
    else if b <= 95 then 4
    else if b == 96 then 1
    else if b <= 122 then 4
    else if b <= 125 then 1
    else if b == 126 then 4
    else 1
  }

  /** The class the match loop uses for an input byte. */
  function Class(b: byte): (c: int)
    ensures 1 <= c <= 10
  {
    if b == 0 then 1 else YyEc(b)
  }

  /** How many `yy_def` links lead from a state to the jam state 19. */
  ghost function DefaultDepth(state: int): nat
    requires 1 <= state <= 21
  {
    if state == 19 then 0 else if YyDef(state) == 19 then 1 else 2
  }

  /** One move of the DFA, decompressed: follow default links until the check
      table confirms the owner of the entry. */
  function Move(state: int, c: int): (next: int)
    requires 1 <= state <= 21 && 0 <= c <= 10
    decreases DefaultDepth(state)
  {
    if YyChk(YyBase(state) + c) == state then YyNxt(YyBase(state) + c)
    else
      var d := YyDef(state);
      Move(d, if d >= 20 then YyMeta(c) else c)
  }

  // ------------------------------------------------- the rules, without tables

  /** Class `C` of the scanner definition (`+-/` there is the range '+' to '/'). */
  predicate IsC(b: byte) {
    || 97 <= b <= 122            // a-z
    || 65 <= b <= 90             // A-Z
    || b == 95 || b == 33        // _ !
    || b == 64 || b == 35        // @ #
    || b == 36 || b == 37        // $ %
    || b == 94 || b == 38        // ^ &
    || b == 42                   // *
    || 43 <= b <= 47             // + to /
    || b == 60 || b == 62        // < >
    || b == 58 || b == 126       // : ~
  }

  predicate IsD(b: byte) { 48 <= b <= 57 }

  predicate IsBlank(b: byte) { b == SPACE || b == TAB || b == NEWLINE }

  /** `{C}({C}|{D})*` */
  predicate IsId(t: seq<byte>) {
    |t| >= 1 && IsC(t[0]) && forall i :: 0 <= i < |t| ==> IsC(t[i]) || IsD(t[i])
  }

  /** `{D}+` */
  predicate IsInt(t: seq<byte>) {
    |t| >= 1 && forall i :: 0 <= i < |t| ==> IsD(t[i])
  }

  /** Digits everywhere but at index k, which holds a dot. */
  predicate DotAt(t: seq<byte>, k: int) {
    1 <= k < |t| && t[k] == DOT && forall i :: 0 <= i < |t| && i != k ==> IsD(t[i])
  }

  /** `{D}+\.{D}*` */
  predicate IsDbl(t: seq<byte>) { exists k :: 1 <= k < |t| && DotAt(t, k) }

  /** What may follow the opening quote: `(\\.|[^\\"])*"`. */
  predicate ClosesString(b: seq<byte>) {
    |b| >= 1 &&
    if b[0] == QUOTE then |b| == 1
    else if b[0] == BACKSLASH then |b| >= 2 && b[1] != NEWLINE && ClosesString(b[2..])
    else ClosesString(b[1..])
  }

  /** `\"(\\.|[^\\"])*\"` */
  predicate IsSr(t: seq<byte>) { |t| >= 1 && t[0] == QUOTE && ClosesString(t[1..]) }

  /** The first rule of the definition file that matches all of `t`, or 0. */
  function FirstRule(t: seq<byte>): int {
    if t == [LPAREN] then 1
    else if t == [RPAREN] then 2
    else if IsSr(t) then 3
    else if IsId(t) then 4
    else if IsDbl(t) then 5
    else if IsInt(t) then 6
    else if |t| == 1 && IsBlank(t[0]) then 7
    else if |t| == 1 && t[0] != NEWLINE then 8
    else 0
  }

  /** Longest match first, earliest rule second: the meaning of a flex scanner. */
  function Best(s: seq<byte>, n: nat): (r: (int, nat))
    requires 1 <= n <= |s|
    ensures 1 <= r.1 <= n && 1 <= r.0 <= 8
  {
    if n == 1 || FirstRule(s[..n]) != 0 then (FirstRule(s[..n]), n)
    else Best(s, n - 1)
  }

  datatype Kind = SR | ID | DBL | INT

  datatype Token = LBrace | RBrace | LeafToken(kind: Kind, text: seq<byte>)

  predicate LeafMatches(kind: Kind, text: seq<byte>) {
    match kind
    case SR => IsSr(text)
    case ID => IsId(text)
    case DBL => IsDbl(text)
    case INT => IsInt(text)
  }

  function TokenOf(act: int, text: seq<byte>): Token
    requires 1 <= act <= 6
  {
    match act
    case 1 => LBrace
    case 2 => RBrace
    case 3 => LeafToken(SR, text)
    case 4 => LeafToken(ID, text)
    case 5 => LeafToken(DBL, text)
    case _ => LeafToken(INT, text)
  }

  /** The token list the parser sees before end-of-file.  Rule 8 (any other
      byte) answers end-of-file, so whatever follows such a byte is never read. */
  function Tokens(s: seq<byte>): seq<Token> {
    if s == [] then []
    else
      var (act, n) := Best(s, |s|);
      if act == 8 then []
      else if act == 7 then Tokens(s[n..])
      else [TokenOf(act, s[..n])] + Tokens(s[n..])
  }

  // ---------------------------------------------- what each DFA state stands for

  /** A proper beginning of a string body: no unescaped quote so far. */
  predicate OpenString(b: seq<byte>) {
    b == [] ||
    (b[0] != QUOTE &&
     if b[0] == BACKSLASH then |b| == 1 || (b[1] != NEWLINE && OpenString(b[2..]))
     else OpenString(b[1..]))
  }

  /** The body ends in a backslash that escapes the byte to come. */
  predicate Pending(b: seq<byte>) {
    b != [] &&
    if b[0] == BACKSLASH then |b| == 1 || Pending(b[2..]) else Pending(b[1..])
  }

  /** The states a scan of real bytes can be in: all but the second start state
      and the end-of-buffer state. */
  predicate LiveState(state: int) { 1 <= state <= 19 && state != 2 && state != 3 }

  /** The state reached on a text, described through the rules alone. */
  function StateOf(p: seq<byte>): (state: int)
    ensures LiveState(state)
  {
    if p == [] then 1
    else if p[0] == QUOTE then
      var b := p[1..];
      if b == [] then 8
      else if OpenString(b) then if Pending(b) then 15 else 13
      else if ClosesString(b) then 14
      else 19
    else if IsId(p) then if |p| == 1 then 7 else 12
    else if IsInt(p) then if |p| == 1 then 11 else 17
    else if IsDbl(p) then if p[|p| - 1] == DOT then 16 else 18
    else if |p| >= 2 then 19
    else if p[0] == LPAREN then 9
    else if p[0] == RPAREN then 10
    else if p[0] == NEWLINE then 6
    else if IsBlank(p[0]) then 5
    else 4
  }

  lemma {:induction false} StringSnoc(b: seq<byte>, c: byte)
    ensures OpenString(b) && Pending(b) && c == NEWLINE ==> !OpenString(b + [c]) && !ClosesString(b + [c])
    ensures OpenString(b) && Pending(b) && c != NEWLINE ==> OpenString(b + [c]) && !Pending(b + [c])
    ensures OpenString(b) && !Pending(b) && c == QUOTE ==> ClosesString(b + [c]) && !OpenString(b + [c])
    ensures OpenString(b) && !Pending(b) && c == BACKSLASH ==> OpenString(b + [c]) && Pending(b + [c])
    ensures OpenString(b) && !Pending(b) && c != QUOTE && c != BACKSLASH
            ==> OpenString(b + [c]) && !Pending(b + [c])
    ensures !OpenString(b) ==> !OpenString(b + [c]) && !ClosesString(b + [c])
    ensures OpenString(b) ==> !ClosesString(b)
    decreases |b|
  {
    if b == [] {
      assert b + [c] == [c];
    } else if b[0] == BACKSLASH {
      if |b| >= 2 {
        assert (b + [c])[2..] == b[2..] + [c];
        StringSnoc(b[2..], c);
      } else {
        assert (b + [c])[2..] == [];
      }
    } else if b[0] != QUOTE {
      assert (b + [c])[1..] == b[1..] + [c];
      StringSnoc(b[1..], c);
    }
  }

  /** The compressed tables, decompressed, for every state and class. */
  function NextState(state: int, c: int): (next: int)
    requires LiveState(state) && 1 <= c <= 10
    ensures LiveState(next)
  {
    match state
    case 1 => (match c
               case 1 => 4 case 2 => 5 case 3 => 6 case 4 => 7 case 5 => 8
               case 6 => 9 case 7 => 10 case 8 => 7 case 9 => 11 case _ => 4)
    case 7 => if c == 4 || c == 8 || c == 9 then 12 else 19
    case 12 => if c == 4 || c == 8 || c == 9 then 12 else 19
    case 8 => if c == 5 then 14 else if c == 10 then 15 else 13
    case 13 => if c == 5 then 14 else if c == 10 then 15 else 13
    case 15 => if c == 3 then 19 else 13
    case 11 => if c == 8 then 16 else if c == 9 then 17 else 19
    case 17 => if c == 8 then 16 else if c == 9 then 17 else 19
    case 16 => if c == 9 then 18 else 19
    case 18 => if c == 9 then 18 else 19
    case _ => 19
  }

  lemma JamRow(c: int)
    requires 1 <= c <= 10
    ensures Move(19, c) == 19
  {
  }

  lemma StartRow(c: int)
    requires 1 <= c <= 10
    ensures Move(1, c) == NextState(1, c)
  {
  }

  lemma WordRows(state: int, c: int)
    requires (state == 7 || state == 12) && 1 <= c <= 10
    ensures Move(state, c) == NextState(state, c)
  {
  }

  lemma StringRows(state: int, c: int)
    requires (state == 8 || state == 13 || state == 15) && 1 <= c <= 10
    ensures Move(state, c) == NextState(state, c)
  {
  }

  lemma NumberRows(state: int, c: int)
    requires (state == 11 || state == 16 || state == 17 || state == 18) && 1 <= c <= 10
    ensures Move(state, c) == NextState(state, c)
  {
  }

  lemma MoveTable(state: int, c: int)
    requires LiveState(state) && 1 <= c <= 10
    ensures Move(state, c) == NextState(state, c)
  {
    match state
    case 1 => StartRow(c);
    case 7 => WordRows(state, c);
    case 12 => WordRows(state, c);
    case 8 => StringRows(state, c);
    case 13 => StringRows(state, c);
    case 15 => StringRows(state, c);
    case 11 => NumberRows(state, c);
    case 16 => NumberRows(state, c);
    case 17 => NumberRows(state, c);
    case 18 => NumberRows(state, c);
    case _ => JamRow(c);
  }

  lemma ClassMeaning(b: byte)
    ensures IsC(b) <==> Class(b) == 4 || Class(b) == 8
    ensures IsD(b) <==> Class(b) == 9
    ensures b == DOT <==> Class(b) == 8
    ensures b == QUOTE <==> Class(b) == 5
    ensures b == LPAREN <==> Class(b) == 6
    ensures b == RPAREN <==> Class(b) == 7
    ensures b == NEWLINE <==> Class(b) == 3
    ensures b == SPACE || b == TAB <==> Class(b) == 2
    ensures b == BACKSLASH <==> Class(b) == 10
  {
  }

  lemma WordSnoc(p: seq<byte>, c: byte)
    requires p != []
    ensures IsId(p + [c]) <==> IsId(p) && (IsC(c) || IsD(c))
    ensures IsInt(p + [c]) <==> IsInt(p) && IsD(c)
    ensures IsDbl(p + [c]) <==> (IsInt(p) && c == DOT) || (IsDbl(p) && IsD(c))
  {
    var q := p + [c];
    assert forall i :: 0 <= i < |p| ==> q[i] == p[i];
    assert q[|p|] == c;
    if IsDbl(q) {
      var k :| 1 <= k < |q| && DotAt(q, k);
      if k < |p| { assert DotAt(p, k); }
    }
    if IsInt(p) && c == DOT { assert DotAt(q, |p|); }
    if IsDbl(p) && IsD(c) {
      var k :| 1 <= k < |p| && DotAt(p, k);
      assert DotAt(q, k);
    }
    assert IsId(q) ==> IsId(p) && (IsC(c) || IsD(c));
  }

  /** The tables simulate the rules: one table move per byte, from the state of
      a text to the state of the text one byte longer. */
  lemma StateStep(p: seq<byte>, c: byte)
    ensures Move(StateOf(p), Class(c)) == StateOf(p + [c])
  {
    var q := p + [c];
    ClassMeaning(c);
    MoveTable(StateOf(p), Class(c));
    if p == [] {
      assert q == [c] && q[1..] == [];
    } else {
      ClassMeaning(p[0]);
      if p[0] == QUOTE {
        assert q[1..] == p[1..] + [c];
        StringSnoc(p[1..], c);
      } else {
        WordSnoc(p, c);
      }
    }
  }

  /** A state accepts the first rule that matches the text it stands for. */
  lemma AcceptsFirstRule(p: seq<byte>)
    requires p != []
    ensures YyAccept(StateOf(p)) == FirstRule(p)
  {
    ClassMeaning(p[0]);
    if p[0] == QUOTE {
      StringSnoc(p[1..], 0);
      assert !IsId(p) && !IsInt(p) && !IsDbl(p);
    }
  }

  /** Once the machine may stop, no longer text matches any rule. */
  lemma {:induction false} StopIsFinal(s: seq<byte>, n: nat, m: nat)
    requires 1 <= n < m <= |s| && YyBase(StateOf(s[..n])) == 27
    ensures StateOf(s[..m]) == 19 && FirstRule(s[..m]) == 0
    decreases m
  {
    hide StateOf, FirstRule, Class, Move;
    if n < m - 1 { StopIsFinal(s, n, m - 1); }
    assert s[..m] == s[..m - 1] + [s[m - 1]];
    StateStep(s[..m - 1], s[m - 1]);
    MoveTable(StateOf(s[..m - 1]), Class(s[m - 1]));
    AcceptsFirstRule(s[..m]);
  }

  /** The longest length below n at which some rule matches, or 0. */
  ghost function LastMatch(s: seq<byte>, n: nat): (last: nat)
    requires n <= |s|
    ensures last <= n && (last == n ==> n == 0) && (n > 1 ==> last > 0)
  {
    if n <= 1 then 0
    else if n == 2 || FirstRule(s[..n - 1]) != 0 then n - 1
    else LastMatch(s, n - 1)
  }

  lemma {:induction false} BestIs(s: seq<byte>, n: nat)
    requires 1 <= n <= |s|
    ensures Best(s, n) ==
            if FirstRule(s[..n]) != 0 then (FirstRule(s[..n]), n)
            else (FirstRule(s[..LastMatch(s, n)]), LastMatch(s, n))
    decreases n
  {
    assert n > 1 || FirstRule(s[..n]) != 0;
    if FirstRule(s[..n]) == 0 { BestIs(s, n - 1); }
  }

  lemma {:induction false} BestStops(s: seq<byte>, n: nat, m: nat)
    requires 1 <= n <= m <= |s| && (n == m || YyBase(StateOf(s[..n])) == 27)
    ensures Best(s, m) == Best(s, n)
    decreases m
  {
    if n < m {
      StopIsFinal(s, n, m);
      BestStops(s, n, m - 1);
    }
  }

  // ------------------------------------------------------------- the scanner

  lemma ScanStep(s: seq<byte>, n: nat)
    requires n < |s|
    ensures NextState(StateOf(s[..n]), Class(s[n])) == StateOf(s[..n + 1])
    ensures LastMatch(s, n + 1) == if YyAccept(StateOf(s[..n])) != 0 then n else LastMatch(s, n)
  {
    hide StateOf, NextState, Move;
    assert s[..n + 1] == s[..n] + [s[n]];
    StateStep(s[..n], s[n]);
    MoveTable(StateOf(s[..n]), Class(s[n]));
    if n > 0 { AcceptsFirstRule(s[..n]); }
  }

  /** The match loop as a recursion: n bytes read, `last` the last accepting place. */
  function Scan(s: seq<byte>, n: nat, state: int, last: nat, lastState: int): (int, int)
    requires n <= |s| && LiveState(state) && LiveState(lastState)
    decreases |s| - n
  {
    if n < |s| && (n == 0 || YyBase(state) != 27) then
      var next := NextState(state, Class(s[n]));
      if YyAccept(state) != 0 then Scan(s, n + 1, next, n, state)
      else Scan(s, n + 1, next, last, lastState)
    else if YyAccept(state) != 0 then (YyAccept(state), n)
    else (YyAccept(lastState), last)
  }

  lemma {:induction false} ScanIsBest(s: seq<byte>, n: nat)
    requires n <= |s| && s != []
    ensures Scan(s, n, StateOf(s[..n]), LastMatch(s, n), StateOf(s[..LastMatch(s, n)])) == Best(s, |s|)
    decreases |s| - n
  {
    if n < |s| && (n == 0 || YyBase(StateOf(s[..n])) != 27) {
      ScanStep(s, n);
      ScanIsBest(s, n + 1);
    } else {
      AcceptsFirstRule(s[..n]);
      BestStops(s, n, |s|);
      BestIs(s, n);
      if LastMatch(s, n) > 0 { AcceptsFirstRule(s[..LastMatch(s, n)]); }
    }
  }

  /** The lookup loop inside the match loop. */
  method Advance(from: int, class_: int) returns (next: int)
    requires LiveState(from) && 1 <= class_ <= 10
    ensures next == NextState(from, class_)
  {
    MoveTable(from, class_);
    var state, c := from, class_;
    while YyChk(YyBase(state) + c) != state
      invariant 1 <= state <= 21 && 0 <= c <= 10
      invariant Move(state, c) == Move(from, class_)
      decreases DefaultDepth(state)
    {
      state := YyDef(state);
      if state >= 20 {
        c := YyMeta(c);
      }
    }
    next := YyNxt(YyBase(state) + c);
  }

  /** The match loop: run the tables until they can go no further, keep the last
      accepting place, and back up to it when the run ends outside a token.
      It finds the longest match, and on a tie the earliest rule. */
  method MatchToken(input: seq<byte>, start: nat) returns (act: int, end: nat)
    requires start < |input|
    ensures start < end <= |input|
    ensures (act, end - start) == Best(input[start..], |input| - start)
  {
    ghost var s := input[start..];
    assert s[..0] == [];
    ScanIsBest(s, 0);
    var cp := start;
    var state := 1;
    var lastState, lastPos := 1, start;
    while cp < |input| && (cp == start || YyBase(state) != 27)
      invariant start <= lastPos <= cp <= |input|
      invariant LiveState(state) && LiveState(lastState)
      invariant Scan(s, cp - start, state, lastPos - start, lastState) == Best(s, |s|)
    {
      var next := Advance(state, Class(input[cp]));
      if YyAccept(state) != 0 {
        lastState, lastPos := state, cp;
      }
      state := next;
      cp := cp + 1;
    }
    act := YyAccept(state);
    if act == 0 {
      cp, state := lastPos, lastState;
      act := YyAccept(state);
    }
    end := cp;
  }

  lemma TokensFrom(input: seq<byte>, pos: nat, end: nat)
    requires pos < end <= |input|
    requires Best(input[pos..], |input| - pos).1 == end - pos
    ensures Tokens(input[pos..]) ==
            match Best(input[pos..], |input| - pos).0
            case 8 => []
            case 7 => Tokens(input[end..])
            case act => [TokenOf(act, input[pos..end])] + Tokens(input[end..])
  {
    hide Best;
    assert input[pos..][end - pos..] == input[end..];
    assert input[pos..][..end - pos] == input[pos..end];
  }

  /** `yylex` called until it answers end-of-file. */
  method Tokenize(input: seq<byte>) returns (toks: seq<Token>)
    ensures toks == Tokens(input)
  {
    hide Best;
    toks := [];
    var pos, eof := 0, false;
    while pos < |input| && !eof
      invariant 0 <= pos <= |input|
      invariant if eof then toks == Tokens(input) else toks + Tokens(input[pos..]) == Tokens(input)
    {
      var act, end := MatchToken(input, pos);
      TokensFrom(input, pos, end);
      if act == 8 {
        eof := true;
      } else if act != 7 {
        toks := toks + [TokenOf(act, input[pos..end])];
      }
      pos := end;
    }
  }

  // ------------------------------------------------ facts about whole token lists

  lemma {:induction false} BestIsRule(s: seq<byte>, n: nat)
    requires 1 <= n <= |s|
    ensures Best(s, n).0 == FirstRule(s[..Best(s, n).1])
    ensures forall m :: Best(s, n).1 < m <= n ==> FirstRule(s[..m]) == 0
    decreases n
  {
    if n > 1 && FirstRule(s[..n]) == 0 { BestIsRule(s, n - 1); }
  }

  /** Every leaf token carries a text of its own kind. */
  lemma {:induction false} TokensWellFormed(s: seq<byte>)
    ensures forall t :: t in Tokens(s) && t.LeafToken? ==> LeafMatches(t.kind, t.text)
    decreases |s|
  {
    if s != [] {
      BestIsRule(s, |s|);
      TokensWellFormed(s[Best(s, |s|).1..]);
    }
  }

  /** A one-byte token or blank is recognised whatever follows it. */
  lemma SingleByteToken(b: byte, rest: seq<byte>)
    requires b == LPAREN || b == RPAREN || IsBlank(b)
    ensures Tokens([b] + rest) ==
            (if IsBlank(b) then [] else [if b == LPAREN then LBrace else RBrace]) + Tokens(rest)
  {
    var s := [b] + rest;
    assert s[..1] == [b] && s[1..] == rest;
    AcceptsFirstRule([b]);
    BestStops(s, 1, |s|);
  }

  /** Where no token and no blank begins, an unknown byte or a string that is never closed, the
      input ends. */
  lemma JunkEndsInput(s: seq<byte>)
    requires forall m :: 1 <= m <= |s| ==> FirstRule(s[..m]) == 0 || FirstRule(s[..m]) == 8
    ensures Tokens(s) == []
  {
    if s != [] { BestIsRule(s, |s|); }
  }

  function RuleOf(kind: Kind): int {
    match kind case SR => 3 case ID => 4 case DBL => 5 case INT => 6
  }

  predicate Delimited(rest: seq<byte>) { rest == [] || rest[0] == NEWLINE || rest[0] == RPAREN }

  lemma LeafRule(kind: Kind, text: seq<byte>)
    requires LeafMatches(kind, text)
    ensures text != [] && FirstRule(text) == RuleOf(kind)
    ensures kind == SR <==> StateOf(text) == 14
  {
    match kind
    case SR => StringSnoc(text[1..], 0);
    case ID => assert !IsD(text[0]);
    case DBL =>
      var k :| 1 <= k < |text| && DotAt(text, k);
      assert IsD(text[0]) && !IsD(text[k]);
    case INT => assert forall k :: 1 <= k < |text| ==> !DotAt(text, k);
  }

  lemma DelimiterJams(kind: Kind, text: seq<byte>, c: byte)
    requires LeafMatches(kind, text) && kind != SR && (c == NEWLINE || c == RPAREN)
    ensures YyBase(StateOf(text + [c])) == 27 && FirstRule(text + [c]) == 0
  {
    LeafRule(kind, text);
    AcceptsFirstRule(text);
    AcceptsFirstRule(text + [c]);
    StateStep(text, c);
    MoveTable(StateOf(text), Class(c));
  }

  lemma LeafBest(kind: Kind, text: seq<byte>, rest: seq<byte>)
    requires LeafMatches(kind, text) && Delimited(rest) && text != []
    ensures var s := text + rest; Best(s, |s|) == (RuleOf(kind), |text|)
  {
    var s, n := text + rest, |text|;
    LeafRule(kind, text);
    assert s[..n] == text;
    assert Best(s, n) == (RuleOf(kind), n);
    if kind == SR || rest == [] {
      BestStops(s, n, |s|);
    } else {
      assert s[..n + 1] == text + [rest[0]];
      DelimiterJams(kind, text, rest[0]);
      BestStops(s, n + 1, |s|);
    }
  }

  /** A leaf text is read back as one token of its kind when a delimiter or the
      end of input comes next. */
  lemma LeafTokenRead(kind: Kind, text: seq<byte>, rest: seq<byte>)
    requires LeafMatches(kind, text) && Delimited(rest)
    ensures Tokens(text + rest) == [LeafToken(kind, text)] + Tokens(rest)
  {
    assert text != [];
    LeafBest(kind, text, rest);
    assert (text + rest)[..|text|] == text && (text + rest)[|text|..] == rest;
  }
}
