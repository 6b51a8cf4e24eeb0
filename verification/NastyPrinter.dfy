/** The printer of nasty, and the law it is for: scanning and parsing what was
    printed gives the tree back. */
module NastyPrinter {
  import opened Octets
  import opened NastyLexer
  import opened NastyParser

  /** `std::ostream`: text that only grows. */
  class Stream {
    var text: seq<byte>
    constructor ()
      ensures text == []
    {
      text := [];
    }
  }

  function Repeat(n: int, c: byte): (r: seq<byte>)
    decreases n
  {
    if n <= 0 then [] else [c] + Repeat(n - 1, c)
  }

  // ------------------------------------------------------ what write produces

  /** Text written and the parentheses still owed, when `lbrace` are owed on entry. */
  function WriteAtoms(e: Expr, indent: int, lbrace: int): (seq<byte>, int)
    decreases e
  {
    if e == [] then ([], lbrace)
    else
      var (first, owed) := WriteAtom(e[0], indent, lbrace);
      if |e| == 1 then (first, owed)
      else
        var (others, owed') := WriteAtoms(e[1..], indent, owed);
        (first + [NEWLINE] + others, owed')
  }

  function WriteAtom(a: Atom, indent: int, lbrace: int): (seq<byte>, int)
    decreases a
  {
    match a
    case Ex(atoms) =>
      var (inner, owed) := WriteAtoms(atoms, indent + 1, lbrace + 1);
      (inner + [RPAREN], owed)
    case Leaf(_, text) =>
      (Repeat(if lbrace != 0 then indent - 1 else indent, SPACE) + Repeat(lbrace, LPAREN) + text, 0)
  }

  function Print(e: Expr): seq<byte> { WriteAtoms(e, 0, 0).0 }

  // -------------------------------------------------------- the printer itself

  method WriteRepeated(os: Stream, n: int, c: byte)
    modifies os
    ensures os.text == old(os.text) + Repeat(n, c)
  {
    var i := 0;
    while i < n
      invariant 0 <= i && (i <= n || i == 0)
      invariant os.text + Repeat(n - i, c) == old(os.text) + Repeat(n, c)
    {
      os.text := os.text + [c];
      i := i + 1;
    }
  }

  /** `Expr::write`; the by-reference counter is taken and handed back. */
  method WriteExprTo(e: Expr, os: Stream, indent: int, lbrace: int) returns (owed: int)
    modifies os
    ensures os.text == old(os.text) + WriteAtoms(e, indent, lbrace).0
    ensures owed == WriteAtoms(e, indent, lbrace).1
    decreases e
  {
    owed := lbrace;
    var i := 0;
    while i < |e|
      invariant 0 <= i <= |e|
      invariant os.text + WriteAtoms(e[i..], indent, owed).0 == old(os.text) + WriteAtoms(e, indent, lbrace).0
      invariant WriteAtoms(e[i..], indent, owed).1 == WriteAtoms(e, indent, lbrace).1
    {
      assert e[i..][1..] == e[i + 1..];
      owed := WriteAtomTo(e[i], os, indent, owed);
      if i + 1 != |e| {
        os.text := os.text + [NEWLINE];
      }
      i := i + 1;
    }
  }

  /** `Atom::write`. */
  method WriteAtomTo(a: Atom, os: Stream, indent: int, lbrace: int) returns (owed: int)
    modifies os
    ensures os.text == old(os.text) + WriteAtom(a, indent, lbrace).0
    ensures owed == WriteAtom(a, indent, lbrace).1
    decreases a
  {
    match a
    case Ex(atoms) =>
      owed := WriteExprTo(atoms, os, indent + 1, lbrace + 1);
      os.text := os.text + [RPAREN];
    case Leaf(_, text) =>
      WriteRepeated(os, if lbrace != 0 then indent - 1 else indent, SPACE);
      WriteRepeated(os, lbrace, LPAREN);
      owed := 0;
      os.text := os.text + text;
  }

  method ToString(e: Expr) returns (s: seq<byte>)
    ensures s == Print(e)
  {
    var oss := new Stream();
    var lbrace := WriteExprTo(e, oss, 0, 0);
    s := oss.text;
  }

  // ------------------------------------------------------------- the round trip

  predicate LeavesMatch(e: Expr)
    decreases e
  {
    forall i :: 0 <= i < |e| ==> LeafTextsMatch(e[i])
  }

  predicate LeafTextsMatch(a: Atom)
    decreases a
  {
    match a
    case Leaf(kind, text) => LeafMatches(kind, text)
    case Ex(atoms) => LeavesMatch(atoms)
  }

  /** No empty expression, and every leaf text is one of its kind. */
  predicate WellFormed(e: Expr) { Productive(e) && LeavesMatch(e) }

  function LBraces(n: int): seq<Token>
    decreases n
  {
    if n <= 0 then [] else [LBrace] + LBraces(n - 1)
  }

  lemma {:induction false} RepeatedTokens(n: int, c: byte, rest: seq<byte>)
    requires c == SPACE || c == LPAREN
    ensures Tokens(Repeat(n, c) + rest) == (if c == SPACE then [] else LBraces(n)) + Tokens(rest)
    decreases n
  {
    hide Tokens;
    if n <= 0 {
      assert Repeat(n, c) + rest == rest;
    } else {
      assert Repeat(n, c) + rest == [c] + (Repeat(n - 1, c) + rest);
      SingleByteToken(c, Repeat(n - 1, c) + rest);
      RepeatedTokens(n - 1, c, rest);
    }
  }

  lemma {:induction false} LBracesSnoc(n: int)
    requires n >= 0
    ensures LBraces(n + 1) == LBraces(n) + [LBrace]
  {
    if n > 0 { LBracesSnoc(n - 1); }
  }

  lemma {:induction false} YieldCons(e: Expr)
    requires e != []
    ensures Yield(e) == YieldAtom(e[0]) + Yield(e[1..])
    decreases |e|
  {
    var n := |e| - 1;
    if n > 0 {
      YieldCons(e[..n]);
      assert e[..n][1..] == e[1..][..n - 1];
      assert Yield(e[1..]) == Yield(e[1..][..n - 1]) + YieldAtom(e[n]);
    }
  }

  /** What an atom prints is read as the parentheses owed before it and then its
      own tokens, whatever delimited text follows. */
  lemma {:induction false} AtomTokens(a: Atom, indent: int, lbrace: int, rest: seq<byte>)
    requires ProductiveAtom(a) && LeafTextsMatch(a) && lbrace >= 0 && Delimited(rest)
    ensures var (text, owed) := WriteAtom(a, indent, lbrace);
            owed == 0 && Tokens(text + rest) == LBraces(lbrace) + YieldAtom(a) + Tokens(rest)
    decreases a
  {
    hide Tokens, Delimited;
    match a
    case Leaf(kind, text) =>
      var spaces := Repeat(if lbrace != 0 then indent - 1 else indent, SPACE);
      var parens := Repeat(lbrace, LPAREN);
      assert spaces + parens + text + rest == spaces + (parens + (text + rest));
      RepeatedTokens(if lbrace != 0 then indent - 1 else indent, SPACE, parens + (text + rest));
      RepeatedTokens(lbrace, LPAREN, text + rest);
      LeafTokenRead(kind, text, rest);
    case Ex(atoms) =>
      var inner := WriteAtoms(atoms, indent + 1, lbrace + 1).0;
      assert Delimited([RPAREN] + rest) by { ParenDelimits(rest); }
      ExprTokens(atoms, indent + 1, lbrace + 1, [RPAREN] + rest);
      assert inner + [RPAREN] + rest == inner + ([RPAREN] + rest);
      SingleByteToken(RPAREN, rest);
      LBracesSnoc(lbrace);
      assert LBraces(lbrace + 1) + Yield(atoms) + ([RBrace] + Tokens(rest))
          == LBraces(lbrace) + YieldAtom(a) + Tokens(rest);
  }

  lemma ParenDelimits(rest: seq<byte>)
    ensures Delimited([RPAREN] + rest) && Delimited([NEWLINE] + rest)
  {
  }

  lemma {:induction false} ExprTokens(e: Expr, indent: int, lbrace: int, rest: seq<byte>)
    requires WellFormed(e) && lbrace >= 0 && Delimited(rest)
    ensures var (text, owed) := WriteAtoms(e, indent, lbrace);
            owed == 0 && Tokens(text + rest) == LBraces(lbrace) + Yield(e) + Tokens(rest)
    decreases e
  {
    hide Tokens, Delimited;
    YieldCons(e);
    var first := WriteAtom(e[0], indent, lbrace).0;
    if |e| == 1 {
      AtomTokens(e[0], indent, lbrace, rest);
      assert Yield(e[1..]) == [];
    } else {
      var others := WriteAtoms(e[1..], indent, 0).0;
      var after := [NEWLINE] + (others + rest);
      assert Delimited(after) by { ParenDelimits(others + rest); }
      AtomTokens(e[0], indent, lbrace, after);
      SingleByteToken(NEWLINE, others + rest);
      ExprTokens(e[1..], indent, 0, rest);
      assert first + [NEWLINE] + others + rest == first + after;
    }
  }

  lemma {:induction false} LeavesFromTokens(e: Expr)
    requires forall t :: t in Yield(e) && t.LeafToken? ==> LeafMatches(t.kind, t.text)
    ensures LeavesMatch(e)
    decreases e
  {
    if e != [] {
      var n := |e| - 1;
      var a := e[n];
      LeavesFromTokens(e[..n]);
      assert forall t :: t in YieldAtom(a) ==> t in Yield(e);
      match a
      case Leaf(kind, text) => assert LeafToken(kind, text) in YieldAtom(a);
      case Ex(atoms) =>
        assert forall t :: t in Yield(atoms) ==> t in YieldAtom(a);
        LeavesFromTokens(atoms);
      assert forall i :: 0 <= i < n ==> e[i] == e[..n][i];
    }
  }

  /** Printing a tree, scanning the text with the tables and parsing the tokens
      gives the same tree exactly when it has no empty expression and every leaf
      text belongs to its kind.  (An empty expression prints its `)` before the
      `(` it owes, so it is never read back.) */
  lemma RoundTrip(e: Expr)
    ensures ParseTokens(Tokens(Print(e))) == Some(e) <==> WellFormed(e)
  {
    hide Tokens, ParseTokens, LeavesMatch;
    var text := Print(e);
    ParseIsGrammar(e, Tokens(text));
    if WellFormed(e) {
      ExprTokens(e, 0, 0, []);
      assert text + [] == text && Tokens([]) == [] by { NoTokens(); }
      assert LBraces(0) + Yield(e) + [] == Yield(e);
    }
    if Derives(e, Tokens(text)) {
      TokensWellFormed(text);
      LeavesFromTokens(e);
    }
  }

  lemma NoTokens()
    ensures Tokens([]) == []
  {
  }

  /** Whatever text a tree was parsed from, printing it gives a text that parses
      to the same tree. */
  lemma PrintNormalises(text: seq<byte>)
    ensures var parsed := ParseTokens(Tokens(text));
            parsed.Some? ==> WellFormed(parsed.value) && ParseTokens(Tokens(Print(parsed.value))) == parsed
  {
    hide Tokens, ParseTokens, LeavesMatch;
    var parsed := ParseTokens(Tokens(text));
    if parsed.Some? {
      ParseIsGrammar(parsed.value, Tokens(text));
      TokensWellFormed(text);
      LeavesFromTokens(parsed.value);
      RoundTrip(parsed.value);
    }
  }

  /** `Parser::run` on the contents of the file. */
  method ParseText(text: seq<byte>) returns (result: Option<Expr>)
    ensures result == ParseTokens(Tokens(text))
    ensures result.Some? ==> WellFormed(result.value) && ParseTokens(Tokens(Print(result.value))) == result
  {
    hide Tokens, ParseTokens, LeavesMatch;
    var toks := Tokenize(text);
    ghost var trace;
    result, trace := Parse(toks);
    PrintNormalises(text);
  }
}
