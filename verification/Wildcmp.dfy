/** `ASConsole::wildcmp`: glob matching that remembers only the last `*`. */
module Wildcmp {

  /** A C string: the characters before the terminating NUL. */
  type CString = s: seq<char> | '\0' !in s

  /** `*p`, which is NUL at the end. */
  function At(s: CString, i: nat): char
    requires i <= |s|
  {
    if i < |s| then s[i] else '\0'
  }

  function ToLower(c: char): char {
    if 'A' <= c <= 'Z' then (c as int + 32) as char else c
  }

  predicate SameChar(caseSensitive: bool, x: char, y: char) {
    if caseSensitive then x == y else ToLower(x) == ToLower(y)
  }

  /** One pattern character that is not `*` against one character. */
  predicate Fits(cs: bool, w: char, c: char) { SameChar(cs, w, c) || w == '?' }

  /** The meaning of a pattern: `?` stands for any one character, `*` for any string. */
  predicate Matches(cs: bool, wild: seq<char>, data: seq<char>)
    decreases |wild|
  {
    if wild == [] then data == []
    else if wild[0] == '*' then exists k :: 0 <= k <= |data| && Matches(cs, wild[1..], data[k..])
    else data != [] && Fits(cs, wild[0], data[0]) && Matches(cs, wild[1..], data[1..])
  }

  /** Some suffix of `data` that starts at `from` or later matches. */
  ghost predicate SomeSuffix(cs: bool, wild: seq<char>, data: seq<char>, from: nat)
    requires from <= |data|
  {
    exists k :: from <= k <= |data| && Matches(cs, wild, data[k..])
  }

  /** A pattern piece without `*` fits the text of its own length. */
  ghost predicate FitsAll(cs: bool, q: seq<char>, data: seq<char>) {
    |q| == |data| && forall i :: 0 <= i < |q| ==> q[i] != '*' && Fits(cs, q[i], data[i])
  }

  lemma {:induction false} PeelPrefix(cs: bool, q: seq<char>, r: seq<char>, data: seq<char>)
    requires '*' !in q
    ensures Matches(cs, q + r, data) <==>
            |q| <= |data| && FitsAll(cs, q, data[..|q|]) && Matches(cs, r, data[|q|..])
    decreases |q|
  {
    if q == [] {
      assert q + r == r && data[0..] == data;
    } else {
      assert (q + r)[0] == q[0] && (q + r)[1..] == q[1..] + r;
      if data != [] {
        PeelPrefix(cs, q[1..], r, data[1..]);
        if |q| <= |data| {
          assert data[1..][|q| - 1..] == data[|q|..];
          assert data[1..][..|q| - 1] == data[..|q|][1..];
          assert data[..|q|][0] == data[0];
          assert FitsAll(cs, q, data[..|q|]) <==>
                 Fits(cs, q[0], data[0]) && FitsAll(cs, q[1..], data[..|q|][1..]) by {
            if FitsAll(cs, q[1..], data[..|q|][1..]) && Fits(cs, q[0], data[0]) {
              forall i | 0 <= i < |q| ensures q[i] != '*' && Fits(cs, q[i], data[..|q|][i]) {
                if i > 0 { assert q[i] == q[1..][i - 1] && data[..|q|][i] == data[..|q|][1..][i - 1]; }
              }
            }
          }
        }
      }
    }
  }

  /** The pattern since the last star, `wild[mp..w]`, fits `data[b..d]`: the attempt
      that starts at b has got to (w, d). */
  ghost predicate Attempt(cs: bool, wild: seq<char>, data: seq<char>, mp: nat, w: nat, b: nat, d: nat) {
    mp <= w <= |wild| && b <= d <= |data| && FitsAll(cs, wild[mp..w], data[b..d])
  }

  lemma AttemptIs(cs: bool, wild: seq<char>, data: seq<char>, mp: nat, w: nat, b: nat, d: nat, k: nat)
    requires Attempt(cs, wild, data, mp, w, b, d) && b <= k <= |data|
    ensures Matches(cs, wild[mp..], data[k..]) ==>
            k + (w - mp) <= |data| && Matches(cs, wild[w..], data[k + (w - mp)..])
    ensures Matches(cs, wild[mp..], data[b..]) <==> Matches(cs, wild[w..], data[d..])
  {
    var q := wild[mp..w];
    assert wild[mp..] == q + wild[w..];
    PeelPrefix(cs, q, wild[w..], data[k..]);
    PeelPrefix(cs, q, wild[w..], data[b..]);
    if k + |q| <= |data| { assert data[k..][|q|..] == data[k + |q|..]; }
    assert data[b..][|q|..] == data[d..] && data[b..][..|q|] == data[b..d];
  }

  /** A further star: the attempts before it may be forgotten. */
  lemma LastStarSuffices(cs: bool, wild: seq<char>, data: seq<char>, mp: nat, w: nat, b: nat, d: nat)
    requires Attempt(cs, wild, data, mp, w, b, d) && w < |wild| && wild[w] == '*'
    ensures SomeSuffix(cs, wild[mp..], data, b) <==> SomeSuffix(cs, wild[w + 1..], data, d)
  {
    var r := wild[w + 1..];
    assert wild[w..][1..] == r;
    if SomeSuffix(cs, wild[mp..], data, b) {
      var k :| b <= k <= |data| && Matches(cs, wild[mp..], data[k..]);
      AttemptIs(cs, wild, data, mp, w, b, d, k);
      var at := k + (w - mp);
      var j :| 0 <= j <= |data[at..]| && Matches(cs, r, data[at..][j..]);
      assert data[at..][j..] == data[at + j..];
    }
    if SomeSuffix(cs, r, data, d) {
      var k :| d <= k <= |data| && Matches(cs, r, data[k..]);
      assert data[d..][k - d..] == data[k..];
      assert Matches(cs, wild[w..], data[d..]);
      AttemptIs(cs, wild, data, mp, w, b, d, b);
      assert Matches(cs, wild[mp..], data[b..]);
    }
  }

  /** The attempt at b fails: only later ones remain. */
  lemma AttemptFails(cs: bool, wild: seq<char>, data: seq<char>, mp: nat, w: nat, b: nat, d: nat)
    requires Attempt(cs, wild, data, mp, w, b, d) && d < |data|
    requires w == |wild| || (wild[w] != '*' && !Fits(cs, wild[w], data[d]))
    ensures b < |data| && (SomeSuffix(cs, wild[mp..], data, b) <==> SomeSuffix(cs, wild[mp..], data, b + 1))
  {
    AttemptIs(cs, wild, data, mp, w, b, d, b);
    assert data[d..] != [] && data[d..][0] == data[d];
    assert !Matches(cs, wild[w..], data[d..]);
  }

  /** The data has run out: a later attempt would be too short. */
  lemma AttemptAtEnd(cs: bool, wild: seq<char>, data: seq<char>, mp: nat, w: nat, b: nat)
    requires Attempt(cs, wild, data, mp, w, b, |data|)
    ensures SomeSuffix(cs, wild[mp..], data, b) <==> Matches(cs, wild[w..], [])
  {
    AttemptIs(cs, wild, data, mp, w, b, |data|, b);
    assert data[|data|..] == [];
    if SomeSuffix(cs, wild[mp..], data, b) {
      var k :| b <= k <= |data| && Matches(cs, wild[mp..], data[k..]);
      AttemptIs(cs, wild, data, mp, w, b, |data|, k);
      assert k == b;
    }
  }

  lemma AttemptStarts(cs: bool, wild: seq<char>, data: seq<char>, w: nat, d: nat)
    requires w <= |wild| && d <= |data|
    ensures Attempt(cs, wild, data, w, w, d, d)
  {
  }

  lemma AttemptGrows(cs: bool, wild: seq<char>, data: seq<char>, mp: nat, w: nat, b: nat, d: nat)
    requires Attempt(cs, wild, data, mp, w, b, d) && w < |wild| && d < |data|
    requires wild[w] != '*' && Fits(cs, wild[w], data[d])
    ensures Attempt(cs, wild, data, mp, w + 1, b, d + 1)
  {
    assert wild[mp..w + 1] == wild[mp..w] + [wild[w]] && data[b..d + 1] == data[b..d] + [data[d]];
  }

  lemma StarIsSomeSuffix(cs: bool, wild: seq<char>, data: seq<char>, w: nat, d: nat)
    requires w < |wild| && wild[w] == '*' && d <= |data|
    ensures Matches(cs, wild[w..], data[d..]) <==> SomeSuffix(cs, wild[w + 1..], data, d)
  {
    assert wild[w..][1..] == wild[w + 1..];
    forall k | 0 <= k <= |data[d..]| ensures data[d..][k..] == data[d + k..] {}
    if SomeSuffix(cs, wild[w + 1..], data, d) {
      var k :| d <= k <= |data| && Matches(cs, wild[w + 1..], data[k..]);
      assert data[d..][k - d..] == data[k..];
    }
  }

  lemma EmptyDataNeedsStars(cs: bool, wild: seq<char>)
    ensures Matches(cs, wild, []) <==> wild == [] || (wild[0] == '*' && Matches(cs, wild[1..], []))
  {
    var empty: seq<char> := [];
    if wild != [] && wild[0] == '*' {
      assert forall k :: 0 <= k <= |empty| ==> empty[k..] == [];
      if Matches(cs, wild[1..], []) { assert Matches(cs, wild[1..], empty[0..]); }
    }
  }

  lemma OneChar(cs: bool, wild: CString, data: CString, w: nat, d: nat)
    requires w <= |wild| && d < |data| && At(wild, w) != '*'
    ensures Matches(cs, wild[w..], data[d..]) <==>
            w < |wild| && Fits(cs, wild[w], data[d]) && Matches(cs, wild[w + 1..], data[d + 1..])
    ensures Fits(cs, At(wild, w), data[d]) ==> w < |wild|
  {
    if w < |wild| {
      assert wild[w..][1..] == wild[w + 1..] && data[d..][1..] == data[d + 1..];
    }
  }

  lemma EmptyMatchesEnd(cs: bool, wild: seq<char>, data: seq<char>, d: nat)
    requires wild == [] && d <= |data|
    ensures SomeSuffix(cs, wild, data, d)
  {
    assert Matches(cs, wild, data[|data|..]);
  }

  /** `wildcmp` terminates and returns true exactly when the data matches. */
  method Compare(cs: bool, wild: CString, data: CString) returns (r: bool)
    ensures r <==> Matches(cs, wild, data)
  {
    hide Matches, SomeSuffix, FitsAll;
    var w, d: nat := 0, 0;
    assert wild[0..] == wild && data[0..] == data;
    while At(data, d) != '\0' && At(wild, w) != '*'
      invariant w <= |wild| && d <= |data|
      invariant Matches(cs, wild, data) <==> Matches(cs, wild[w..], data[d..])
      decreases |data| - d
    {
      OneChar(cs, wild, data, w, d);
      var cmpval := !SameChar(cs, At(wild, w), At(data, d)) && At(wild, w) != '?';
      if cmpval {
        return false;
      }
      w, d := w + 1, d + 1;
    }
    var mp, cp: nat := 0, 0;
    ghost var starred := false;
    if d < |data| { StarIsSomeSuffix(cs, wild, data, w, d); }
    while At(data, d) != '\0'
      invariant w <= |wild| && d <= |data|
      invariant !starred ==> (Matches(cs, wild, data) <==> Matches(cs, wild[w..], data[d..]))
      invariant !starred && d < |data| ==> w < |wild| && wild[w] == '*'
      invariant starred ==> 1 <= cp <= |data| + 1 && Attempt(cs, wild, data, mp, w, cp - 1, d)
      invariant starred ==> (Matches(cs, wild, data) <==> SomeSuffix(cs, wild[mp..], data, cp - 1))
      decreases if starred then |wild| - mp else |wild| + 1, if starred then |data| - cp else 0, |data| - d
    {
      if At(wild, w) == '*' {
        if starred {
          LastStarSuffices(cs, wild, data, mp, w, cp - 1, d);
        } else {
          StarIsSomeSuffix(cs, wild, data, w, d);
        }
        w := w + 1;
        if At(wild, w) == '\0' {
          EmptyMatchesEnd(cs, wild[w..], data, d);
          return true;
        }
        mp, cp, starred := w, d + 1, true;
        AttemptStarts(cs, wild, data, w, d);
      } else {
        var cmpval := SameChar(cs, At(wild, w), At(data, d)) || At(wild, w) == '?';
        if cmpval {
          AttemptGrows(cs, wild, data, mp, w, cp - 1, d);
          w, d := w + 1, d + 1;
        } else {
          AttemptFails(cs, wild, data, mp, w, cp - 1, d);
          w, d, cp := mp, cp, cp + 1;
          AttemptStarts(cs, wild, data, w, d);
        }
      }
    }
    if starred { AttemptAtEnd(cs, wild, data, mp, w, cp - 1); }
    assert data[d..] == [];
    while At(wild, w) == '*'
      invariant w <= |wild|
      invariant Matches(cs, wild, data) <==> Matches(cs, wild[w..], [])
      decreases |wild| - w
    {
      EmptyDataNeedsStars(cs, wild[w..]);
      assert wild[w..][1..] == wild[w + 1..];
      w := w + 1;
    }
    EmptyDataNeedsStars(cs, wild[w..]);
    r := At(wild, w) == '\0';
  }

  // --------------------------------------------- what a pattern means, spelled out

  /** A `*` stands for any string. */
  lemma StarIsAnyString(cs: bool, wild: seq<char>, data: seq<char>)
    ensures Matches(cs, ['*'] + wild, data) <==> exists pre, post :: pre + post == data && Matches(cs, wild, post)
  {
    assert (['*'] + wild)[1..] == wild;
    if Matches(cs, ['*'] + wild, data) {
      var k :| 0 <= k <= |data| && Matches(cs, wild, data[k..]);
      assert data[..k] + data[k..] == data;
    }
    if exists pre, post :: pre + post == data && Matches(cs, wild, post) {
      var pre, post :| pre + post == data && Matches(cs, wild, post);
      assert data[|pre|..] == post;
    }
  }

  /** The characters are equal but for the case of a letter. */
  predicate SameLetter(x: char, y: char) {
    || x == y
    || ('A' <= x <= 'Z' && y as int == x as int + 32)
    || ('A' <= y <= 'Z' && x as int == y as int + 32)
  }

  /** Without a `*` a pattern is compared place by place: a `?` is any character, any other
      character is itself, or with case off also the other case of a letter. */
  lemma {:induction false} PlainPattern(cs: bool, wild: seq<char>, data: seq<char>)
    requires '*' !in wild
    ensures Matches(cs, wild, data) <==>
      && |wild| == |data|
      && forall i :: 0 <= i < |wild| ==>
           wild[i] == '?' || (if cs then wild[i] == data[i] else SameLetter(wild[i], data[i]))
    decreases |wild|
  {
    if wild != [] && data != [] {
      PlainPattern(cs, wild[1..], data[1..]);
      if |wild| == |data| && Matches(cs, wild[1..], data[1..]) {
        forall i | 1 <= i < |wild|
          ensures wild[i] == '?' || (if cs then wild[i] == data[i] else SameLetter(wild[i], data[i]))
        {
          assert wild[i] == wild[1..][i - 1] && data[i] == data[1..][i - 1];
        }
      }
    }
  }

  /** With case on, a pattern without `*` and `?` matches itself and nothing else. */
  lemma LiteralPattern(wild: seq<char>, data: seq<char>)
    requires '*' !in wild && '?' !in wild
    ensures Matches(true, wild, data) <==> wild == data
    ensures Matches(false, wild, data) <==>
            |wild| == |data| && forall i :: 0 <= i < |wild| ==> SameLetter(wild[i], data[i])
  {
    PlainPattern(true, wild, data);
    PlainPattern(false, wild, data);
  }
}
