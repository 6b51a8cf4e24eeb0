/** Facts about finite sets that several models use. */
module SetFacts {

  lemma Inhabited<T>(s: set<T>)
    ensures s == {} || exists x :: x in s
  {
    if forall x :: x !in s { assert s == {}; }
  }

  /** Some element of a set that is not empty. */
  lemma Pick<T>(s: set<T>) returns (x: T)
    requires |s| > 0
    ensures x in s
  {
    Inhabited(s);
    x :| x in s;
  }
}
