/** Lists of index lists, as the search programs collect them. */
module ListFacts {

  ghost predicate Distinct(list: seq<seq<int>>) {
    forall x, y :: 0 <= x < y < |list| ==> list[x] != list[y]
  }

  /** p comes before q when lists are read from the left. */
  ghost predicate Earlier(p: seq<int>, q: seq<int>)
    decreases |p|
  {
    p != [] && q != [] && (p[0] < q[0] || (p[0] == q[0] && Earlier(p[1..], q[1..])))
  }

  ghost predicate Ascending(list: seq<seq<int>>) {
    forall x, y :: 0 <= x < y < |list| ==> Earlier(list[x], list[y])
  }

  /** Every list with e in front. */
  ghost function Prepend(e: int, list: seq<seq<int>>): (r: seq<seq<int>>)
    ensures |r| == |list|
  {
    seq(|list|, x requires 0 <= x < |list| => [e] + list[x])
  }

  lemma InPrepend(e: int, list: seq<seq<int>>, c: seq<int>)
    ensures c in Prepend(e, list) <==> c != [] && c[0] == e && c[1..] in list
  {
    var r := Prepend(e, list);
    if c in r {
      var x :| 0 <= x < |r| && r[x] == c;
      assert c[1..] == list[x];
    }
    if c != [] && c[0] == e && c[1..] in list {
      var x :| 0 <= x < |list| && list[x] == c[1..];
      assert r[x] == c;
    }
  }
}
