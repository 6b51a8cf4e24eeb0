/** `BlockingSLinkedListQueue` on explicit pointers: entries are numbers, their next
    fields a map, and a list is its head and tail.  Each operation is what the queue
    does under its mutex. */
module SList {

  const NIL := -1

  datatype List = List(head: int, tail: int)

  type Links = map<int, int>

  /** Following next from ptr visits exactly q and then ends. */
  ghost predicate Chain(next: Links, ptr: int, q: seq<int>) {
    && ptr == (if q == [] then NIL else q[0])
    && (forall i :: 0 <= i < |q| ==> q[i] in next && q[i] != NIL)
    && (forall i {:trigger q[i]} :: 0 <= i < |q| ==> next[q[i]] == if i + 1 < |q| then q[i + 1] else NIL)
    && (forall i, j :: 0 <= i < j < |q| ==> q[i] != q[j])
  }

  ghost predicate Holds(next: Links, l: List, q: seq<int>) {
    Chain(next, l.head, q) && l.tail == if q == [] then NIL else q[|q| - 1]
  }

  predicate Empty(l: List) { l.head == l.tail && l.head == NIL }

  /** `push` */
  function PushLinks(next: Links, l: List, x: int): Links {
    var cleared := next[x := NIL];
    if Empty(l) then cleared else cleared[l.tail := x]
  }

  function PushList(l: List, x: int): List {
    if Empty(l) then List(x, x) else List(l.head, x)
  }

  /** `push_front` */
  function PushFrontLinks(next: Links, l: List, x: int): Links {
    if Empty(l) then next[x := NIL] else next[x := l.head]
  }

  function PushFrontList(l: List, x: int): List {
    if Empty(l) then List(x, x) else List(x, l.tail)
  }

  /** `pop`, of a list that is not empty: the head leaves with its next field cleared. */
  function PopLinks(next: Links, l: List): Links { next[l.head := NIL] }

  function PopList(next: Links, l: List): List
    requires l.head in next
  {
    if next[l.head] == NIL then List(NIL, NIL) else List(next[l.head], l.tail)
  }

  lemma PushHolds(next: Links, l: List, q: seq<int>, x: int)
    requires Holds(next, l, q) && x !in q && x != NIL
    ensures Holds(PushLinks(next, l, x), PushList(l, x), q + [x])
  {
    var next', q' := PushLinks(next, l, x), q + [x];
    forall i | 0 <= i < |q'| ensures next'[q'[i]] == if i + 1 < |q'| then q'[i + 1] else NIL {
      if i < |q| { assert q'[i] == q[i]; }
    }
  }

  lemma PushFrontHolds(next: Links, l: List, q: seq<int>, x: int)
    requires Holds(next, l, q) && x !in q && x != NIL
    ensures Holds(PushFrontLinks(next, l, x), PushFrontList(l, x), [x] + q)
  {
    var next', q' := PushFrontLinks(next, l, x), [x] + q;
    forall i | 0 <= i < |q'| ensures next'[q'[i]] == if i + 1 < |q'| then q'[i + 1] else NIL {
      if i > 0 { assert q'[i] == q[i - 1]; }
    }
  }

  lemma PopHolds(next: Links, l: List, q: seq<int>)
    requires Holds(next, l, q) && q != []
    ensures l.head in next && l.head == q[0]
    ensures Holds(PopLinks(next, l), PopList(next, l), q[1..])
  {
    var q' := q[1..];
    assert next[q[0]] == if 1 < |q| then q[1] else NIL;
    forall i | 0 <= i < |q'| ensures q'[i] == q[i + 1] && q'[i] != q[0] {}
  }

  /** The first entry of a chain is read off; the rest is a chain. */
  lemma ChainTail(next: Links, ptr: int, q: seq<int>)
    requires Chain(next, ptr, q) && q != []
    ensures ptr in next && ptr == q[0] && Chain(next, next[ptr], q[1..]) && ptr !in q[1..]
  {
    var q' := q[1..];
    assert next[q[0]] == if 1 < |q| then q[1] else NIL;
    forall i | 0 <= i < |q'| ensures q'[i] == q[i + 1] {}
  }

  /** Links outside a chain do not matter to it. */
  lemma ChainFrame(next: Links, next': Links, ptr: int, q: seq<int>)
    requires Chain(next, ptr, q)
    requires forall x :: x in q ==> x in next' && next'[x] == next[x]
    ensures Chain(next', ptr, q)
  {
  }
}
