/** The intrusive queues `BlockingDLinkedListQueue` and `BlockingSLinkedListQueue`.  The mutex
    makes each method one step; waiting for an element is not modelled, so pop on an empty
    queue is the timed-out call that returns false. */
module LinkedQueue {

  class Node {
    var prev: Node?
    var next: Node?
    constructor () { prev, next := null, null; }
  }

  class DLinkedListQueue {
    var head: Node?
    var tail: Node?
    ghost var Items: seq<Node>

    /** The fields spell out exactly these nodes, in both directions. */
    ghost predicate Holds(items: seq<Node>)
      reads this, items
    {
      && (forall i, j :: 0 <= i < j < |items| ==> items[i] != items[j])
      && (if items == [] then head == null && tail == null
          else head == items[0] && tail == items[|items| - 1]
               && items[0].prev == null && items[|items| - 1].next == null)
      && (forall i {:trigger items[i].prev} :: 1 <= i < |items| ==> items[i].prev == items[i - 1])
      && (forall i {:trigger items[i].next} :: 0 <= i < |items| - 1 ==> items[i].next == items[i + 1])
    }

    ghost predicate Valid()
      reads this, Items
    {
      Holds(Items)
    }

    constructor ()
      ensures Valid() && Items == []
    {
      head, tail, Items := null, null, [];
    }

    predicate Empty()
      reads this
    {
      head == tail && head == null
    }

    method Push(item: Node)
      requires Valid() && item !in Items
      modifies this, item, Items
      ensures Valid() && Items == old(Items) + [item]
    {
      item.next := null;
      if Empty() {
        head, tail := item, item;
        item.prev := null;
      } else {
        tail.next := item;
        item.prev := tail;
        tail := item;
      }
      Items := Items + [item];
    }

    method PushFront(item: Node)
      requires Valid() && item !in Items
      modifies this, item, Items
      ensures Valid() && Items == [item] + old(Items)
    {
      item.prev := null;
      if Empty() {
        head, tail := item, item;
        item.next := null;
      } else {
        item.next := head;
        head.prev := item;
        head := item;
      }
      Items := [item] + Items;
    }

    method Pop() returns (ok: bool, v: Node?)
      requires Valid()
      modifies this, Items
      ensures Valid() && (ok <==> old(Items) != [])
      ensures ok ==> v == old(Items)[0] && Items == old(Items)[1..] && v.prev == null && v.next == null
      ensures !ok ==> v == null && Items == []
    {
      if Empty() {
        return false, null;
      }
      var x := head;
      head := head.next;
      if head == null {
        tail := null;
      } else {
        head.prev := null;
      }
      x.prev := null;
      x.next := null;
      Items := Items[1..];
      return true, x;
    }

    /** Take the whole chain away; it stays linked. */
    method Clear() returns (v: Node?)
      requires Valid()
      modifies this
      ensures Valid() && Items == [] && Chained(v, old(Items))
    {
      v := head;
      head, tail, Items := null, null, [];
    }

    method Remove(x: Node, ghost k: int)
      requires Valid() && 0 <= k < |Items| && Items[k] == x
      modifies this, Items
      ensures Valid() && Items == old(Items)[..k] + old(Items)[k + 1..]
    {
      if head == x && tail == x {
        head, tail := null, null;
      } else if head == x {
        head := x.next;
        head.prev := null;
      } else if tail == x {
        tail := x.prev;
        tail.next := null;
      } else {
        x.prev.next := x.next;
        x.next.prev := x.prev;
      }
      Items := Items[..k] + Items[k + 1..];
    }

    /** `replace` never touches head_ and tail_: afterwards the queue holds n in the place
        of o exactly when o was neither first nor last. */
    method Replace(o: Node, n: Node, ghost k: int)
      requires Valid() && 0 <= k < |Items| && Items[k] == o && n !in Items
      modifies this, n, Items
      ensures Holds(old(Items)[k := n]) <==> 0 < k < |old(Items)| - 1
      ensures Items == old(Items)[k := n] && head == old(head) && tail == old(tail)
    {
      if o.prev != null {
        o.prev.next := n;
      }
      n.prev := o.prev;
      if o.next != null {
        o.next.prev := n;
      }
      n.next := o.next;
      Items := Items[k := n];
    }
  }

  /** At most `steps` nodes along next, staying within `nodes`. */
  ghost function Forward(n: Node?, steps: nat, nodes: set<Node>): seq<Node>
    reads nodes
  {
    if steps == 0 || n == null || n !in nodes then [] else [n] + Forward(n.next, steps - 1, nodes)
  }

  ghost function Backward(n: Node?, steps: nat, nodes: set<Node>): seq<Node>
    reads nodes
  {
    if steps == 0 || n == null || n !in nodes then [] else [n] + Backward(n.prev, steps - 1, nodes)
  }

  ghost function Reverse(s: seq<Node>): (r: seq<Node>)
    ensures |r| == |s|
  {
    if s == [] then [] else [s[|s| - 1]] + Reverse(s[..|s| - 1])
  }

  lemma {:induction false} ForwardFrom(q: DLinkedListQueue, i: nat, steps: nat)
    requires q.Valid() && i < |q.Items| && steps >= |q.Items| - i
    ensures Forward(q.Items[i], steps, set x | x in q.Items) == q.Items[i..]
    decreases |q.Items| - i
  {
    if i + 1 < |q.Items| { ForwardFrom(q, i + 1, steps - 1); }
  }

  lemma {:induction false} BackwardFrom(q: DLinkedListQueue, i: nat, steps: nat)
    requires q.Valid() && i < |q.Items| && steps > i
    ensures Backward(q.Items[i], steps, set x | x in q.Items) == Reverse(q.Items[..i + 1])
    decreases i
  {
    assert q.Items[..i + 1][..i] == q.Items[..i];
    if i > 0 { BackwardFrom(q, i - 1, steps - 1); }
  }

  /** Following next from head gives the abstract sequence and following prev from tail
      gives its exact reverse, however many steps are allowed. */
  lemma ChainsAreReverses(q: DLinkedListQueue, steps: nat)
    requires q.Valid() && steps >= |q.Items|
    ensures Forward(q.head, steps, set x | x in q.Items) == q.Items
    ensures Backward(q.tail, steps, set x | x in q.Items) == Reverse(q.Items)
  {
    var n := |q.Items|;
    if n > 0 {
      ForwardFrom(q, 0, steps);
      BackwardFrom(q, n - 1, steps);
      assert q.Items[0..] == q.Items && q.Items[..n] == q.Items;
    }
  }

  /** `BlockingSLinkedListQueue`: the same queue, linked forward only. */
  class SLinkedListQueue {
    var head: Node?
    var tail: Node?
    ghost var Items: seq<Node>

    ghost predicate Valid()
      reads this, Items
    {
      && (if Items == [] then head == null && tail == null else tail == Items[|Items| - 1])
      && Chained(head, Items)
    }

    constructor ()
      ensures Valid() && Items == []
    {
      head, tail, Items := null, null, [];
    }

    predicate Empty()
      reads this
    {
      head == tail && head == null
    }

    method Push(item: Node)
      requires Valid() && item !in Items
      modifies this, item, Items
      ensures Valid() && Items == old(Items) + [item]
    {
      item.next := null;
      if Empty() {
        head, tail := item, item;
      } else {
        tail.next := item;
        tail := item;
      }
      Items := Items + [item];
    }

    method PushFront(item: Node)
      requires Valid() && item !in Items
      modifies this, item
      ensures Valid() && Items == [item] + old(Items)
    {
      if Empty() {
        head, tail := item, item;
        item.next := null;
      } else {
        item.next := head;
        head := item;
      }
      Items := [item] + Items;
    }

    method Pop() returns (ok: bool, v: Node?)
      requires Valid()
      modifies this, Items
      ensures Valid() && (ok <==> old(Items) != [])
      ensures ok ==> v == old(Items)[0] && Items == old(Items)[1..] && v.next == null
      ensures !ok ==> v == null && Items == []
    {
      if Empty() {
        return false, null;
      }
      var x := head;
      head := head.next;
      if head == null {
        tail := null;
      }
      x.next := null;
      Items := Items[1..];
      return true, x;
    }

    /** Take the whole chain away; it stays linked. */
    method Clear() returns (v: Node?)
      requires Valid()
      modifies this
      ensures Valid() && Items == [] && Chained(v, old(Items))
    {
      v := head;
      head, tail, Items := null, null, [];
    }
  }

  /** Following next from v visits exactly items. */
  ghost predicate Chained(v: Node?, items: seq<Node>)
    reads items
  {
    && (forall i, j :: 0 <= i < j < |items| ==> items[i] != items[j])
    && v == (if items == [] then null else items[0])
    && (items != [] ==> items[|items| - 1].next == null)
    && (forall i {:trigger items[i].next} :: 0 <= i < |items| - 1 ==> items[i].next == items[i + 1])
  }

  /** The drain loop of a thread that has cleared a queue: each node once, in order. */
  method Drain(v: Node?, ghost items: seq<Node>) returns (visited: seq<Node>)
    requires Chained(v, items)
    ensures visited == items
  {
    var ctx := v;
    visited := [];
    while ctx != null
      invariant |visited| <= |items| && visited == items[..|visited|]
      invariant ctx == if |visited| < |items| then items[|visited|] else null
      decreases |items| - |visited|
    {
      var next := ctx.next;
      visited := visited + [ctx];
      ctx := next;
    }
  }
}
