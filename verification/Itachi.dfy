/** The pointers of itachi: contexts that clients launch travel through a poll queue, a libev
    registration and a CPU queue to onComplete.  Here are the changes the threads make to
    queues and cursors, and the place of every context in flight. */
module Itachi {
  import opened SList

  type Ctx = int

  datatype Kind = Nop | CpuEvent(urgent: bool) | NetEvent

  /** A CPU thread: waiting in pop, inside onComplete(ctx) with the saved next pointer, about
      to clear the queue, or walking a cleared chain. */
  datatype CpuPc = AtPop | Completing(ctx: Ctx, saved: int, draining: bool) | AtClear | Walking(ptr: int)

  /** A poll thread: in ev_run, inside net_callback(ctx), or registering a cleared chain. */
  datatype PollPc = InRun | Calling(ctx: Ctx) | Registering(ptr: int)

  /** The chains of pointers: what is queued, and what a thread has cleared and not yet handled. */
  datatype Line = CpuQueue(i: int) | CpuBatch(i: int) | PollQueue(i: int) | PollBatch(i: int)

  /** Pointers, threads and the places a context in flight can be. */
  datatype Wires = Wires(
    cpuThreads: nat,
    pollThreads: nat,
    next: Links,                      // next of every context ever made
    lists: map<Line, List>,           // head_ and tail_ of the queues
    cpu: map<int, CpuPc>,
    poll: map<int, PollPc>,
    watched: map<int, set<Ctx>>,      // registered with the loop of a poll thread
    launching: set<Ctx>,              // in launch_, thread_hint not yet read
    aimed: map<Ctx, Line>,            // in push: the queue chosen, its lock not yet taken
    flying: set<Ctx>)                 // launched and not yet in onComplete

  // ------------------------------------------------------------- the wires alone

  /** `thread_hint % threads_` */
  function ThreadOf(h: nat, threads: nat): (i: int)
    requires threads >= 1
    ensures 0 <= i < threads
  {
    h % threads
  }

  predicate IsQueue(w: Wires, p: Line) {
    (p.CpuQueue? && 0 <= p.i < w.cpuThreads) || (p.PollQueue? && 0 <= p.i < w.pollThreads)
  }

  predicate IsBatch(w: Wires, p: Line) {
    (p.CpuBatch? && 0 <= p.i < w.cpuThreads) || (p.PollBatch? && 0 <= p.i < w.pollThreads)
  }

  /** At least one thread of each sort, and everything kept per thread is there for these. */
  ghost predicate Wired(w: Wires) {
    && w.cpuThreads >= 1 && w.pollThreads >= 1
    && (forall i :: i in w.cpu <==> 0 <= i < w.cpuThreads)
    && (forall j :: j in w.poll <==> 0 <= j < w.pollThreads)
    && w.watched.Keys == w.poll.Keys
    && (forall p :: p in w.lists <==> IsQueue(w, p))
    && (forall c :: c in w.next ==> c >= 0)
    && (forall c :: c in w.aimed ==> IsQueue(w, w.aimed[c]))
  }

  function Pushed(w: Wires, p: Line, c: Ctx, front: bool): Wires
    requires p in w.lists
  {
    var l := w.lists[p];
    if front then w.(next := PushFrontLinks(w.next, l, c), lists := w.lists[p := PushFrontList(l, c)])
    else w.(next := PushLinks(w.next, l, c), lists := w.lists[p := PushList(l, c)])
  }

  /** onComplete(c) begins on CPU thread i. */
  function Started(w: Wires, i: int, c: Ctx, saved: int, draining: bool): Wires {
    w.(cpu := w.cpu[i := Completing(c, saved, draining)], flying := w.flying - {c})
  }

  function Popped(w: Wires, i: int): Wires
    requires CpuQueue(i) in w.lists && w.lists[CpuQueue(i)].head in w.next
  {
    var l := w.lists[CpuQueue(i)];
    Started(w, i, l.head, NIL, false)
      .(next := PopLinks(w.next, l), lists := w.lists[CpuQueue(i) := PopList(w.next, l)])
  }

  function Returned(w: Wires, i: int): Wires
    requires i in w.cpu && w.cpu[i].Completing?
  {
    w.(cpu := w.cpu[i := if w.cpu[i].draining then Walking(w.cpu[i].saved) else AtClear])
  }

  function Cleared(w: Wires, i: int): Wires
    requires CpuQueue(i) in w.lists
  {
    w.(cpu := w.cpu[i := Walking(w.lists[CpuQueue(i)].head)], lists := w.lists[CpuQueue(i) := List(NIL, NIL)])
  }

  function Walked(w: Wires, i: int): Wires
    requires i in w.cpu && w.cpu[i].Walking? && (w.cpu[i].ptr == NIL || w.cpu[i].ptr in w.next)
  {
    var ptr := w.cpu[i].ptr;
    if ptr == NIL then w.(cpu := w.cpu[i := AtPop]) else Started(w, i, ptr, w.next[ptr], true)
  }

  function PollCleared(w: Wires, j: int): Wires
    requires PollQueue(j) in w.lists
  {
    w.(poll := w.poll[j := Registering(w.lists[PollQueue(j)].head)], lists := w.lists[PollQueue(j) := List(NIL, NIL)])
  }

  function Registered(w: Wires, j: int): Wires
    requires j in w.poll && w.poll[j].Registering? && j in w.watched
    requires w.poll[j].ptr == NIL || w.poll[j].ptr in w.next
  {
    var ptr := w.poll[j].ptr;
    if ptr == NIL then w.(poll := w.poll[j := InRun])
    else w.(watched := w.watched[j := w.watched[j] + {ptr}], poll := w.poll[j := Registering(w.next[ptr])])
  }

  // ------------------------------------------------- where contexts in flight are

  datatype Where = OnLine(line: Line) | Watched(j: int) | Launching | Aimed(line: Line)

  /** The sequences the pointers spell, and the place of every context in flight. */
  datatype View = View(lines: map<Line, seq<Ctx>>, at: map<Ctx, Where>)

  /** The local pointer from which a thread goes on along a chain it has cleared. */
  ghost function BatchPtr(w: Wires, p: Line): int
    requires Wired(w) && IsBatch(w, p)
  {
    if p.CpuBatch? then
      match w.cpu[p.i]
      case Completing(_, saved, draining) => if draining then saved else NIL
      case Walking(ptr) => ptr
      case _ => NIL
    else
      match w.poll[p.i]
      case Registering(ptr) => ptr
      case _ => NIL
  }

  /** The pointers spell the view: queues from head_ to tail_, batches from the local pointer. */
  ghost predicate Spelled(w: Wires, v: View, p: Line)
    requires Wired(w)
  {
    && p in v.lines
    && (IsQueue(w, p) ==> Holds(w.next, w.lists[p], v.lines[p]))
    && (IsBatch(w, p) ==> Chain(w.next, BatchPtr(w, p), v.lines[p]))
  }

  ghost predicate Linked(w: Wires, v: View)
    requires Wired(w)
  {
    && (forall p :: p in v.lines <==> IsQueue(w, p) || IsBatch(w, p))
    && (forall p :: IsQueue(w, p) || IsBatch(w, p) ==> Spelled(w, v, p))
  }

  /** c is found at x by following the pointers and registrations. */
  ghost predicate Sits(w: Wires, v: View, c: Ctx, x: Where) {
    match x
    case OnLine(p) => p in v.lines && c in v.lines[p]
    case Watched(j) => j in w.watched && c in w.watched[j]
    case Launching => c in w.launching
    case Aimed(p) => c in w.aimed && w.aimed[c] == p
  }

  /** Every context in flight is at one place, and that is where the view says. */
  ghost predicate Placed(w: Wires, v: View) {
    && v.at.Keys == w.flying && w.flying <= w.next.Keys
    && (forall c, x :: Sits(w, v, c, x) <==> c in v.at && v.at[c] == x)
  }

  ghost predicate Core(w: Wires, v: View) { Wired(w) && Linked(w, v) && Placed(w, v) }

  // --------------------------------------- each change of the wires keeps the view

  /** A line whose own links, head, tail and pointer are untouched stays as it is. */
  lemma LineKept(w: Wires, v: View, w': Wires, v': View, p: Line)
    requires Wired(w) && Wired(w') && p in v.lines && p in v'.lines && v'.lines[p] == v.lines[p]
    requires Spelled(w, v, p)
    requires w'.cpuThreads == w.cpuThreads && w'.pollThreads == w.pollThreads
    requires IsQueue(w, p) ==> w'.lists[p] == w.lists[p]
    requires IsBatch(w, p) ==> BatchPtr(w', p) == BatchPtr(w, p)
    requires forall c :: c in v.lines[p] ==> c in w.next && c in w'.next && w'.next[c] == w.next[c]
    ensures Spelled(w', v', p)
  {
    hide Chain;
    if IsQueue(w, p) {
      ChainFrame(w.next, w'.next, w.lists[p].head, v.lines[p]);
    }
    if IsBatch(w, p) {
      ChainFrame(w.next, w'.next, BatchPtr(w, p), v.lines[p]);
    }
  }

  /** The contexts on a line are in flight, hence made, and nowhere else. */
  lemma LineMembers(w: Wires, v: View, p: Line)
    requires Placed(w, v) && p in v.lines
    ensures forall c :: c in v.lines[p] ==> c in w.next && c in w.flying && c in v.at && v.at[c] == OnLine(p)
  {
    forall c | c in v.lines[p] ensures c in w.next && c in w.flying && c in v.at && v.at[c] == OnLine(p) {
      assert Sits(w, v, c, OnLine(p));
    }
  }

  lemma QueueEnds(w: Wires, v: View, p: Line)
    requires Wired(w) && IsQueue(w, p) && Spelled(w, v, p)
    ensures p in v.lines && (Empty(w.lists[p]) <==> v.lines[p] == [])
    ensures v.lines[p] != [] ==> w.lists[p].head == v.lines[p][0] && w.lists[p].tail in v.lines[p]
  {
  }

  /** Nothing that Linked speaks of has changed. */
  lemma LinkedSame(w: Wires, v: View, w': Wires, v': View)
    requires Wired(w) && Wired(w') && Linked(w, v) && v'.lines == v.lines
    requires w'.cpuThreads == w.cpuThreads && w'.pollThreads == w.pollThreads
    requires w'.next == w.next && w'.lists == w.lists
    requires forall p :: IsBatch(w, p) ==> BatchPtr(w', p) == BatchPtr(w, p)
    ensures Linked(w', v')
  {
    hide Chain, Holds, BatchPtr;
    forall p | IsQueue(w', p) || IsBatch(w', p) ensures Spelled(w', v', p) { assert Spelled(w, v, p); }
  }

  /** c alone has moved, to x. */
  lemma PlacedMove(w: Wires, v: View, w': Wires, v': View, c: Ctx, x: Where)
    requires Placed(w, v) && w'.next.Keys == w.next.Keys && c in w.next
    requires v'.at == v.at[c := x] && w'.flying == w.flying + {c}
    requires forall d, y :: Sits(w', v', d, y) <==> if d == c then y == x else Sits(w, v, d, y)
    ensures Placed(w', v')
  {
    hide Sits;
  }

  /** c alone has left. */
  lemma PlacedLeave(w: Wires, v: View, w': Wires, v': View, c: Ctx)
    requires Placed(w, v) && w'.next.Keys == w.next.Keys
    requires v'.at == v.at - {c} && w'.flying == w.flying - {c}
    requires forall d, y :: Sits(w', v', d, y) <==> d != c && Sits(w, v, d, y)
    ensures Placed(w', v')
  {
    hide Sits;
  }

  lemma NewKeeps(w: Wires, v: View, c: Ctx)
    requires Core(w, v) && c !in w.next && c >= 0
    ensures Core(w.(next := w.next[c := NIL]), v)
  {
    hide Spelled;
    var w' := w.(next := w.next[c := NIL]);
    forall p | p in v.lines ensures Spelled(w', v, p) {
      LineMembers(w, v, p);
      LineKept(w, v, w', v, p);
    }
    forall d, x ensures Sits(w', v, d, x) <==> Sits(w, v, d, x) {}
  }

  lemma LaunchKeeps(w: Wires, v: View, c: Ctx)
    requires Core(w, v) && c in w.next && c !in w.flying
    ensures Core(w.(launching := w.launching + {c}, flying := w.flying + {c}), v.(at := v.at[c := Launching]))
  {
    hide Linked;
    var w', v' := w.(launching := w.launching + {c}, flying := w.flying + {c}), v.(at := v.at[c := Launching]);
    LinkedSame(w, v, w', v');
    forall d, y ensures Sits(w', v', d, y) <==> if d == c then y == Launching else Sits(w, v, d, y) {
      assert Sits(w, v, d, y) <==> d in v.at && v.at[d] == y;
    }
    PlacedMove(w, v, w', v', c, Launching);
  }

  lemma CancelKeeps(w: Wires, v: View, c: Ctx)
    requires Core(w, v) && c in w.launching
    ensures Core(w.(launching := w.launching - {c}, flying := w.flying - {c}), v.(at := v.at - {c}))
  {
    hide Linked;
    var w', v' := w.(launching := w.launching - {c}, flying := w.flying - {c}), v.(at := v.at - {c});
    LinkedSame(w, v, w', v');
    assert Sits(w, v, c, Launching);
    forall d, y ensures Sits(w', v', d, y) <==> d != c && Sits(w, v, d, y) {
      assert Sits(w, v, d, y) <==> d in v.at && v.at[d] == y;
    }
    PlacedLeave(w, v, w', v', c);
  }

  lemma ReturnKeeps(w: Wires, v: View, i: int)
    requires Core(w, v) && i in w.cpu && w.cpu[i].Completing?
    ensures Core(Returned(w, i), v)
  {
    hide Linked;
    LinkedSame(w, v, Returned(w, i), v);
    forall d, x ensures Sits(Returned(w, i), v, d, x) <==> Sits(w, v, d, x) {}
  }

  /** c joins the queue p. */
  ghost function Joined(v: View, p: Line, c: Ctx, front: bool): View
    requires p in v.lines
  {
    View(v.lines[p := if front then [c] + v.lines[p] else v.lines[p] + [c]], v.at[c := OnLine(p)])
  }

  lemma PushSpelled(w: Wires, v: View, p: Line, c: Ctx, front: bool)
    requires Wired(w) && Spelled(w, v, p) && p in v.lines && IsQueue(w, p) && c !in v.lines[p] && c >= 0
    requires Wired(Pushed(w, p, c, front))
    ensures Spelled(Pushed(w, p, c, front), Joined(v, p, c, front), p)
  {
    hide Holds;
    if front { PushFrontHolds(w.next, w.lists[p], v.lines[p], c); } else { PushHolds(w.next, w.lists[p], v.lines[p], c); }
  }

  /** A push changes the links of c and of the entry that was last. */
  lemma PushFrame(w: Wires, v: View, p: Line, c: Ctx, front: bool)
    requires Wired(w) && IsQueue(w, p) && Spelled(w, v, p) && c in w.next
    requires forall d :: d in v.lines[p] ==> d in w.next
    ensures Wired(Pushed(w, p, c, front)) && Pushed(w, p, c, front).next.Keys == w.next.Keys
    ensures forall d :: d in w.next && d != c && d !in v.lines[p] ==> Pushed(w, p, c, front).next[d] == w.next[d]
  {
    hide Spelled;
    QueueEnds(w, v, p);
  }

  /** Pushing a context that is launching or has just been reported by libev. */
  lemma PushKeepsLinks(w: Wires, v: View, p: Line, c: Ctx, front: bool)
    requires Core(w, v) && IsQueue(w, p) && p in v.lines && c in w.flying && c in v.at && !v.at[c].OnLine?
    ensures Wired(Pushed(w, p, c, front)) && Linked(Pushed(w, p, c, front), Joined(v, p, c, front))
    ensures Pushed(w, p, c, front).next.Keys == w.next.Keys
  {
    hide Spelled, Placed;
    var w', v' := Pushed(w, p, c, front), Joined(v, p, c, front);
    assert Spelled(w, v, p);
    LineMembers(w, v, p);
    assert c in w.next by { InFlightMade(w, v, c); }
    PushFrame(w, v, p, c, front);
    forall q | q in v.lines ensures Spelled(w', v', q) {
      LineMembers(w, v, q);
      if q == p {
        PushSpelled(w, v, p, c, front);
      } else {
        LineKept(w, v, w', v', q);
      }
    }
  }

  lemma InFlightMade(w: Wires, v: View, c: Ctx)
    requires Placed(w, v) && c in w.flying
    ensures c in w.next
  {
  }

  /** push has read the hint: from launching to the queue it has chosen. */
  lemma AimKeeps(w: Wires, v: View, p: Line, c: Ctx)
    requires Core(w, v) && IsQueue(w, p) && c in w.launching
    ensures Core(w.(launching := w.launching - {c}, aimed := w.aimed[c := p]), v.(at := v.at[c := Aimed(p)]))
  {
    hide Linked;
    var w', v' := w.(launching := w.launching - {c}, aimed := w.aimed[c := p]), v.(at := v.at[c := Aimed(p)]);
    assert Sits(w, v, c, Launching);
    LinkedSame(w, v, w', v');
    forall d, y ensures Sits(w', v', d, y) <==> if d == c then y == Aimed(p) else Sits(w, v, d, y) {
      assert Sits(w, v, d, y) <==> d in v.at && v.at[d] == y;
    }
    PlacedMove(w, v, w', v', c, Aimed(p));
  }

  /** The push itself, by a client or by a poll thread that is then back in ev_run. */
  function PushDone(w: Wires, c: Ctx, front: bool): Wires
    requires c in w.aimed && w.aimed[c] in w.lists
  {
    Pushed(w, w.aimed[c], c, front).(aimed := w.aimed - {c})
  }

  lemma PushKeeps(w: Wires, v: View, c: Ctx, front: bool)
    requires Core(w, v) && c in w.aimed
    ensures w.aimed[c] in v.lines && w.aimed[c] in w.lists
    ensures Core(PushDone(w, c, front), Joined(v, w.aimed[c], c, front))
    ensures PushDone(w, c, front).next.Keys == w.next.Keys
  {
    hide Linked;
    var p := w.aimed[c];
    LinkedAt(w, v, p);
    assert Sits(w, v, c, Aimed(p));
    var w1, v1 := Pushed(w, p, c, front), Joined(v, p, c, front);
    var w2 := PushDone(w, c, front);
    PushKeepsLinks(w, v, p, c, front);
    LinkedSame(w1, v1, w2, v1);
    forall d, y ensures Sits(w2, v1, d, y) <==> if d == c then y == OnLine(p) else Sits(w, v, d, y) {
      PushSits(w, v, c, front, d, y);
    }
    PlacedMove(w, v, w2, v1, c, OnLine(p));
  }

  lemma PushSits(w: Wires, v: View, c: Ctx, front: bool, d: Ctx, y: Where)
    requires Placed(w, v) && c in w.aimed && w.aimed[c] in w.lists && w.aimed[c] in v.lines
    ensures Sits(PushDone(w, c, front), Joined(v, w.aimed[c], c, front), d, y) <==>
            if d == c then y == OnLine(w.aimed[c]) else Sits(w, v, d, y)
  {
    assert Sits(w, v, c, Aimed(w.aimed[c]));
    assert Sits(w, v, d, y) <==> d in v.at && v.at[d] == y;
  }

  /** A poll thread leaves its callback; nothing else depends on it. */
  lemma PollPcKeeps(w: Wires, v: View, j: int, pc: PollPc)
    requires Core(w, v) && j in w.poll && !w.poll[j].Registering? && !pc.Registering?
    ensures Core(w.(poll := w.poll[j := pc]), v)
  {
    hide Linked, Sits;
    var w' := w.(poll := w.poll[j := pc]);
    LinkedSame(w, v, w', v);
    forall d, x ensures Sits(w', v, d, x) <==> Sits(w, v, d, x) { SitsSame(w, v, w', d, x); }
  }

  /** The push at the end of a callback. */
  lemma CallbackPushKeeps(w: Wires, v: View, j: int, c: Ctx, front: bool)
    requires Core(w, v) && c in w.aimed && j in w.poll && w.poll[j].Calling?
    ensures w.aimed[c] in v.lines && w.aimed[c] in w.lists
    ensures Core(PushDone(w, c, front).(poll := w.poll[j := InRun]), Joined(v, w.aimed[c], c, front))
    ensures PushDone(w, c, front).next.Keys == w.next.Keys
  {
    hide Core, Joined;
    PushKeeps(w, v, c, front);
    PollPcKeeps(PushDone(w, c, front), Joined(v, w.aimed[c], c, front), j, InRun);
  }

  /** libev reports c: from a registration into launch_. */
  function Reported(w: Wires, j: int, c: Ctx): Wires
    requires j in w.watched
  {
    w.(watched := w.watched[j := w.watched[j] - {c}], launching := w.launching + {c}, poll := w.poll[j := Calling(c)])
  }

  lemma CallbackKeeps(w: Wires, v: View, j: int, c: Ctx)
    requires Core(w, v) && j in w.poll && w.poll[j].InRun? && j in w.watched && c in w.watched[j]
    ensures Core(Reported(w, j, c), v.(at := v.at[c := Launching]))
  {
    hide Linked;
    var w', v' := Reported(w, j, c), v.(at := v.at[c := Launching]);
    assert Sits(w, v, c, Watched(j));
    LinkedSame(w, v, w', v');
    forall d, y ensures Sits(w', v', d, y) <==> if d == c then y == Launching else Sits(w, v, d, y) {
      assert Sits(w, v, d, y) <==> d in v.at && v.at[d] == y;
    }
    PlacedMove(w, v, w', v', c, Launching);
  }

  /** The first context of p leaves, for x or altogether. */
  ghost function Left(v: View, p: Line): View
    requires p in v.lines && v.lines[p] != []
  {
    View(v.lines[p := v.lines[p][1..]], v.at - {v.lines[p][0]})
  }

  /** A context is on its line once. */
  lemma FirstIsOnce(w: Wires, v: View, p: Line)
    requires Wired(w) && (IsQueue(w, p) || IsBatch(w, p)) && Spelled(w, v, p) && v.lines[p] != []
    ensures v.lines[p][0] !in v.lines[p][1..]
  {
    var q := v.lines[p];
    forall k | 0 <= k < |q[1..]| ensures q[1..][k] != q[0] { assert q[1..][k] == q[k + 1]; }
  }

  lemma LeaveSits(w: Wires, v: View, w': Wires, p: Line, d: Ctx, y: Where)
    requires Placed(w, v) && p in v.lines && v.lines[p] != [] && v.lines[p][0] !in v.lines[p][1..]
    requires w'.watched == w.watched && w'.launching == w.launching && w'.aimed == w.aimed
    ensures Sits(w', Left(v, p), d, y) <==> d != v.lines[p][0] && Sits(w, v, d, y)
  {
    var q := v.lines[p];
    assert q == [q[0]] + q[1..];
    assert Sits(w, v, q[0], OnLine(p));
    assert Sits(w, v, d, y) <==> d in v.at && v.at[d] == y;
  }

  /** Popping the head of a CPU queue. */
  lemma PopKeepsLinks(w: Wires, v: View, i: int)
    requires Core(w, v) && i in w.cpu && w.cpu[i].AtPop? && CpuQueue(i) in w.lists && !Empty(w.lists[CpuQueue(i)])
    ensures CpuQueue(i) in v.lines && v.lines[CpuQueue(i)] != []
    ensures w.lists[CpuQueue(i)].head == v.lines[CpuQueue(i)][0] && v.lines[CpuQueue(i)][0] in w.next
    ensures Wired(Popped(w, i)) && Linked(Popped(w, i), Left(v, CpuQueue(i)))
    ensures Popped(w, i).next.Keys == w.next.Keys
  {
    hide Chain, Holds, Placed;
    var p := CpuQueue(i);
    assert Spelled(w, v, p);
    QueueEnds(w, v, p);
    LineMembers(w, v, p);
    var w', v' := Popped(w, i), Left(v, p);
    forall q | q in v.lines ensures Spelled(w', v', q) {
      LineMembers(w, v, q);
      if q == p {
        PopHolds(w.next, w.lists[p], v.lines[p]);
      } else {
        LineKept(w, v, w', v', q);
      }
    }
  }

  lemma PopKeeps(w: Wires, v: View, i: int)
    requires Core(w, v) && i in w.cpu && w.cpu[i].AtPop? && CpuQueue(i) in w.lists && !Empty(w.lists[CpuQueue(i)])
    ensures CpuQueue(i) in v.lines && v.lines[CpuQueue(i)] != []
    ensures w.lists[CpuQueue(i)].head == v.lines[CpuQueue(i)][0] && v.lines[CpuQueue(i)][0] in w.next
    ensures Core(Popped(w, i), Left(v, CpuQueue(i)))
    ensures Popped(w, i).next.Keys == w.next.Keys
  {
    hide Linked, Sits;
    PopKeepsLinks(w, v, i);
    var p := CpuQueue(i);
    FirstIsOnce(w, v, p) by { assert Spelled(w, v, p) by { LinkedAt(w, v, p); } }
    forall d, y ensures Sits(Popped(w, i), Left(v, p), d, y) <==> d != v.lines[p][0] && Sits(w, v, d, y) {
      LeaveSits(w, v, Popped(w, i), p, d, y);
    }
    PlacedLeave(w, v, Popped(w, i), Left(v, p), v.lines[p][0]);
  }

  lemma LinkedAt(w: Wires, v: View, p: Line)
    requires Wired(w) && Linked(w, v) && (IsQueue(w, p) || IsBatch(w, p))
    ensures p in v.lines && Spelled(w, v, p)
  {
  }

  /** Reading the pointer of a cleared chain. */
  lemma BatchHead(w: Wires, v: View, p: Line)
    requires Core(w, v) && IsBatch(w, p)
    ensures p in v.lines && (BatchPtr(w, p) == NIL <==> v.lines[p] == [])
    ensures BatchPtr(w, p) != NIL ==> BatchPtr(w, p) == v.lines[p][0] && BatchPtr(w, p) in w.next
    ensures BatchPtr(w, p) != NIL ==> Chain(w.next, w.next[BatchPtr(w, p)], v.lines[p][1..])
  {
    hide Placed;
    LinkedAt(w, v, p);
    if v.lines[p] != [] { ChainTail(w.next, BatchPtr(w, p), v.lines[p]); }
  }

  /** The other lines when only the pointer of the batch p moves on. */
  lemma BatchMoves(w: Wires, v: View, w': Wires, v': View, p: Line)
    requires Core(w, v) && IsBatch(w, p) && Wired(w') && BatchPtr(w, p) != NIL && p in v.lines && v.lines[p] != []
    requires w'.cpuThreads == w.cpuThreads && w'.pollThreads == w.pollThreads
    requires w'.next == w.next && w'.lists == w.lists && v'.lines == v.lines[p := v.lines[p][1..]]
    requires BatchPtr(w, p) in w.next && BatchPtr(w', p) == w.next[BatchPtr(w, p)]
    requires forall q :: IsBatch(w, q) && q != p ==> BatchPtr(w', q) == BatchPtr(w, q)
    ensures Linked(w', v')
  {
    hide Chain, Holds, Placed, BatchPtr;
    BatchHead(w, v, p);
    forall q | IsQueue(w', q) || IsBatch(w', q) ensures Spelled(w', v', q) {
      assert Spelled(w, v, q);
    }
  }

  lemma WalkKeeps(w: Wires, v: View, i: int)
    requires Core(w, v) && i in w.cpu && w.cpu[i].Walking?
    ensures CpuBatch(i) in v.lines && (w.cpu[i].ptr == NIL <==> v.lines[CpuBatch(i)] == [])
    ensures w.cpu[i].ptr == NIL || (w.cpu[i].ptr in w.next && w.cpu[i].ptr == v.lines[CpuBatch(i)][0])
    ensures Core(Walked(w, i), if w.cpu[i].ptr == NIL then v else Left(v, CpuBatch(i)))
  {
    hide Linked, Placed;
    BatchHead(w, v, CpuBatch(i));
    if w.cpu[i].ptr == NIL { WalkEnds(w, v, i); } else { WalkBegins(w, v, i); }
  }

  lemma WalkEnds(w: Wires, v: View, i: int)
    requires Core(w, v) && i in w.cpu && w.cpu[i].Walking? && w.cpu[i].ptr == NIL
    ensures Core(Walked(w, i), v)
  {
    hide Linked, Sits;
    var w' := Walked(w, i);
    LinkedSame(w, v, w', v);
    forall d, x ensures Sits(w', v, d, x) <==> Sits(w, v, d, x) { SitsSame(w, v, w', d, x); }
  }

  lemma WalkBegins(w: Wires, v: View, i: int)
    requires Core(w, v) && i in w.cpu && w.cpu[i].Walking? && w.cpu[i].ptr != NIL && w.cpu[i].ptr in w.next
    requires CpuBatch(i) in v.lines && v.lines[CpuBatch(i)] != [] && v.lines[CpuBatch(i)][0] == w.cpu[i].ptr
    ensures Core(Walked(w, i), Left(v, CpuBatch(i)))
  {
    hide Linked, Sits;
    var p := CpuBatch(i);
    var w' := Walked(w, i);
    FirstIsOnce(w, v, p) by { LinkedAt(w, v, p); }
    BatchMoves(w, v, w', Left(v, p), p);
    forall d, y ensures Sits(w', Left(v, p), d, y) <==> d != v.lines[p][0] && Sits(w, v, d, y) {
      LeaveSits(w, v, w', p, d, y);
    }
    PlacedLeave(w, v, w', Left(v, p), v.lines[p][0]);
  }

  lemma SitsSame(w: Wires, v: View, w': Wires, d: Ctx, y: Where)
    requires w'.watched == w.watched && w'.launching == w.launching && w'.aimed == w.aimed
    ensures Sits(w', v, d, y) <==> Sits(w, v, d, y)
  {
  }

  /** What Registered does to the view: the first of the batch is watched. */
  ghost function NowWatched(v: View, j: int): View
    requires PollBatch(j) in v.lines && v.lines[PollBatch(j)] != []
  {
    var q := v.lines[PollBatch(j)];
    View(v.lines[PollBatch(j) := q[1..]], v.at[q[0] := Watched(j)])
  }

  lemma WatchSits(w: Wires, v: View, w': Wires, j: int, d: Ctx, y: Where)
    requires Placed(w, v) && PollBatch(j) in v.lines && v.lines[PollBatch(j)] != [] && j in w.watched
    requires v.lines[PollBatch(j)][0] !in v.lines[PollBatch(j)][1..]
    requires w'.watched == w.watched[j := w.watched[j] + {v.lines[PollBatch(j)][0]}] && w'.launching == w.launching
    requires w'.aimed == w.aimed
    ensures Sits(w', NowWatched(v, j), d, y) <==>
            if d == v.lines[PollBatch(j)][0] then y == Watched(j) else Sits(w, v, d, y)
  {
    var q := v.lines[PollBatch(j)];
    assert q == [q[0]] + q[1..];
    assert Sits(w, v, q[0], OnLine(PollBatch(j)));
    assert Sits(w, v, d, y) <==> d in v.at && v.at[d] == y;
  }

  lemma RegisterKeeps(w: Wires, v: View, j: int)
    requires Core(w, v) && j in w.poll && w.poll[j].Registering?
    ensures PollBatch(j) in v.lines && (w.poll[j].ptr == NIL <==> v.lines[PollBatch(j)] == [])
    ensures w.poll[j].ptr == NIL || (w.poll[j].ptr in w.next && w.poll[j].ptr == v.lines[PollBatch(j)][0])
    ensures Core(Registered(w, j), if w.poll[j].ptr == NIL then v else NowWatched(v, j))
  {
    hide Linked, Placed;
    BatchHead(w, v, PollBatch(j));
    if w.poll[j].ptr == NIL { RegisterEnds(w, v, j); } else { RegisterOne(w, v, j); }
  }

  lemma RegisterEnds(w: Wires, v: View, j: int)
    requires Core(w, v) && j in w.poll && w.poll[j].Registering? && w.poll[j].ptr == NIL
    ensures Core(Registered(w, j), v)
  {
    hide Linked, Sits;
    var w' := Registered(w, j);
    LinkedSame(w, v, w', v);
    forall d, x ensures Sits(w', v, d, x) <==> Sits(w, v, d, x) { SitsSame(w, v, w', d, x); }
  }

  lemma RegisterOne(w: Wires, v: View, j: int)
    requires Core(w, v) && j in w.poll && w.poll[j].Registering? && w.poll[j].ptr != NIL && w.poll[j].ptr in w.next
    requires PollBatch(j) in v.lines && v.lines[PollBatch(j)] != [] && v.lines[PollBatch(j)][0] == w.poll[j].ptr
    ensures Core(Registered(w, j), NowWatched(v, j))
  {
    hide Linked, Sits;
    var p, c := PollBatch(j), w.poll[j].ptr;
    var w' := Registered(w, j);
    FirstIsOnce(w, v, p) by { LinkedAt(w, v, p); }
    LineSits(w, v, p, c);
    BatchMoves(w, v, w', NowWatched(v, j), p);
    forall d, y ensures Sits(w', NowWatched(v, j), d, y) <==> if d == c then y == Watched(j) else Sits(w, v, d, y) {
      WatchSits(w, v, w', j, d, y);
    }
    PlacedMove(w, v, w', NowWatched(v, j), c, Watched(j));
  }

  lemma LineSits(w: Wires, v: View, p: Line, c: Ctx)
    requires p in v.lines && c in v.lines[p]
    ensures Sits(w, v, c, OnLine(p))
  {
  }

  /** A queue is handed over whole to the batch of its thread. */
  ghost function Moved(v: View, p: Line, q: Line): View
    requires p in v.lines
  {
    View(v.lines[q := v.lines[p]][p := []],
      map c | c in v.at :: if v.at[c] == OnLine(p) then OnLine(q) else v.at[c])
  }

  lemma MovedSits(w: Wires, v: View, w': Wires, p: Line, q: Line)
    requires Placed(w, v) && p in v.lines && q in v.lines && p != q && v.lines[q] == []
    requires w'.watched == w.watched && w'.launching == w.launching && w'.aimed == w.aimed
    requires w'.flying == w.flying && w'.next == w.next
    ensures Placed(w', Moved(v, p, q))
  {
    var v' := Moved(v, p, q);
    forall d, y ensures Sits(w', v', d, y) <==> d in v'.at && v'.at[d] == y {
      assert Sits(w, v, d, y) <==> d in v.at && v.at[d] == y;
      assert Sits(w, v, d, OnLine(p)) <==> d in v.at && v.at[d] == OnLine(p);
      assert Sits(w, v, d, OnLine(q)) <==> d in v.at && v.at[d] == OnLine(q);
    }
  }

  lemma MovedLinks(w: Wires, v: View, w': Wires, p: Line, q: Line)
    requires Core(w, v) && IsQueue(w, p) && IsBatch(w, q) && Wired(w') && p in v.lines
    requires w'.cpuThreads == w.cpuThreads && w'.pollThreads == w.pollThreads && w'.next == w.next
    requires BatchPtr(w', q) == w.lists[p].head && w'.lists == w.lists[p := List(NIL, NIL)]
    requires forall r :: IsBatch(w, r) && r != q ==> BatchPtr(w', r) == BatchPtr(w, r)
    ensures Linked(w', Moved(v, p, q))
  {
    hide Placed, BatchPtr, Chain;
    var v' := Moved(v, p, q);
    assert Spelled(w, v, p);
    assert Chain(w.next, NIL, []) by { EmptyChain(w.next); }
    forall r | IsQueue(w', r) || IsBatch(w', r) ensures Spelled(w', v', r) {
      assert Spelled(w, v, r);
    }
  }

  lemma EmptyChain(next: Links)
    ensures Chain(next, NIL, [])
  {
  }

  lemma ClearKeeps(w: Wires, v: View, i: int)
    requires Core(w, v) && i in w.cpu && w.cpu[i].AtClear?
    ensures CpuQueue(i) in v.lines && CpuBatch(i) in v.lines && v.lines[CpuBatch(i)] == []
    ensures Core(Cleared(w, i), Moved(v, CpuQueue(i), CpuBatch(i)))
  {
    hide Linked, Sits, Placed;
    LinkedAt(w, v, CpuQueue(i));
    BatchHead(w, v, CpuBatch(i));
    MovedLinks(w, v, Cleared(w, i), CpuQueue(i), CpuBatch(i));
    MovedSits(w, v, Cleared(w, i), CpuQueue(i), CpuBatch(i));
  }

  lemma PollClearKeeps(w: Wires, v: View, j: int)
    requires Core(w, v) && j in w.poll && w.poll[j].InRun?
    ensures PollQueue(j) in v.lines && PollBatch(j) in v.lines && v.lines[PollBatch(j)] == []
    ensures Core(PollCleared(w, j), Moved(v, PollQueue(j), PollBatch(j)))
  {
    hide Linked, Sits, Placed;
    LinkedAt(w, v, PollQueue(j));
    BatchHead(w, v, PollBatch(j));
    MovedLinks(w, v, PollCleared(w, j), PollQueue(j), PollBatch(j));
    MovedSits(w, v, PollCleared(w, j), PollQueue(j), PollBatch(j));
  }
}
