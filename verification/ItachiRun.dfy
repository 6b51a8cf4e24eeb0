/** Runs of itachi: the steps of clients, CPU threads and poll threads over the wires, the
    reference counts and the order of completion, and what holds in every run. */
module ItachiRun {
  import opened SList
  import opened Itachi

  /** The fields of the contexts, and what has become of them. */
  datatype Contexts = Contexts(
    refs: map<Ctx, int>,              // ref_count_
    external: map<Ctx, nat>,          // references clients hold
    kind: map<Ctx, Kind>,
    hint: map<Ctx, nat>,
    deleted: multiset<Ctx>)

  /** Per CPU thread: everything pushed to its queue, every onComplete begun, in order, and
      how many pushes went to the front. */
  datatype Log = Log(pushed: map<int, seq<Ctx>>, started: map<int, seq<Ctx>>, urgents: map<int, nat>)

  datatype State = State(stop: bool, wires: Wires, ctxs: Contexts, log: Log)

  /** A launch takes a reference, reads the hint and only then takes the lock of the queue it
      has chosen; each of these is a step.  `stop_` is read before the hint, so a launch can go
      on after a stop; it fails only for an event never initialised or after a stop. */
  datatype Step =
    | Create(c: Ctx, h: nat)
    | Acquire(c: Ctx)
    | Release(c: Ctx)
    | SetEvent(c: Ctx, kind: Kind)
    | SetHint(c: Ctx, h: nat)
    | LaunchBegin(c: Ctx)             // acquire
    | Aim(c: Ctx)                     // push reads thread_hint, in launch or in a callback
    | LaunchPush(c: Ctx)
    | LaunchFail(c: Ctx)              // roll back
    | Stop
    | Pop(i: int)
    | Return(i: int)                  // onComplete ends, release
    | Clear(i: int)
    | Walk(i: int)
    | PollClear(j: int)
    | Register(j: int)                // ev_once
    | Callback(j: int, c: Ctx)        // net_callback, initCpuEvent
    | CallbackPush(j: int)            // and, after Aim, the push

  /** The CPU threads inside onComplete(c). */
  function Runners(cpu: map<int, CpuPc>, c: Ctx): set<int> {
    set i | i in cpu && cpu[i].Completing? && cpu[i].ctx == c
  }

  /** A client may touch c: it holds a reference, or is called back with c. */
  predicate CanUse(s: State, c: Ctx) {
    (c in s.ctxs.external && s.ctxs.external[c] > 0) || Runners(s.wires.cpu, c) != {}
  }

  /** Some poll thread is inside net_callback(c). */
  predicate BeingCalled(w: Wires, c: Ctx) { exists j :: j in w.poll && w.poll[j] == Calling(c) }

  predicate Urgent(x: Contexts, c: Ctx) { c in x.kind && x.kind[c].CpuEvent? && x.kind[c].urgent }

  /** Every map has its keys. */
  ghost predicate Shaped(s: State) {
    && Wired(s.wires)
    && s.ctxs.refs.Keys == s.wires.next.Keys && s.ctxs.external.Keys == s.wires.next.Keys
    && s.ctxs.kind.Keys == s.wires.next.Keys && s.ctxs.hint.Keys == s.wires.next.Keys
    && s.log.pushed.Keys == s.wires.cpu.Keys && s.log.started.Keys == s.wires.cpu.Keys
    && s.log.urgents.Keys == s.wires.cpu.Keys
  }

  /** The queue a launched context goes to. */
  function Target(s: State, c: Ctx, kind: Kind): (p: Line)
    requires c in s.ctxs.hint && s.wires.cpuThreads >= 1 && s.wires.pollThreads >= 1
    ensures IsQueue(s.wires, p) && (p.CpuQueue? <==> !kind.NetEvent?)
  {
    if kind.NetEvent? then PollQueue(ThreadOf(s.ctxs.hint[c], s.wires.pollThreads))
    else CpuQueue(ThreadOf(s.ctxs.hint[c], s.wires.cpuThreads))
  }

  ghost predicate ClientEnabled(s: State, e: Step)
    requires Shaped(s)
  {
    var w := s.wires;
    match e
    case Create(c, _) => c !in w.next && c >= 0
    case Acquire(c) => c in w.next && CanUse(s, c)
    case Release(c) => c in w.next && s.ctxs.external[c] > 0
    case SetEvent(c, _) => c in w.next && CanUse(s, c) && c !in w.flying
    case SetHint(c, _) => c in w.next && CanUse(s, c)
    case LaunchBegin(c) => c in w.next && CanUse(s, c) && c !in w.flying
    case Aim(c) => c in w.next && c in w.launching && s.ctxs.kind[c] != Nop
    case LaunchPush(c) => c in w.next && c in w.aimed && !BeingCalled(w, c)
    case LaunchFail(c) => c in w.next && c in w.launching && !BeingCalled(w, c) && (s.stop || s.ctxs.kind[c] == Nop)
    case Stop => true
    case _ => false
  }

  /** Dereferencing a pointer needs a context there. */
  ghost predicate ThreadEnabled(s: State, e: Step)
    requires Shaped(s)
  {
    var w := s.wires;
    match e
    case Pop(i) => i in w.cpu && w.cpu[i].AtPop? && !Empty(w.lists[CpuQueue(i)]) && w.lists[CpuQueue(i)].head in w.next
    case Return(i) => i in w.cpu && w.cpu[i].Completing? && w.cpu[i].ctx in w.next
    case Clear(i) => i in w.cpu && w.cpu[i].AtClear?
    case Walk(i) => i in w.cpu && w.cpu[i].Walking? && (w.cpu[i].ptr == NIL || w.cpu[i].ptr in w.next)
    case PollClear(j) => j in w.poll && w.poll[j].InRun?
    case Register(j) => j in w.poll && w.poll[j].Registering? && (w.poll[j].ptr == NIL || w.poll[j].ptr in w.next)
    case Callback(j, c) => j in w.poll && w.poll[j].InRun? && c in w.watched[j] && c in w.next
    case CallbackPush(j) => j in w.poll && w.poll[j].Calling? && w.poll[j].ctx in w.next && w.poll[j].ctx in w.aimed
    case _ => false
  }

  ghost predicate Enabled(s: State, e: Step)
    requires Shaped(s)
  {
    ClientEnabled(s, e) || ThreadEnabled(s, e)
  }

  ghost function ClientWires(s: State, e: Step): Wires
    requires Shaped(s) && ClientEnabled(s, e)
  {
    var w := s.wires;
    match e
    case Create(c, _) => w.(next := w.next[c := NIL])
    case LaunchBegin(c) => w.(launching := w.launching + {c}, flying := w.flying + {c})
    case Aim(c) => w.(launching := w.launching - {c}, aimed := w.aimed[c := Target(s, c, s.ctxs.kind[c])])
    case LaunchPush(c) => PushDone(w, c, Urgent(s.ctxs, c))
    case LaunchFail(c) => w.(launching := w.launching - {c}, flying := w.flying - {c})
    case _ => w
  }

  ghost function ThreadWires(s: State, e: Step): Wires
    requires Shaped(s) && ThreadEnabled(s, e)
  {
    var w := s.wires;
    match e
    case Pop(i) => Popped(w, i)
    case Return(i) => Returned(w, i)
    case Clear(i) => Cleared(w, i)
    case Walk(i) => Walked(w, i)
    case PollClear(j) => PollCleared(w, j)
    case Register(j) => Registered(w, j)
    case Callback(j, c) => Reported(w, j, c)
    case CallbackPush(j) => PushDone(w, w.poll[j].ctx, Urgent(s.ctxs, w.poll[j].ctx)).(poll := w.poll[j := InRun])
    case _ => w
  }

  ghost function WiresAfter(s: State, e: Step): Wires
    requires Shaped(s) && Enabled(s, e)
  {
    if ClientEnabled(s, e) then ClientWires(s, e) else ThreadWires(s, e)
  }

  function Taken(x: Contexts, c: Ctx): Contexts
    requires c in x.refs
  {
    x.(refs := x.refs[c := x.refs[c] + 1])
  }

  /** `AsyncContext::release` */
  function Dropped(x: Contexts, c: Ctx): Contexts
    requires c in x.refs
  {
    var n := x.refs[c] - 1;
    x.(refs := x.refs[c := n], deleted := if n == 0 then x.deleted + multiset{c} else x.deleted)
  }

  ghost function ContextsAfter(s: State, e: Step): Contexts
    requires Shaped(s) && Enabled(s, e)
  {
    var x := s.ctxs;
    match e
    case Create(c, h) =>
      Contexts(x.refs[c := 1], x.external[c := 1], x.kind[c := Nop], x.hint[c := h], x.deleted)
    case Acquire(c) => Taken(x, c).(external := x.external[c := x.external[c] + 1])
    case Release(c) => Dropped(x, c).(external := x.external[c := x.external[c] - 1])
    case SetEvent(c, kind) => x.(kind := x.kind[c := kind])
    case SetHint(c, h) => x.(hint := x.hint[c := h])
    case LaunchBegin(c) => Taken(x, c)
    case LaunchFail(c) => Dropped(x, c)
    case Return(i) => Dropped(x, s.wires.cpu[i].ctx)
    case Callback(_, c) => x.(kind := x.kind[c := CpuEvent(false)])
    case _ => x
  }

  ghost function LogPush(l: Log, p: Line, c: Ctx, urgent: bool): Log
    requires p.CpuQueue? ==> p.i in l.pushed && p.i in l.urgents
  {
    if !p.CpuQueue? then l
    else Log(l.pushed[p.i := l.pushed[p.i] + [c]], l.started,
             l.urgents[p.i := l.urgents[p.i] + if urgent then 1 else 0])
  }

  ghost function LogStart(l: Log, i: int, c: Ctx): Log
    requires i in l.started
  {
    l.(started := l.started[i := l.started[i] + [c]])
  }

  ghost function LogAfter(s: State, e: Step): Log
    requires Shaped(s) && Enabled(s, e)
  {
    match e
    case LaunchPush(c) => LogPush(s.log, s.wires.aimed[c], c, Urgent(s.ctxs, c))
    case CallbackPush(j) =>
      var c := s.wires.poll[j].ctx;
      LogPush(s.log, s.wires.aimed[c], c, Urgent(s.ctxs, c))
    case Pop(i) => LogStart(s.log, i, s.wires.lists[CpuQueue(i)].head)
    case Walk(i) => if s.wires.cpu[i].ptr == NIL then s.log else LogStart(s.log, i, s.wires.cpu[i].ptr)
    case _ => s.log
  }

  ghost function Apply(s: State, e: Step): State
    requires Shaped(s) && Enabled(s, e)
  {
    State(s.stop || e.Stop?, WiresAfter(s, e), ContextsAfter(s, e), LogAfter(s, e))
  }

  ghost predicate Init(s: State) {
    var w := s.wires;
    && Shaped(s) && !s.stop && w.next == map[] && w.launching == {} && w.aimed == map[] && w.flying == {}
    && s.ctxs.deleted == multiset{}
    && (forall p :: p in w.lists ==> w.lists[p] == List(NIL, NIL))
    && (forall i :: i in w.cpu ==> w.cpu[i] == AtPop && s.log.pushed[i] == [] && s.log.started[i] == [] && s.log.urgents[i] == 0)
    && (forall j :: j in w.poll ==> w.poll[j] == InRun && w.watched[j] == {})
  }

  /** The states passed, the last of them reached after all the steps. */
  ghost predicate IsRun(run: seq<State>, es: seq<Step>) {
    && |run| == |es| + 1 && Init(run[0])
    && (forall k :: 0 <= k < |es| ==> Shaped(run[k]) && Enabled(run[k], es[k]) && run[k + 1] == Apply(run[k], es[k]))
  }

  // -------------------------------------------------------------- the invariants

  ghost predicate Counted(w: Wires, x: Contexts) {
    && x.refs.Keys == w.next.Keys && x.external.Keys == w.next.Keys
    && (forall c :: c in w.next ==>
          x.refs[c] == x.external[c] + (if c in w.flying then 1 else 0) + |Runners(w.cpu, c)|)
    && (forall c :: x.deleted[c] == if c in w.next && x.refs[c] == 0 then 1 else 0)
    && (forall i :: i in w.cpu && w.cpu[i].Completing? ==> w.cpu[i].ctx in w.next)
  }

  /** CPU thread i has been told what was pushed: begun, cleared and queued, in this order;
      in the order of the pushes when none went to the front. */
  ghost predicate InOrder(l: Log, v: View, i: int) {
    && CpuBatch(i) in v.lines && CpuQueue(i) in v.lines
    && i in l.started && i in l.pushed && i in l.urgents
    && var told := l.started[i] + v.lines[CpuBatch(i)] + v.lines[CpuQueue(i)];
       multiset(told) == multiset(l.pushed[i]) && (l.urgents[i] == 0 ==> told == l.pushed[i])
  }

  ghost predicate Ordered(cpus: set<int>, l: Log, v: View) {
    forall i :: i in cpus ==> InOrder(l, v, i)
  }

  ghost predicate Inv(s: State, v: View) {
    && Shaped(s) && Core(s.wires, v) && Counted(s.wires, s.ctxs) && Ordered(s.wires.cpu.Keys, s.log, v) && KindsFit(s.ctxs, v)
    && Calls(s.wires, s.ctxs)
  }

  ghost function PushView(s: State, v: View, c: Ctx): View
    requires c in s.wires.aimed
  {
    var p := s.wires.aimed[c];
    if p in v.lines then Joined(v, p, c, Urgent(s.ctxs, c)) else v
  }

  /** The view after a step. */
  ghost function ViewAfter(s: State, v: View, e: Step): View
    requires Shaped(s) && Enabled(s, e) && Core(s.wires, v)
  {
    match e
    case LaunchBegin(c) => v.(at := v.at[c := Launching])
    case Aim(c) => v.(at := v.at[c := Aimed(Target(s, c, s.ctxs.kind[c]))])
    case LaunchPush(c) => PushView(s, v, c)
    case LaunchFail(c) => v.(at := v.at - {c})
    case Pop(i) => if CpuQueue(i) in v.lines && v.lines[CpuQueue(i)] != [] then Left(v, CpuQueue(i)) else v
    case Clear(i) => if CpuQueue(i) in v.lines then Moved(v, CpuQueue(i), CpuBatch(i)) else v
    case Walk(i) => if CpuBatch(i) in v.lines && v.lines[CpuBatch(i)] != [] then Left(v, CpuBatch(i)) else v
    case PollClear(j) => if PollQueue(j) in v.lines then Moved(v, PollQueue(j), PollBatch(j)) else v
    case Register(j) => if PollBatch(j) in v.lines && v.lines[PollBatch(j)] != [] then NowWatched(v, j) else v
    case Callback(j, c) => v.(at := v.at[c := Launching])
    case CallbackPush(j) => PushView(s, v, s.wires.poll[j].ctx)
    case _ => v
  }

  // ------------------------------------------------------ every step keeps them

  lemma ClientKeepsCore(s: State, v: View, e: Step)
    requires Shaped(s) && ClientEnabled(s, e) && Core(s.wires, v)
    ensures Core(ClientWires(s, e), ViewAfter(s, v, e))
    ensures ClientWires(s, e).next.Keys == s.wires.next.Keys + if e.Create? then {e.c} else {}
  {
    hide Linked, Placed, PushDone, Joined, Urgent, BeingCalled;
    var w := s.wires;
    match e
    case Create(c, _) => NewKeeps(w, v, c);
    case LaunchBegin(c) => LaunchKeeps(w, v, c);
    case Aim(c) => AimKeeps(w, v, Target(s, c, s.ctxs.kind[c]), c);
    case LaunchFail(c) => CancelKeeps(w, v, c);
    case LaunchPush(c) => PushKeeps(w, v, c, Urgent(s.ctxs, c));
    case _ =>
  }

  lemma ThreadKeepsCore(s: State, v: View, e: Step)
    requires Shaped(s) && ThreadEnabled(s, e) && Core(s.wires, v)
    ensures Core(ThreadWires(s, e), ViewAfter(s, v, e))
    ensures ThreadWires(s, e).next.Keys == s.wires.next.Keys
  {
    hide Linked, Placed, PushDone, Joined, Urgent;
    var w := s.wires;
    match e
    case Pop(i) => PopKeeps(w, v, i);
    case Return(i) => ReturnKeeps(w, v, i);
    case Clear(i) => ClearKeeps(w, v, i);
    case Walk(i) => WalkKeeps(w, v, i);
    case PollClear(j) => PollClearKeeps(w, v, j);
    case Register(j) => RegisterKeeps(w, v, j);
    case Callback(j, c) => CallbackKeeps(w, v, j, c);
    case CallbackPush(j) => CallbackPushKeeps(w, v, j, w.poll[j].ctx, Urgent(s.ctxs, w.poll[j].ctx));
  }

  // ------------------------------------------------------------ reference counts

  lemma RunnersSet(cpu: map<int, CpuPc>, i: int, pc: CpuPc, d: Ctx)
    requires i in cpu
    ensures |Runners(cpu[i := pc], d)| == |Runners(cpu, d)|
            - (if cpu[i].Completing? && cpu[i].ctx == d then 1 else 0)
            + (if pc.Completing? && pc.ctx == d then 1 else 0)
  {
    var rest := Runners(cpu, d) - {i};
    assert Runners(cpu, d) == if cpu[i].Completing? && cpu[i].ctx == d then rest + {i} else rest;
    assert Runners(cpu[i := pc], d) == if pc.Completing? && pc.ctx == d then rest + {i} else rest;
  }

  /** No count and no runner has changed. */
  lemma CountedSame(w: Wires, x: Contexts, w': Wires, x': Contexts)
    requires Counted(w, x)
    requires w'.next.Keys == w.next.Keys && w'.flying == w.flying && w'.cpu == w.cpu
    requires x'.refs == x.refs && x'.external == x.external && x'.deleted == x.deleted
    ensures Counted(w', x')
  {
    hide Runners;
  }

  /** CPU thread i goes from one program counter to another, with c's reference. */
  lemma CountedMove(w: Wires, x: Contexts, w': Wires, i: int, pc: CpuPc)
    requires Counted(w, x)
    requires w'.next.Keys == w.next.Keys && i in w.cpu && w'.cpu == w.cpu[i := pc] && !w.cpu[i].Completing?
    requires if pc.Completing? then pc.ctx in w.next && pc.ctx in w.flying && w'.flying == w.flying - {pc.ctx}
             else w'.flying == w.flying
    ensures Counted(w', x)
  {
    hide Runners;
    forall c | c in w'.next
      ensures x.refs[c] == x.external[c] + (if c in w'.flying then 1 else 0) + |Runners(w'.cpu, c)|
    {
      RunnersSet(w.cpu, i, pc, c);
    }
  }

  lemma CountedReturn(w: Wires, x: Contexts, w': Wires, i: int, pc: CpuPc)
    requires Counted(w, x)
    requires w'.next.Keys == w.next.Keys && i in w.cpu && w.cpu[i].Completing? && w.cpu[i].ctx in w.next
    requires w'.cpu == w.cpu[i := pc] && !pc.Completing? && w'.flying == w.flying
    ensures Counted(w', Dropped(x, w.cpu[i].ctx))
  {
    hide Runners;
    var x' := Dropped(x, w.cpu[i].ctx);
    RunnersSet(w.cpu, i, pc, w.cpu[i].ctx);
    forall c | c in w'.next
      ensures x'.refs[c] == x.external[c] + (if c in w'.flying then 1 else 0) + |Runners(w'.cpu, c)|
    {
      RunnersSet(w.cpu, i, pc, c);
    }
  }

  /** A context a client may touch has a reference. */
  lemma UsableIsLive(s: State, c: Ctx)
    requires Shaped(s) && Counted(s.wires, s.ctxs) && c in s.wires.next && CanUse(s, c)
    ensures s.ctxs.refs[c] >= 1
  {
  }

  /** Only the counts of c change, and they still add up. */
  lemma CountedAt(w: Wires, x: Contexts, w': Wires, x': Contexts, c: Ctx)
    requires Counted(w, x)
    requires w'.cpu == w.cpu && w'.next.Keys == w.next.Keys + {c} && w'.flying - {c} == w.flying - {c}
    requires x'.refs.Keys == w'.next.Keys && x'.refs == x.refs[c := x'.refs[c]]
    requires x'.external.Keys == w'.next.Keys && x'.external == x.external[c := x'.external[c]]
    requires x'.refs[c] == x'.external[c] + (if c in w'.flying then 1 else 0) + |Runners(w.cpu, c)|
    requires x'.deleted == x.deleted[c := if x'.refs[c] == 0 then 1 else 0]
    ensures Counted(w', x')
  {
    hide Runners;
    forall d | d in w'.next
      ensures x'.refs[d] == x'.external[d] + (if d in w'.flying then 1 else 0) + |Runners(w'.cpu, d)|
    {
      assert d in w'.flying - {c} <==> d in w.flying - {c};
    }
  }

  lemma NewCounted(w: Wires, x: Contexts, c: Ctx, h: nat)
    requires Counted(w, x)
    requires c !in w.next && c !in w.flying
    ensures Counted(w.(next := w.next[c := NIL]),
              Contexts(x.refs[c := 1], x.external[c := 1], x.kind[c := Nop], x.hint[c := h], x.deleted))
  {
    assert Runners(w.cpu, c) == {} by {
      forall i ensures i !in Runners(w.cpu, c) {}
    }
    CountedAt(w, x, w.(next := w.next[c := NIL]),
      Contexts(x.refs[c := 1], x.external[c := 1], x.kind[c := Nop], x.hint[c := h], x.deleted), c);
  }

  lemma AcquireCounted(w: Wires, x: Contexts, c: Ctx)
    requires Counted(w, x)
    requires c in w.next && x.refs[c] >= 1
    ensures Counted(w, Taken(x, c).(external := x.external[c := x.external[c] + 1]))
    ensures c !in w.flying ==>
            Counted(w.(launching := w.launching + {c}, flying := w.flying + {c}), Taken(x, c))
  {
    hide Runners;
    CountedAt(w, x, w, Taken(x, c).(external := x.external[c := x.external[c] + 1]), c);
    if c !in w.flying {
      CountedAt(w, x, w.(launching := w.launching + {c}, flying := w.flying + {c}), Taken(x, c), c);
    }
  }

  lemma ReleaseCounted(w: Wires, x: Contexts, c: Ctx)
    requires Counted(w, x) && c in w.next
    requires x.external[c] > 0
    ensures Counted(w, Dropped(x, c).(external := x.external[c := x.external[c] - 1]))
  {
    hide Runners;
    CountedAt(w, x, w, Dropped(x, c).(external := x.external[c := x.external[c] - 1]), c);
  }

  lemma CancelCounted(w: Wires, x: Contexts, c: Ctx)
    requires Counted(w, x) && c in w.next
    requires c in w.flying
    ensures Counted(w.(launching := w.launching - {c}, flying := w.flying - {c}), Dropped(x, c))
  {
    hide Runners;
    CountedAt(w, x, w.(launching := w.launching - {c}, flying := w.flying - {c}), Dropped(x, c), c);
  }

  lemma LaunchKeepsCounted(s: State, v: View, e: Step)
    requires Shaped(s) && ClientEnabled(s, e) && Counted(s.wires, s.ctxs) && Placed(s.wires, v)
    requires e.LaunchBegin? || e.LaunchFail? || e.LaunchPush? || e.Aim?
    requires e.LaunchPush? ==> ClientWires(s, e).next.Keys == s.wires.next.Keys
    ensures Counted(ClientWires(s, e), ContextsAfter(s, e))
  {
    hide Runners, CanUse, Wired, Placed, Counted, BeingCalled;
    var w, x := s.wires, s.ctxs;
    match e
    case LaunchBegin(c) =>
      UsableIsLive(s, c);
      AcquireCounted(w, x, c);
    case LaunchFail(c) =>
      LaunchingFlies(w, v, c);
      CancelCounted(w, x, c);
    case Aim(c) => CountedSame(w, x, ClientWires(s, e), x);
    case LaunchPush(c) => CountedSame(w, x, ClientWires(s, e), x);
  }

  lemma ClientKeepsCounted(s: State, v: View, e: Step)
    requires Shaped(s) && ClientEnabled(s, e) && Counted(s.wires, s.ctxs) && Placed(s.wires, v)
    requires e.LaunchPush? ==> ClientWires(s, e).next.Keys == s.wires.next.Keys
    ensures Counted(ClientWires(s, e), ContextsAfter(s, e))
  {
    hide Runners, CanUse, Wired, Placed, Counted, PushDone, BeingCalled;
    var w, x := s.wires, s.ctxs;
    match e
    case Create(c, h) =>
      NewIsNotFlying(w, v, c);
      NewCounted(w, x, c, h);
    case Acquire(c) =>
      UsableIsLive(s, c);
      AcquireCounted(w, x, c);
    case Release(c) => ReleaseCounted(w, x, c);
    case LaunchBegin(c) => LaunchKeepsCounted(s, v, e);
    case LaunchFail(c) => LaunchKeepsCounted(s, v, e);
    case Aim(c) => LaunchKeepsCounted(s, v, e);
    case LaunchPush(c) => LaunchKeepsCounted(s, v, e);
    case SetEvent(_, _) => CountedSame(w, x, w, ContextsAfter(s, e));
    case SetHint(_, _) => CountedSame(w, x, w, ContextsAfter(s, e));
    case Stop =>
  }

  lemma NewIsNotFlying(w: Wires, v: View, c: Ctx)
    requires Placed(w, v) && c !in w.next
    ensures c !in w.flying
  {
  }

  lemma LaunchingFlies(w: Wires, v: View, c: Ctx)
    requires Placed(w, v) && c in w.launching
    ensures c in w.flying
  {
    assert Sits(w, v, c, Launching);
  }

  lemma StartCounted(s: State, v: View, e: Step)
    requires Shaped(s) && ThreadEnabled(s, e) && Counted(s.wires, s.ctxs) && Core(s.wires, v) && (e.Pop? || e.Walk?)
    requires ThreadWires(s, e).next.Keys == s.wires.next.Keys
    ensures Counted(ThreadWires(s, e), s.ctxs)
  {
    hide Runners, Placed, Linked, Counted;
    var w, x, w' := s.wires, s.ctxs, ThreadWires(s, e);
    if e.Pop? {
      PopKeeps(w, v, e.i);
      LineMembers(w, v, CpuQueue(e.i));
    } else {
      WalkKeeps(w, v, e.i);
      LineMembers(w, v, CpuBatch(e.i));
    }
    CountedMove(w, x, w', e.i, w'.cpu[e.i]);
  }

  lemma ThreadKeepsCounted(s: State, v: View, e: Step)
    requires Shaped(s) && ThreadEnabled(s, e) && Counted(s.wires, s.ctxs) && Core(s.wires, v)
    requires ThreadWires(s, e).next.Keys == s.wires.next.Keys
    ensures Counted(ThreadWires(s, e), ContextsAfter(s, e))
  {
    hide Runners, Core, Counted, ThreadWires;
    if e.Pop? || e.Walk? {
      StartCounted(s, v, e);
    } else if e.Clear? || e.Return? {
      StopCounted(s, e);
    } else {
      PollKeepsCounted(s, e);
    }
  }

  lemma StopCounted(s: State, e: Step)
    requires Shaped(s) && ThreadEnabled(s, e) && Counted(s.wires, s.ctxs) && (e.Clear? || e.Return?)
    ensures Counted(ThreadWires(s, e), ContextsAfter(s, e))
  {
    hide Runners, Counted;
    var w, x, w' := s.wires, s.ctxs, ThreadWires(s, e);
    if e.Clear? { CountedMove(w, x, w', e.i, w'.cpu[e.i]); } else { CountedReturn(w, x, w', e.i, w'.cpu[e.i]); }
  }

  lemma PollKeepsCounted(s: State, e: Step)
    requires Shaped(s) && ThreadEnabled(s, e) && Counted(s.wires, s.ctxs)
    requires ThreadWires(s, e).next.Keys == s.wires.next.Keys
    requires e.PollClear? || e.Register? || e.Callback? || e.CallbackPush?
    ensures Counted(ThreadWires(s, e), ContextsAfter(s, e))
  {
    hide Runners, Counted, Urgent;
    CountedSame(s.wires, s.ctxs, ThreadWires(s, e), ContextsAfter(s, e));
  }

  // --------------------------------------------------------- order of completion

  /** Pushed at the back, an entry is told last; pushed at the front, it is told once. */
  lemma ToldPush(a: seq<Ctx>, b: seq<Ctx>, q: seq<Ctx>, c: Ctx)
    ensures a + b + (q + [c]) == a + b + q + [c]
    ensures multiset(a + b + ([c] + q)) == multiset(a + b + q + [c])
  {
  }

  /** The first entry begins: nothing is told anew. */
  lemma ToldStart(a: seq<Ctx>, q: seq<Ctx>, r: seq<Ctx>)
    requires q != []
    ensures (a + [q[0]]) + q[1..] + r == a + q + r
    ensures (a + [q[0]]) + [] + q[1..] == a + [] + q
  {
    assert q == [q[0]] + q[1..];
  }

  lemma ToldClear(a: seq<Ctx>, q: seq<Ctx>)
    ensures a + q + [] == a + [] + q
  {
  }

  lemma PushInOrder(l: Log, v: View, p: Line, c: Ctx, front: bool, i: int)
    requires InOrder(l, v, i) && p in v.lines && (p.CpuQueue? ==> p.i in l.pushed && p.i in l.urgents)
    requires p.CpuQueue? || p.PollQueue?
    ensures InOrder(LogPush(l, p, c, front), Joined(v, p, c, front), i)
  {
    if p == CpuQueue(i) {
      ToldPush(l.started[i], v.lines[CpuBatch(i)], v.lines[p], c);
    }
  }

  lemma PushOrdered(cpus: set<int>, l: Log, v: View, p: Line, c: Ctx, front: bool)
    requires Ordered(cpus, l, v) && p in v.lines && (p.CpuQueue? ==> p.i in l.pushed && p.i in l.urgents)
    requires p.CpuQueue? || p.PollQueue?
    ensures Ordered(cpus, LogPush(l, p, c, front), Joined(v, p, c, front))
  {
    hide InOrder, LogPush, Joined;
    forall i | i in cpus ensures InOrder(LogPush(l, p, c, front), Joined(v, p, c, front), i) {
      PushInOrder(l, v, p, c, front, i);
    }
  }

  lemma StartInOrder(l: Log, v: View, p: Line, i: int, k: int)
    requires InOrder(l, v, i) && InOrder(l, v, k) && p in v.lines && v.lines[p] != []
    requires p == CpuBatch(k) || (p == CpuQueue(k) && v.lines[CpuBatch(k)] == [])
    ensures InOrder(LogStart(l, k, v.lines[p][0]), Left(v, p), i)
  {
    if i == k {
      ToldStart(l.started[i], v.lines[p], v.lines[CpuQueue(i)]);
    }
  }

  lemma StartOrdered(cpus: set<int>, l: Log, v: View, p: Line, k: int)
    requires Ordered(cpus, l, v) && k in cpus && k in l.started && p in v.lines && v.lines[p] != [] && CpuBatch(k) in v.lines
    requires p == CpuBatch(k) || (p == CpuQueue(k) && v.lines[CpuBatch(k)] == [])
    ensures Ordered(cpus, LogStart(l, k, v.lines[p][0]), Left(v, p))
  {
    hide InOrder, LogStart, Left;
    forall i | i in cpus ensures InOrder(LogStart(l, k, v.lines[p][0]), Left(v, p), i) {
      StartInOrder(l, v, p, i, k);
    }
  }

  lemma MoveOrdered(cpus: set<int>, l: Log, v: View, p: Line, q: Line)
    requires Ordered(cpus, l, v) && p in v.lines && q in v.lines && v.lines[q] == []
    requires (p == CpuQueue(p.i) && q == CpuBatch(p.i)) || (p == PollQueue(p.i) && q == PollBatch(p.i))
    ensures Ordered(cpus, l, Moved(v, p, q))
  {
    forall i | i in cpus ensures InOrder(l, Moved(v, p, q), i) {
      if p == CpuQueue(i) {
        ToldClear(l.started[i], v.lines[p]);
      }
    }
  }

  lemma WatchOrdered(cpus: set<int>, l: Log, v: View, j: int)
    requires Ordered(cpus, l, v) && PollBatch(j) in v.lines && v.lines[PollBatch(j)] != []
    ensures Ordered(cpus, l, NowWatched(v, j))
  {
  }

  lemma SameOrdered(cpus: set<int>, l: Log, v: View, v': View)
    requires Ordered(cpus, l, v) && v'.lines == v.lines
    ensures Ordered(cpus, l, v')
  {
  }

  lemma ClientKeepsOrder(s: State, v: View, e: Step)
    requires Shaped(s) && ClientEnabled(s, e) && Core(s.wires, v) && Ordered(s.wires.cpu.Keys, s.log, v)
    ensures Ordered(s.wires.cpu.Keys, LogAfter(s, e), ViewAfter(s, v, e))
  {
    hide Ordered, Joined, LogPush, Linked, Placed, CanUse, Urgent, BeingCalled;
    if e.LaunchPush? {
      var p := s.wires.aimed[e.c];
      LinkedAt(s.wires, v, p);
      PushOrdered(s.wires.cpu.Keys, s.log, v, p, e.c, Urgent(s.ctxs, e.c));
    } else {
      SameOrdered(s.wires.cpu.Keys, s.log, v, ViewAfter(s, v, e));
    }
  }

  lemma CpuKeepsOrder(s: State, v: View, e: Step)
    requires Shaped(s) && ThreadEnabled(s, e) && Core(s.wires, v) && Ordered(s.wires.cpu.Keys, s.log, v)
    requires e.Pop? || e.Return? || e.Clear? || e.Walk?
    ensures Ordered(s.wires.cpu.Keys, LogAfter(s, e), ViewAfter(s, v, e))
  {
    hide Ordered, Linked, Placed, Left, LogStart, Moved;
    var w, cpus := s.wires, s.wires.cpu.Keys;
    BatchHead(w, v, CpuBatch(e.i));
    match e
    case Pop(k) =>
      PopKeeps(w, v, k);
      StartOrdered(cpus, s.log, v, CpuQueue(k), k);
    case Clear(k) =>
      LinkedAt(w, v, CpuQueue(k));
      MoveOrdered(cpus, s.log, v, CpuQueue(k), CpuBatch(k));
    case Walk(k) => if w.cpu[k].ptr != NIL { StartOrdered(cpus, s.log, v, CpuBatch(k), k); }
    case Return(_) =>
  }

  lemma PollKeepsOrder(s: State, v: View, e: Step)
    requires Shaped(s) && ThreadEnabled(s, e) && Core(s.wires, v) && Ordered(s.wires.cpu.Keys, s.log, v)
    requires e.PollClear? || e.Register? || e.Callback? || e.CallbackPush?
    ensures Ordered(s.wires.cpu.Keys, LogAfter(s, e), ViewAfter(s, v, e))
  {
    hide Ordered, Linked, Placed, Joined, LogPush, Moved, NowWatched, Urgent;
    var w, cpus := s.wires, s.wires.cpu.Keys;
    BatchHead(w, v, PollBatch(e.j));
    match e
    case PollClear(k) =>
      LinkedAt(w, v, PollQueue(k));
      MoveOrdered(cpus, s.log, v, PollQueue(k), PollBatch(k));
    case Register(k) => if w.poll[k].ptr != NIL { WatchOrdered(cpus, s.log, v, k); }
    case Callback(_, _) => SameOrdered(cpus, s.log, v, ViewAfter(s, v, e));
    case CallbackPush(k) =>
      var c := w.poll[k].ctx;
      LinkedAt(w, v, w.aimed[c]);
      PushOrdered(cpus, s.log, v, w.aimed[c], c, Urgent(s.ctxs, c));
  }

  // -------------------------------------------------------- where kinds belong

  /** On its way to libev or registered. */
  ghost predicate OnPollSide(x: Where) {
    x.Watched? || ((x.OnLine? || x.Aimed?) && (x.line.PollQueue? || x.line.PollBatch?))
  }

  /** On the queue or the cleared chain of a CPU thread, or about to be pushed there. */
  ghost predicate OnCpuSide(x: Where) { (x.OnLine? || x.Aimed?) && (x.line.CpuQueue? || x.line.CpuBatch?) }

  /** Network events are on the poll side, CPU events on the CPU side. */
  ghost predicate KindsFit(x: Contexts, v: View) {
    forall c :: c in v.at && !v.at[c].Launching? ==>
      c in x.kind && (OnPollSide(v.at[c]) ==> x.kind[c] == NetEvent) && (OnCpuSide(v.at[c]) ==> x.kind[c].CpuEvent?)
  }

  /** The place of an aimed context. */
  lemma AimedIs(w: Wires, v: View, c: Ctx)
    requires Core(w, v) && c in w.aimed
    ensures c in v.at && v.at[c] == Aimed(w.aimed[c]) && w.aimed[c] in v.lines && c in w.next
  {
    hide Linked;
    assert Sits(w, v, c, Aimed(w.aimed[c]));
    LinkedAt(w, v, w.aimed[c]);
  }

  ghost predicate FitsAt(kind: Kind, x: Where) {
    (OnPollSide(x) ==> kind == NetEvent) && (OnCpuSide(x) ==> kind.CpuEvent?)
  }

  lemma KindsMove(x: Contexts, v: View, x': Contexts, v': View, c: Ctx, y: Where)
    requires KindsFit(x, v) && v'.at == v.at[c := y] && c in x'.kind && x'.kind == x.kind[c := x'.kind[c]]
    requires FitsAt(x'.kind[c], y)
    ensures KindsFit(x', v')
  {
  }

  lemma KindsHandOver(x: Contexts, v: View, p: Line, q: Line)
    requires KindsFit(x, v) && p in v.lines
    requires (p.CpuQueue? && q.CpuBatch?) || (p.PollQueue? && q.PollBatch?)
    ensures KindsFit(x, Moved(v, p, q))
  {
  }

  /** A push moves c from being aimed at a queue to that queue. */
  lemma KindsPush(s: State, v: View, c: Ctx)
    requires Core(s.wires, v) && KindsFit(s.ctxs, v) && c in s.wires.aimed && s.ctxs.kind.Keys == s.wires.next.Keys
    ensures KindsFit(s.ctxs, PushView(s, v, c))
  {
    hide Linked, Placed, Urgent;
    AimedIs(s.wires, v, c);
    KindsMove(s.ctxs, v, s.ctxs, PushView(s, v, c), c, OnLine(s.wires.aimed[c]));
  }

  lemma ClientKeepsKinds(s: State, v: View, e: Step)
    requires Shaped(s) && ClientEnabled(s, e) && Core(s.wires, v) && KindsFit(s.ctxs, v)
    ensures KindsFit(ContextsAfter(s, e), ViewAfter(s, v, e))
  {
    hide Linked, Wired, Sits, BeingCalled, Urgent, PushView, CanUse;
    if e.LaunchPush? { KindsPush(s, v, e.c); }
  }

  lemma ThreadKeepsKinds(s: State, v: View, e: Step)
    requires Shaped(s) && ThreadEnabled(s, e) && Core(s.wires, v) && KindsFit(s.ctxs, v)
    ensures KindsFit(ContextsAfter(s, e), ViewAfter(s, v, e))
  {
    hide Linked, Placed, Urgent, PushView, Moved, NowWatched;
    var w, x := s.wires, s.ctxs;
    match e
    case Clear(i) => if CpuQueue(i) in v.lines { KindsHandOver(x, v, CpuQueue(i), CpuBatch(i)); }
    case PollClear(j) => if PollQueue(j) in v.lines { KindsHandOver(x, v, PollQueue(j), PollBatch(j)); }
    case Callback(j, c) => KindsMove(x, v, ContextsAfter(s, e), ViewAfter(s, v, e), c, Launching);
    case CallbackPush(j) => KindsPush(s, v, w.poll[j].ctx);
    case Register(j) => KindsRegister(s, v, j);
    case _ =>
  }

  lemma KindsRegister(s: State, v: View, j: int)
    requires Shaped(s) && Core(s.wires, v) && KindsFit(s.ctxs, v) && j in s.wires.poll && s.wires.poll[j].Registering?
    ensures PollBatch(j) in v.lines && v.lines[PollBatch(j)] != [] ==> KindsFit(s.ctxs, NowWatched(v, j))
  {
    hide Linked, Placed;
    RegisterKeeps(s.wires, v, j);
    if v.lines[PollBatch(j)] != [] {
      LineMembers(s.wires, v, PollBatch(j));
      KindsMove(s.ctxs, v, s.ctxs, NowWatched(v, j), v.lines[PollBatch(j)][0], Watched(j));
    }
  }

  // -------------------------------------------------------- callbacks under way

  /** A poll thread inside net_callback(c) has c, a CPU event now, before its push, and no
      other poll thread has it. */
  ghost predicate Calls(w: Wires, x: Contexts) {
    && (forall j :: j in w.poll && w.poll[j].Calling? ==>
          var c := w.poll[j].ctx; (c in w.launching || c in w.aimed) && c in x.kind && x.kind[c].CpuEvent?)
    && (forall j, k :: j in w.poll && k in w.poll && w.poll[j].Calling? && w.poll[k].Calling? && j != k ==>
          w.poll[j].ctx != w.poll[k].ctx)
  }

  /** What is before its push is in flight and not registered. */
  lemma CalledFlies(w: Wires, v: View, c: Ctx)
    requires Placed(w, v) && (c in w.launching || c in w.aimed)
    ensures c in w.flying && c in w.next && forall j :: j in w.watched ==> c !in w.watched[j]
  {
    if c in w.launching { assert Sits(w, v, c, Launching); } else { assert Sits(w, v, c, Aimed(w.aimed[c])); }
    forall j | j in w.watched ensures c !in w.watched[j] { assert !Sits(w, v, c, Watched(j)); }
  }

  lemma ClientKeepsCalls(s: State, v: View, e: Step)
    requires Shaped(s) && ClientEnabled(s, e) && Core(s.wires, v) && Calls(s.wires, s.ctxs)
    ensures Calls(ClientWires(s, e), ContextsAfter(s, e))
  {
    hide Core, CanUse, Urgent, Pushed;
    var w := s.wires;
    CoreParts(w, v);
    forall j | j in w.poll && w.poll[j].Calling? ensures w.poll[j].ctx in w.flying && w.poll[j].ctx in w.next {
      CalledFlies(w, v, w.poll[j].ctx);
    }
    if e.LaunchPush? { PushedPolls(w, w.aimed[e.c], e.c, Urgent(s.ctxs, e.c)); }
  }

  lemma PushedPolls(w: Wires, p: Line, c: Ctx, front: bool)
    requires p in w.lists
    ensures Pushed(w, p, c, front).poll == w.poll && Pushed(w, p, c, front).launching == w.launching
  {
  }

  lemma CallsFewer(w: Wires, x: Contexts, w': Wires, x': Contexts)
    requires Calls(w, x) && x'.kind == x.kind && w'.launching == w.launching && w'.aimed == w.aimed
    requires forall j :: j in w'.poll && w'.poll[j].Calling? ==> j in w.poll && w'.poll[j] == w.poll[j]
    ensures Calls(w', x')
  {
  }

  lemma ReportKeepsCalls(w: Wires, v: View, x: Contexts, j: int, c: Ctx)
    requires Calls(w, x) && Placed(w, v) && j in w.watched && c in w.watched[j]
    ensures Calls(Reported(w, j, c), x.(kind := x.kind[c := CpuEvent(false)]))
  {
    hide Placed;
    forall k | k in w.poll && w.poll[k].Calling? ensures w.poll[k].ctx != c { CalledFlies(w, v, w.poll[k].ctx); }
  }

  lemma CalledPushKeepsCalls(w: Wires, x: Contexts, j: int, front: bool)
    requires Calls(w, x) && j in w.poll && w.poll[j].Calling? && w.poll[j].ctx in w.aimed
    requires w.aimed[w.poll[j].ctx] in w.lists
    ensures Calls(PushDone(w, w.poll[j].ctx, front).(poll := w.poll[j := InRun]), x)
  {
    hide Pushed;
    PushedPolls(w, w.aimed[w.poll[j].ctx], w.poll[j].ctx, front);
  }

  lemma ThreadKeepsCalls(s: State, v: View, e: Step)
    requires Shaped(s) && ThreadEnabled(s, e) && Core(s.wires, v) && Calls(s.wires, s.ctxs)
    ensures Calls(ThreadWires(s, e), ContextsAfter(s, e))
  {
    hide Core, Urgent, PushDone, Calls;
    var w := s.wires;
    CoreParts(w, v);
    if e.Callback? {
      ReportKeepsCalls(w, v, s.ctxs, e.j, e.c);
    } else if e.CallbackPush? {
      CalledPushKeepsCalls(w, s.ctxs, e.j, Urgent(s.ctxs, w.poll[e.j].ctx));
    } else if e.PollClear? || e.Register? {
      CallsFewer(w, s.ctxs, ThreadWires(s, e), ContextsAfter(s, e));
    } else {
      CpuKeepsCalls(s, e);
    }
  }

  lemma CpuKeepsCalls(s: State, e: Step)
    requires Shaped(s) && ThreadEnabled(s, e) && Calls(s.wires, s.ctxs) && (e.Pop? || e.Return? || e.Clear? || e.Walk?)
    ensures Calls(ThreadWires(s, e), ContextsAfter(s, e))
  {
    hide Calls;
    CallsFewer(s.wires, s.ctxs, ThreadWires(s, e), ContextsAfter(s, e));
  }

  lemma WatchedSits(w: Wires, v: View, j: int, c: Ctx)
    requires j in w.watched && c in w.watched[j]
    ensures Sits(w, v, c, Watched(j))
  {
  }

  // ---------------------------------------------------------------- every run

  lemma ContextKeys(s: State, e: Step)
    requires Shaped(s) && Enabled(s, e)
    ensures var x, made := ContextsAfter(s, e), s.wires.next.Keys + if e.Create? then {e.c} else {};
            x.refs.Keys == made && x.external.Keys == made && x.kind.Keys == made && x.hint.Keys == made
  {
    hide Wired, CanUse;
    if !e.Create? {
      assert s.wires.next.Keys + {} == s.wires.next.Keys;
      SameContextKeys(s, e);
    }
  }

  lemma CountKeys(x: Contexts, c: Ctx)
    requires c in x.refs
    ensures Taken(x, c).refs.Keys == x.refs.Keys && Dropped(x, c).refs.Keys == x.refs.Keys
    ensures Taken(x, c).(refs := x.refs) == x && Dropped(x, c).(refs := x.refs, deleted := x.deleted) == x
  {
  }

  lemma SameContextKeys(s: State, e: Step)
    requires Shaped(s) && Enabled(s, e) && !e.Create?
    ensures ContextsAfter(s, e).refs.Keys == s.ctxs.refs.Keys && ContextsAfter(s, e).external.Keys == s.ctxs.external.Keys
    ensures ContextsAfter(s, e).kind.Keys == s.ctxs.kind.Keys && ContextsAfter(s, e).hint.Keys == s.ctxs.hint.Keys
  {
    hide Wired, CanUse, Taken, Dropped, BeingCalled;
    if e.Acquire? || e.Release? || e.LaunchBegin? || e.LaunchFail? { CountKeys(s.ctxs, e.c); }
    if e.Return? { CountKeys(s.ctxs, s.wires.cpu[e.i].ctx); }
  }

  lemma PushKeys(l: Log, p: Line, c: Ctx, urgent: bool)
    requires p.CpuQueue? ==> p.i in l.pushed && p.i in l.urgents
    ensures var m := LogPush(l, p, c, urgent);
            m.pushed.Keys == l.pushed.Keys && m.started == l.started && m.urgents.Keys == l.urgents.Keys
  {
  }

  lemma LogKeys(s: State, e: Step)
    requires Shaped(s) && Enabled(s, e)
    ensures var l, cpus := LogAfter(s, e), s.wires.cpu.Keys;
            l.pushed.Keys == cpus && l.started.Keys == cpus && l.urgents.Keys == cpus
  {
    hide CanUse, LogPush, Urgent, BeingCalled;
    if e.LaunchPush? { PushKeys(s.log, s.wires.aimed[e.c], e.c, Urgent(s.ctxs, e.c)); }
    if e.CallbackPush? {
      var c := s.wires.poll[e.j].ctx;
      PushKeys(s.log, s.wires.aimed[c], c, Urgent(s.ctxs, c));
    }
  }

  lemma ClientCpuKeys(s: State, e: Step)
    requires Shaped(s) && ClientEnabled(s, e)
    ensures ClientWires(s, e).cpu == s.wires.cpu && ClientWires(s, e).cpuThreads == s.wires.cpuThreads
  {
    hide CanUse, BeingCalled, Urgent, Pushed;
    if e.LaunchPush? { PushedSame(s.wires, s.wires.aimed[e.c], e.c, Urgent(s.ctxs, e.c)); }
  }

  lemma ThreadCpuKeys(s: State, e: Step)
    requires Shaped(s) && ThreadEnabled(s, e)
    ensures ThreadWires(s, e).cpu.Keys == s.wires.cpu.Keys && ThreadWires(s, e).cpuThreads == s.wires.cpuThreads
  {
    hide Urgent, Walked, Pushed;
    if e.Walk? { WalkedCpu(s.wires, e.i); }
    if e.CallbackPush? {
      var c := s.wires.poll[e.j].ctx;
      PushedSame(s.wires, s.wires.aimed[c], c, Urgent(s.ctxs, c));
    }
  }

  lemma WalkedCpu(w: Wires, i: int)
    requires i in w.cpu && w.cpu[i].Walking? && (w.cpu[i].ptr == NIL || w.cpu[i].ptr in w.next)
    ensures Walked(w, i).cpu.Keys == w.cpu.Keys && Walked(w, i).cpuThreads == w.cpuThreads
  {
  }

  lemma PushedSame(w: Wires, p: Line, c: Ctx, front: bool)
    requires p in w.lists
    ensures Pushed(w, p, c, front).cpu == w.cpu && Pushed(w, p, c, front).cpuThreads == w.cpuThreads
  {
  }

  lemma SameCpus(s: State, e: Step)
    requires Shaped(s) && Enabled(s, e)
    ensures WiresAfter(s, e).cpu.Keys == s.wires.cpu.Keys && WiresAfter(s, e).cpuThreads == s.wires.cpuThreads
  {
    hide Shaped, ClientEnabled, ThreadEnabled, ClientWires, ThreadWires;
    if ClientEnabled(s, e) { ClientCpuKeys(s, e); } else { ThreadCpuKeys(s, e); }
  }

  lemma StepKeepsShape(s: State, e: Step)
    requires Shaped(s) && Enabled(s, e) && Wired(WiresAfter(s, e))
    requires WiresAfter(s, e).next.Keys == s.wires.next.Keys + if e.Create? then {e.c} else {}
    ensures Shaped(Apply(s, e))
  {
    hide Wired, ClientEnabled, ThreadEnabled, ClientWires, ThreadWires, ContextsAfter, LogAfter;
    ContextKeys(s, e);
    LogKeys(s, e);
    SameCpus(s, e);
  }

  lemma CoreParts(w: Wires, v: View)
    requires Core(w, v)
    ensures Wired(w) && Placed(w, v)
  {
  }

  lemma StepKeepsInv(s: State, v: View, e: Step)
    requires Inv(s, v) && Enabled(s, e)
    ensures Inv(Apply(s, e), ViewAfter(s, v, e))
  {
    hide Core, Wired, Placed, Shaped, Counted, Ordered, KindsFit, Calls, ClientEnabled, ClientWires, ThreadWires, ContextsAfter, LogAfter, ViewAfter;
    CoreParts(s.wires, v);
    if ClientEnabled(s, e) {
      ClientKeepsCore(s, v, e);
      ClientKeepsCounted(s, v, e);
      ClientKeepsOrder(s, v, e);
      ClientKeepsKinds(s, v, e);
      ClientKeepsCalls(s, v, e);
    } else {
      ThreadKeepsCore(s, v, e);
      ThreadKeepsCounted(s, v, e);
      ThreadKeepsKinds(s, v, e);
      ThreadKeepsCalls(s, v, e);
      if e.PollClear? || e.Register? || e.Callback? || e.CallbackPush? { PollKeepsOrder(s, v, e); } else { CpuKeepsOrder(s, v, e); }
      assert !e.Create?;
    }
    CoreParts(WiresAfter(s, e), ViewAfter(s, v, e));
    StepKeepsShape(s, e);
    SameCpus(s, e);
  }
}
