/** When two CPU threads can be inside onComplete of one context: exactly when it runs on,
    or is queued for, a CPU thread other than the one its hint names. */
module ItachiOverlap {
  import opened SetFacts
  import opened SList
  import opened Itachi
  import opened ItachiRun
  import opened ItachiSafety

  /** CPU thread i is inside onComplete(c), or has c on its queue or on the chain it cleared, or
      a push of c has chosen its queue. */
  ghost predicate Visits(w: Wires, v: View, c: Ctx, i: int) {
    && i in w.cpu
    && (|| i in Runners(w.cpu, c)
        || (c in w.aimed && w.aimed[c] == CpuQueue(i))
        || (CpuQueue(i) in v.lines && c in v.lines[CpuQueue(i)])
        || (CpuBatch(i) in v.lines && c in v.lines[CpuBatch(i)]))
  }

  ghost predicate OnThread(hint: map<Ctx, nat>, n: nat, c: Ctx, i: int) {
    n >= 1 && c in hint && ThreadOf(hint[c], n) == i
  }

  /** c is with a CPU thread that its hint does not name. */
  ghost predicate Astray(s: State, v: View, c: Ctx) {
    exists i :: Visits(s.wires, v, c, i) && !OnThread(s.ctxs.hint, s.wires.cpuThreads, c, i)
  }

  /** The steps es can follow s, none of them moves the hint of c, and afterwards two CPU
      threads are inside onComplete(c). */
  ghost predicate Overlaps(s: State, es: seq<Step>, c: Ctx)
    decreases |es|
  {
    if es == [] then |Runners(s.wires.cpu, c)| >= 2
    else Shaped(s) && Enabled(s, es[0]) && !HintOf(es[0], c) && Overlaps(Apply(s, es[0]), es[1..], c)
  }

  predicate HintOf(e: Step, c: Ctx) { e.SetHint? && e.c == c }

  /** Some continuation, without a stop, leads to two runners. */
  ghost predicate CanOverlap(s: State, c: Ctx) {
    exists es :: Stop !in es && Overlaps(s, es, c)
  }

  /** The hint stays with its CPU thread, or is moved while c is not running and is out of
      flight or a network event. */
  ghost predicate SteadyHint(s: State, e: Step) {
    e.SetHint? && e.c in s.ctxs.hint && e.c in s.ctxs.kind && s.wires.cpuThreads >= 1 ==>
      || ThreadOf(e.h, s.wires.cpuThreads) == ThreadOf(s.ctxs.hint[e.c], s.wires.cpuThreads)
      || (&& Runners(s.wires.cpu, e.c) == {}
          && (e.c !in s.wires.flying || s.ctxs.kind[e.c] == NetEvent))
  }

  /** Or it is moved in time: c is being launched and the push has not read the hint yet, which
      the client that moves it cannot know. */
  ghost predicate InTime(s: State, e: Step) {
    e.SetHint? && Runners(s.wires.cpu, e.c) == {} && e.c in s.wires.launching
  }

  // ------------------------------------------------------------- staying at home

  /** c is queued for, and completes on, the CPU thread of its hint. */
  ghost predicate AtHome(cpu: map<int, CpuPc>, at: map<Ctx, Where>, hint: map<Ctx, nat>, n: nat, c: Ctx) {
    && (forall i :: i in Runners(cpu, c) ==> OnThread(hint, n, c, i))
    && (c in at && OnCpuSide(at[c]) ==> OnThread(hint, n, c, at[c].line.i))
  }

  ghost predicate Home(s: State, v: View, c: Ctx) {
    AtHome(s.wires.cpu, v.at, s.ctxs.hint, s.wires.cpuThreads, c)
  }

  lemma LineIsPlace(w: Wires, v: View, p: Line, c: Ctx)
    requires Placed(w, v)
    ensures p in v.lines && c in v.lines[p] <==> c in v.at && v.at[c] == OnLine(p)
  {
    assert Sits(w, v, c, OnLine(p)) <==> c in v.at && v.at[c] == OnLine(p);
  }

  lemma HomeIsNotAstray(s: State, v: View, c: Ctx)
    requires Inv(s, v)
    ensures Home(s, v, c) <==> !Astray(s, v, c)
  {
    hide Linked, Placed, Counted, Ordered, KindsFit, OnThread;
    var w := s.wires;
    forall i ensures Visits(w, v, c, i) <==>
        i in Runners(w.cpu, c) || (c in v.at && OnCpuSide(v.at[c]) && v.at[c].line.i == i) {
      LineIsPlace(w, v, CpuQueue(i), c);
      LineIsPlace(w, v, CpuBatch(i), c);
      AimIsPlace(w, v, c);
      if c in v.at && v.at[c].OnLine? { LineIsReal(w, v, v.at[c].line, c); }
    }
    if c in v.at && OnCpuSide(v.at[c]) { assert Visits(w, v, c, v.at[c].line.i); }
  }

  lemma AimIsPlace(w: Wires, v: View, c: Ctx)
    requires Core(w, v)
    ensures c in w.aimed <==> c in v.at && v.at[c].Aimed?
    ensures c in w.aimed ==> v.at[c].line == w.aimed[c] && IsQueue(w, w.aimed[c])
  {
    hide Linked;
    if c in w.aimed { assert Sits(w, v, c, Aimed(w.aimed[c])); }
    if c in v.at { assert Sits(w, v, c, v.at[c]); }
  }

  lemma LineIsReal(w: Wires, v: View, p: Line, c: Ctx)
    requires Core(w, v) && c in v.at && v.at[c] == OnLine(p)
    ensures IsQueue(w, p) || IsBatch(w, p)
  {
    LineIsPlace(w, v, p, c);
  }

  lemma HomeWithHint(cpu: map<int, CpuPc>, at: map<Ctx, Where>, hint: map<Ctx, nat>, n: nat, d: Ctx, c: Ctx, h: nat)
    requires AtHome(cpu, at, hint, n, d) && n >= 1
    requires d == c && c in hint ==>
      ThreadOf(h, n) == ThreadOf(hint[c], n) || ((c in at ==> !OnCpuSide(at[c])) && Runners(cpu, c) == {})
    ensures AtHome(cpu, at, hint[c := h], n, d)
  {
    hide Runners;
  }

  lemma HomeJoin(cpu: map<int, CpuPc>, at: map<Ctx, Where>, hint: map<Ctx, nat>, n: nat, d: Ctx, c: Ctx, x: Where)
    requires AtHome(cpu, at, hint, n, d) && (OnCpuSide(x) ==> OnThread(hint, n, c, x.line.i))
    ensures AtHome(cpu, at[c := x], hint, n, d)
  {
    hide Runners, OnThread;
  }

  lemma HomeLess(cpu: map<int, CpuPc>, at: map<Ctx, Where>, hint: map<Ctx, nat>, n: nat, d: Ctx, c: Ctx)
    requires AtHome(cpu, at, hint, n, d)
    ensures AtHome(cpu, at - {c}, hint, n, d)
  {
    hide Runners, OnThread;
  }

  lemma LaunchKeepsHome(s: State, v: View, e: Step, d: Ctx)
    requires Shaped(s) && Core(s.wires, v) && Home(s, v, d)
    requires ClientEnabled(s, e) && (e.LaunchBegin? || e.Aim? || e.LaunchPush? || e.LaunchFail?)
    ensures AtHome(s.wires.cpu, ViewAfter(s, v, e).at, s.ctxs.hint, s.wires.cpuThreads, d)
  {
    hide Linked, Placed, CanUse, ThreadOf, AtHome, BeingCalled, Urgent;
    var w, hint, n := s.wires, s.ctxs.hint, s.wires.cpuThreads;
    match e
    case LaunchBegin(c) => HomeJoin(w.cpu, v.at, hint, n, d, c, Launching);
    case Aim(c) => HomeJoin(w.cpu, v.at, hint, n, d, c, Aimed(Target(s, c, s.ctxs.kind[c])));
    case LaunchPush(c) => PushHome(s, v, c, d);
    case LaunchFail(c) => HomeLess(w.cpu, v.at, hint, n, d, c);
  }

  /** c goes from the push to the line it was aimed at. */
  lemma PushHome(s: State, v: View, c: Ctx, d: Ctx)
    requires Core(s.wires, v) && Home(s, v, d) && c in s.wires.aimed
    ensures AtHome(s.wires.cpu, PushView(s, v, c).at, s.ctxs.hint, s.wires.cpuThreads, d)
  {
    hide Linked, Placed, OnThread, Runners;
    AimedIs(s.wires, v, c);
  }

  /** What in flight, not in launch and not a network event means. */
  lemma OnCpuMeans(s: State, v: View, c: Ctx)
    requires Inv(s, v)
    ensures c in v.at && OnCpuSide(v.at[c]) <==>
            c in s.wires.flying && c !in s.wires.launching && c in s.ctxs.kind && s.ctxs.kind[c] != NetEvent
  {
    hide Linked, Wired, Counted, Ordered;
    assert Sits(s.wires, v, c, Launching) <==> c in v.at && v.at[c] == Launching;
    if c in v.at && v.at[c].OnLine? { LineIsReal(s.wires, v, v.at[c].line, c); }
  }

  lemma ClientKeepsHome(s: State, v: View, e: Step, d: Ctx)
    requires Inv(s, v) && Home(s, v, d) && (HintOf(e, d) ==> SteadyHint(s, e) || InTime(s, e)) && ClientEnabled(s, e)
    ensures AtHome(s.wires.cpu, ViewAfter(s, v, e).at, ContextsAfter(s, e).hint, s.wires.cpuThreads, d)
  {
    hide Linked, Placed, CanUse, Runners, ThreadOf, AtHome, Counted, Ordered, KindsFit;
    var w, hint, n := s.wires, s.ctxs.hint, s.wires.cpuThreads;
    if e.Create? || e.SetHint? {
      OnCpuMeans(s, v, e.c);
      HomeWithHint(w.cpu, v.at, hint, n, d, e.c, e.h);
    } else if e.LaunchBegin? || e.Aim? || e.LaunchPush? || e.LaunchFail? {
      LaunchKeepsHome(s, v, e, d);
    }
  }

  lemma HomeStart(w: Wires, v: View, hint: map<Ctx, nat>, p: Line, pc: CpuPc, d: Ctx)
    requires AtHome(w.cpu, v.at, hint, w.cpuThreads, d) && Placed(w, v) && p in v.lines && v.lines[p] != []
    requires (p.CpuQueue? || p.CpuBatch?) && pc.Completing? && pc.ctx == v.lines[p][0]
    ensures AtHome(w.cpu[p.i := pc], Left(v, p).at, hint, w.cpuThreads, d)
  {
    hide Placed, OnThread;
    LineMembers(w, v, p);
    assert pc.ctx in v.lines[p] && OnCpuSide(v.at[pc.ctx]);
    HomeLess(w.cpu, v.at, hint, w.cpuThreads, d, pc.ctx);
  }

  lemma CpuKeepsHome(s: State, v: View, e: Step, d: Ctx)
    requires Shaped(s) && Core(s.wires, v) && Home(s, v, d) && ThreadEnabled(s, e)
    requires e.Pop? || e.Return? || e.Clear? || e.Walk?
    ensures AtHome(ThreadWires(s, e).cpu, ViewAfter(s, v, e).at, s.ctxs.hint, s.wires.cpuThreads, d)
  {
    hide Linked, Placed, OnThread;
    var w := s.wires;
    match e
    case Pop(i) =>
      PopKeeps(w, v, i);
      HomeStart(w, v, s.ctxs.hint, CpuQueue(i), ThreadWires(s, e).cpu[i], d);
    case Walk(i) =>
      WalkKeeps(w, v, i);
      if w.cpu[i].ptr != NIL { HomeStart(w, v, s.ctxs.hint, CpuBatch(i), ThreadWires(s, e).cpu[i], d); }
    case _ =>
  }

  lemma PollKeepsHome(s: State, v: View, e: Step, d: Ctx)
    requires Shaped(s) && Core(s.wires, v) && Home(s, v, d) && ThreadEnabled(s, e)
    requires e.PollClear? || e.Register? || e.Callback? || e.CallbackPush?
    ensures ThreadWires(s, e).cpu == s.wires.cpu
    ensures AtHome(s.wires.cpu, ViewAfter(s, v, e).at, s.ctxs.hint, s.wires.cpuThreads, d)
  {
    hide Linked, Placed, ThreadOf, Runners, Pushed, Urgent;
    if e.CallbackPush? {
      var c := s.wires.poll[e.j].ctx;
      PushedSame(s.wires, s.wires.aimed[c], c, Urgent(s.ctxs, c));
      PushHome(s, v, c, d);
    }
  }

  lemma ThreadKeepsHints(s: State, e: Step)
    requires Shaped(s) && ThreadEnabled(s, e)
    ensures ContextsAfter(s, e).hint == s.ctxs.hint
  {
  }

  lemma StepKeepsHome(s: State, v: View, e: Step, d: Ctx)
    requires Inv(s, v) && Enabled(s, e) && Home(s, v, d) && (HintOf(e, d) ==> SteadyHint(s, e) || InTime(s, e))
    ensures Home(Apply(s, e), ViewAfter(s, v, e), d)
  {
    hide Core, Shaped, Counted, Ordered, KindsFit, AtHome, SteadyHint, ClientEnabled, ClientWires, ThreadWires, ContextsAfter, LogAfter, ViewAfter;
    SameCpus(s, e) by { InvParts(s, v); }
    if ClientEnabled(s, e) {
      ClientKeepsHome(s, v, e, d);
      ClientCpuKeys(s, e);
    } else {
      ThreadKeepsHints(s, e);
      if e.PollClear? || e.Register? || e.Callback? || e.CallbackPush? { PollKeepsHome(s, v, e, d); } else { CpuKeepsHome(s, v, e, d); }
    }
  }

  lemma OneRunner(s: State, v: View, c: Ctx)
    requires Home(s, v, c)
    ensures |Runners(s.wires.cpu, c)| <= 1
  {
    hide Runners;
    var runners := Runners(s.wires.cpu, c);
    if runners != {} {
      var i := Pick(runners);
      assert runners == {i} by {
        forall j | j in runners ensures j == i { assert OnThread(s.ctxs.hint, s.wires.cpuThreads, c, j); }
      }
    }
  }

  lemma {:induction false} SteadyRunStaysHome(run: seq<State>, es: seq<Step>, k: nat, c: Ctx) returns (v: View)
    requires IsRun(run, es) && k < |run| && forall m :: 0 <= m < |es| && HintOf(es[m], c) ==> SteadyHint(run[m], es[m]) || InTime(run[m], es[m])
    ensures Inv(run[k], v) && Home(run[k], v, c)
  {
    hide Inv, Shaped, Enabled, Apply, SteadyHint;
    if k == 0 {
      v := Emptiness(run[0].wires) by { InitIsWired(run[0]); }
      InitHasInv(run[0]);
    } else {
      var u := SteadyRunStaysHome(run, es, k - 1, c);
      StepKeepsInv(run[k - 1], u, es[k - 1]);
      StepKeepsHome(run[k - 1], u, es[k - 1], c);
      v := ViewAfter(run[k - 1], u, es[k - 1]) by { InvParts(run[k - 1], u); }
    }
  }

  /** While the hint of c is steady, onComplete never overlaps itself on c. */
  lemma NoOverlap(run: seq<State>, es: seq<Step>, k: nat, c: Ctx)
    requires IsRun(run, es) && k < |run| && forall m :: 0 <= m < |es| && HintOf(es[m], c) ==> SteadyHint(run[m], es[m]) || InTime(run[m], es[m])
    ensures |Runners(run[k].wires.cpu, c)| <= 1
  {
    hide IsRun, Inv, SteadyHint, Runners;
    var v := SteadyRunStaysHome(run, es, k, c);
    OneRunner(run[k], v, c);
  }

  /** From home, no continuation that leaves the hint alone overlaps. */
  lemma {:induction false} HomeNeverOverlaps(s: State, v: View, es: seq<Step>, c: Ctx)
    requires Inv(s, v) && Home(s, v, c) && Overlaps(s, es, c)
    ensures false
    decreases |es|
  {
    hide Inv, Shaped, Enabled, Apply, SteadyHint, Home, ViewAfter;
    if es == [] {
      OneRunner(s, v, c);
    } else {
      StepKeepsInv(s, v, es[0]);
      StepKeepsHome(s, v, es[0], c);
      HomeNeverOverlaps(Apply(s, es[0]), ViewAfter(s, v, es[0]), es[1..], c) by { InvParts(s, v); }
    }
  }

  // ------------------------------------------------------ finding a second runner

  /** One step more in front. */
  lemma StepsBack(s: State, e: Step, c: Ctx)
    requires Shaped(s) && Enabled(s, e) && !HintOf(e, c) && e != Stop && CanOverlap(Apply(s, e), c)
    ensures CanOverlap(s, c)
  {
    hide Shaped, Enabled, Apply;
    var es :| Stop !in es && Overlaps(Apply(s, e), es, c);
    var es' := [e] + es;
    assert es'[0] == e && es'[1..] == es;
    assert Overlaps(s, es', c);
  }

  lemma TwoRunners(s: State, c: Ctx, i: int, k: int)
    requires i in Runners(s.wires.cpu, c) && k in Runners(s.wires.cpu, c) && i != k
    ensures CanOverlap(s, c)
  {
    hide Runners;
    var runners := Runners(s.wires.cpu, c);
    assert |runners - {i}| >= 1 by { assert k in runners - {i}; }
    assert Overlaps(s, [], c);
  }

  /** c is on the queue of CPU thread k or on the chain it has cleared. */
  ghost predicate OnCpu(v: View, c: Ctx, k: int) {
    && CpuQueue(k) in v.lines && CpuBatch(k) in v.lines
    && (c in v.lines[CpuQueue(k)] || c in v.lines[CpuBatch(k)])
  }

  ghost function CpuLoad(v: View, k: int): nat
    requires CpuQueue(k) in v.lines && CpuBatch(k) in v.lines
  {
    |v.lines[CpuQueue(k)]| + |v.lines[CpuBatch(k)]|
  }

  function CpuRank(pc: CpuPc): nat {
    match pc case AtPop => 0 case Walking(_) => 1 case AtClear => 2 case Completing(_, _, _) => 3
  }

  /** What CPU thread k does next. */
  function CpuTurn(pc: CpuPc, k: int): Step {
    match pc case AtPop => Pop(k) case Walking(_) => Walk(k) case AtClear => Clear(k) case Completing(_, _, _) => Return(k)
  }

  /** c has begun on thread k, or is nearer to it. */
  ghost predicate Nearer(w: Wires, v: View, w': Wires, v': View, c: Ctx, k: int)
    requires k in w.cpu && OnCpu(v, c, k)
  {
    && k in w'.cpu && w'.cpu == w.cpu[k := w'.cpu[k]]
    && (|| (w'.cpu[k].Completing? && w'.cpu[k].ctx == c && c !in w'.flying)
        || (&& OnCpu(v', c, k)
            && (|| CpuLoad(v', k) < CpuLoad(v, k)
                || (CpuLoad(v', k) == CpuLoad(v, k) && CpuRank(w'.cpu[k]) < CpuRank(w.cpu[k])))))
  }

  lemma LeftIsNearer(v: View, p: Line, c: Ctx, k: int)
    requires OnCpu(v, c, k) && p in v.lines && v.lines[p] != [] && v.lines[p][0] != c
    requires p == CpuQueue(k) || p == CpuBatch(k)
    ensures OnCpu(Left(v, p), c, k) && CpuLoad(Left(v, p), k) < CpuLoad(v, k)
  {
    var q := v.lines[p];
    assert q == [q[0]] + q[1..];
  }

  lemma PopIsNearer(s: State, v: View, c: Ctx, k: int)
    requires Inv(s, v) && k in s.wires.cpu && s.wires.cpu[k].AtPop? && OnCpu(v, c, k)
    ensures ThreadEnabled(s, Pop(k)) && Nearer(s.wires, v, ThreadWires(s, Pop(k)), ViewAfter(s, v, Pop(k)), c, k)
  {
    hide Linked, Placed, Counted, Ordered, KindsFit, Calls, Left;
    var w := s.wires;
    LinkedAt(w, v, CpuQueue(k));
    QueueEnds(w, v, CpuQueue(k));
    BatchHead(w, v, CpuBatch(k));
    PopKeeps(w, v, k);
    if v.lines[CpuQueue(k)][0] != c { LeftIsNearer(v, CpuQueue(k), c, k); }
  }

  lemma WalkIsNearer(s: State, v: View, c: Ctx, k: int)
    requires Inv(s, v) && k in s.wires.cpu && s.wires.cpu[k].Walking? && OnCpu(v, c, k)
    ensures ThreadEnabled(s, Walk(k)) && Nearer(s.wires, v, ThreadWires(s, Walk(k)), ViewAfter(s, v, Walk(k)), c, k)
  {
    hide Linked, Placed, Counted, Ordered, KindsFit, Calls, Left;
    var w := s.wires;
    WalkKeeps(w, v, k);
    if w.cpu[k].ptr != NIL && v.lines[CpuBatch(k)][0] != c { LeftIsNearer(v, CpuBatch(k), c, k); }
  }

  lemma ClearIsNearer(s: State, v: View, c: Ctx, k: int)
    requires Inv(s, v) && k in s.wires.cpu && s.wires.cpu[k].AtClear? && OnCpu(v, c, k)
    ensures ThreadEnabled(s, Clear(k)) && Nearer(s.wires, v, ThreadWires(s, Clear(k)), ViewAfter(s, v, Clear(k)), c, k)
  {
    hide Linked, Placed, Counted, Ordered, KindsFit, Calls;
    ClearKeeps(s.wires, v, k);
  }

  lemma ReturnIsNearer(s: State, v: View, c: Ctx, k: int)
    requires Inv(s, v) && k in s.wires.cpu && s.wires.cpu[k].Completing? && OnCpu(v, c, k)
    ensures ThreadEnabled(s, Return(k)) && Nearer(s.wires, v, ThreadWires(s, Return(k)), ViewAfter(s, v, Return(k)), c, k)
  {
    hide Linked, Placed, Ordered, KindsFit, Calls;
  }

  lemma ThreadStep(s: State, e: Step)
    requires Shaped(s) && ThreadEnabled(s, e)
    ensures Enabled(s, e) && !ClientEnabled(s, e) && Apply(s, e).wires == ThreadWires(s, e)
    ensures e != Stop && !e.SetHint? && Apply(s, e).ctxs.hint == s.ctxs.hint
  {
    hide Wired, CanUse, LogAfter;
  }

  /** The next step of CPU thread k brings c nearer. */
  lemma TurnIsNearer(s: State, v: View, c: Ctx, k: int)
    requires Inv(s, v) && k in s.wires.cpu && OnCpu(v, c, k)
    ensures var e := CpuTurn(s.wires.cpu[k], k);
            && Enabled(s, e) && !HintOf(e, c) && e != Stop
            && Nearer(s.wires, v, Apply(s, e).wires, ViewAfter(s, v, e), c, k)
            && Apply(s, e).ctxs.hint == s.ctxs.hint && Apply(s, e).wires.cpuThreads == s.wires.cpuThreads
            && Inv(Apply(s, e), ViewAfter(s, v, e))
  {
    hide Inv, Core, Shaped, ThreadEnabled, ThreadWires, ViewAfter, Nearer, Enabled, Apply, OnCpu, WiresAfter;
    InvParts(s, v);
    match s.wires.cpu[k] {
    case AtPop => PopIsNearer(s, v, c, k);
    case Walking(_) => WalkIsNearer(s, v, c, k);
    case AtClear => ClearIsNearer(s, v, c, k);
    case Completing(_, _, _) => ReturnIsNearer(s, v, c, k);
    }
    var e := CpuTurn(s.wires.cpu[k], k);
    ThreadStep(s, e);
    ThreadCpuKeys(s, e);
    StepKeepsInv(s, v, e);
  }

  /** c runs on i and waits with k: letting k go on gives two runners. */
  lemma {:induction false} DrainOther(s: State, v: View, c: Ctx, i: int, k: int)
    requires Inv(s, v) && i in Runners(s.wires.cpu, c) && i != k && k in s.wires.cpu && OnCpu(v, c, k)
    ensures CanOverlap(s, c)
    decreases CpuLoad(v, k), CpuRank(s.wires.cpu[k])
  {
    hide Inv, Core, Shaped, ViewAfter, Enabled, Apply, CanOverlap;
    InvParts(s, v);
    var e := CpuTurn(s.wires.cpu[k], k);
    TurnIsNearer(s, v, c, k);
    var s', v' := Apply(s, e), ViewAfter(s, v, e);
    assert i in Runners(s'.wires.cpu, c);
    if s'.wires.cpu[k].Completing? && s'.wires.cpu[k].ctx == c {
      TwoRunners(s', c, i, k);
    } else {
      DrainOther(s', v', c, i, k);
    }
    StepsBack(s, e, c);
  }

  /** What a client step leaves alone. */
  lemma ClientStep(s: State, v: View, e: Step)
    requires Inv(s, v) && ClientEnabled(s, e)
    ensures Enabled(s, e) && Apply(s, e).wires == ClientWires(s, e) && Apply(s, e).wires.cpu == s.wires.cpu
    ensures Apply(s, e).wires.cpuThreads == s.wires.cpuThreads && (e != Stop ==> Apply(s, e).stop == s.stop)
    ensures Apply(s, e).ctxs == ContextsAfter(s, e) && Inv(Apply(s, e), ViewAfter(s, v, e))
  {
    hide Inv, Core, Shaped, ClientEnabled, ClientWires, ContextsAfter, ViewAfter, LogAfter;
    InvParts(s, v);
    ClientCpuKeys(s, e);
    StepKeepsInv(s, v, e);
  }

  lemma AimEnabled(s: State, v: View, c: Ctx)
    requires Inv(s, v) && c in s.wires.launching && c in s.wires.next && s.ctxs.kind[c] != Nop
    ensures ClientEnabled(s, Aim(c)) && ContextsAfter(s, Aim(c)) == s.ctxs
    ensures var w := ClientWires(s, Aim(c)); c in w.aimed && w.aimed[c] == Target(s, c, s.ctxs.kind[c])
  {
    hide Core, Counted, Ordered, KindsFit, Calls;
  }

  /** Whose push it is. */
  ghost predicate PushOf(s: State, e: Step, c: Ctx) {
    || e == LaunchPush(c)
    || (e.CallbackPush? && e.j in s.wires.poll && s.wires.poll[e.j] == Calling(c))
  }

  lemma PushEnabled(s: State, v: View, c: Ctx) returns (e: Step)
    requires Inv(s, v) && c in s.wires.aimed
    ensures PushOf(s, e, c) && Enabled(s, e) && !HintOf(e, c) && e != Stop && ViewAfter(s, v, e) == PushView(s, v, c)
  {
    hide Linked, Placed, Counted, Ordered, KindsFit, Calls, PushView;
    AimedIs(s.wires, v, c);
    if j :| j in s.wires.poll && s.wires.poll[j] == Calling(c) { e := CallbackPush(j); } else { e := LaunchPush(c); }
  }

  lemma PushEffect(s: State, v: View, e: Step, c: Ctx)
    requires Inv(s, v) && c in s.wires.aimed && PushOf(s, e, c) && Enabled(s, e)
    ensures var w := Apply(s, e).wires;
            && w.cpu == s.wires.cpu && w.cpuThreads == s.wires.cpuThreads && w.pollThreads == s.wires.pollThreads
            && w.watched == s.wires.watched
            && w.poll == if e.CallbackPush? then s.wires.poll[e.j := InRun] else s.wires.poll
    ensures Apply(s, e).ctxs == s.ctxs
  {
    hide Linked, Placed, Counted, Ordered, KindsFit, Calls, LogAfter, BeingCalled, Urgent;
    AimedIs(s.wires, v, c);
  }

  /** The push puts c on the queue it has chosen. */
  lemma PushStep(s: State, v: View, c: Ctx) returns (e: Step)
    requires Inv(s, v) && c in s.wires.aimed
    ensures PushOf(s, e, c) && Enabled(s, e) && !HintOf(e, c) && e != Stop
    ensures ViewAfter(s, v, e) == PushView(s, v, c) && Inv(Apply(s, e), PushView(s, v, c))
    ensures var v', p := PushView(s, v, c), s.wires.aimed[c]; IsQueue(s.wires, p) && p in v'.lines && c in v'.lines[p]
  {
    hide Inv, Core, Shaped, Enabled, Apply, ViewAfter;
    e := PushEnabled(s, v, c);
    StepKeepsInv(s, v, e);
    InvParts(s, v);
    AimedIs(s.wires, v, c);
    AimIsPlace(s.wires, v, c);
  }

  lemma CpuLinesThere(s: State, v: View, k: int)
    requires Inv(s, v) && k in s.wires.cpu
    ensures CpuQueue(k) in v.lines && CpuBatch(k) in v.lines
  {
    hide Linked, Placed, Counted, Ordered, KindsFit, Calls;
    LinkedAt(s.wires, v, CpuQueue(k));
    LinkedAt(s.wires, v, CpuBatch(k));
  }

  /** c runs on i and a push of it has chosen the queue of k. */
  lemma AimedOverlaps(s: State, v: View, c: Ctx, i: int, k: int)
    requires Inv(s, v) && i in Runners(s.wires.cpu, c) && i != k && c in s.wires.aimed && s.wires.aimed[c] == CpuQueue(k)
    ensures CanOverlap(s, c)
  {
    hide Inv, Core, Shaped, ViewAfter, PushView, Enabled, Apply, CanOverlap, Runners, PushOf;
    InvParts(s, v);
    var e := PushStep(s, v, c);
    PushEffect(s, v, e, c);
    CpuLinesThere(Apply(s, e), PushView(s, v, c), k);
    DrainOther(Apply(s, e), PushView(s, v, c), c, i, k);
    StepsBack(s, e, c);
  }

  /** c runs on i and a launch of it as a CPU event is to read the hint, which names k. */
  lemma PushOverlaps(s: State, v: View, c: Ctx, i: int, k: int)
    requires Inv(s, v) && i in Runners(s.wires.cpu, c) && i != k && OnThread(s.ctxs.hint, s.wires.cpuThreads, c, k)
    requires c in s.wires.launching && c in s.wires.next && c in s.ctxs.kind && s.ctxs.kind[c].CpuEvent?
    ensures CanOverlap(s, c)
  {
    hide Inv, Core, Shaped, ClientEnabled, ClientWires, ContextsAfter, ViewAfter, LogAfter, Enabled, Apply, CanOverlap, Runners;
    var e := Aim(c);
    InvParts(s, v);
    AimEnabled(s, v, c);
    ClientStep(s, v, e);
    AimedOverlaps(Apply(s, e), ViewAfter(s, v, e), c, i, k);
    StepsBack(s, e, c);
  }

  lemma RunnerUses(s: State, v: View, c: Ctx, i: int)
    requires Inv(s, v) && i in Runners(s.wires.cpu, c)
    ensures c in s.wires.next && CanUse(s, c)
  {
    hide Core, Wired, Ordered, KindsFit, Calls;
  }

  /** A client that may touch c calls initCpuEvent and begins to launch it. */
  lemma LaunchEnabled(s: State, v: View, c: Ctx)
    requires Inv(s, v) && c in s.wires.next && CanUse(s, c) && c !in s.wires.flying
    ensures ClientEnabled(s, SetEvent(c, CpuEvent(false))) && ClientWires(s, SetEvent(c, CpuEvent(false))) == s.wires
    ensures var x := ContextsAfter(s, SetEvent(c, CpuEvent(false)));
            x.hint == s.ctxs.hint && x.external == s.ctxs.external && c in x.kind && x.kind[c] == CpuEvent(false)
    ensures ClientEnabled(s, LaunchBegin(c)) && c in ClientWires(s, LaunchBegin(c)).launching
    ensures var x := ContextsAfter(s, LaunchBegin(c));
            x.hint == s.ctxs.hint && x.external == s.ctxs.external && x.kind == s.ctxs.kind
    ensures ClientWires(s, LaunchBegin(c)).next == s.wires.next
  {
    hide Core, Wired, Counted, Ordered, KindsFit, Calls, CanUse;
  }

  /** c runs on i, is not in flight, and its hint names k. */
  lemma RelaunchOverlaps(s: State, v: View, c: Ctx, i: int, k: int)
    requires Inv(s, v) && i in Runners(s.wires.cpu, c) && i != k && OnThread(s.ctxs.hint, s.wires.cpuThreads, c, k)
    requires c !in s.wires.flying
    ensures CanOverlap(s, c)
  {
    hide Inv, Core, Shaped, ClientEnabled, ClientWires, ContextsAfter, ViewAfter, LogAfter, Enabled, Apply, CanOverlap, Runners, OnThread;
    var e1, e2 := SetEvent(c, CpuEvent(false)), LaunchBegin(c);
    InvParts(s, v);
    RunnerUses(s, v, c, i);
    LaunchEnabled(s, v, c);
    ClientStep(s, v, e1);
    var s1, v1 := Apply(s, e1), ViewAfter(s, v, e1);
    InvParts(s1, v1);
    RunnerUses(s1, v1, c, i);
    LaunchEnabled(s1, v1, c);
    ClientStep(s1, v1, e2);
    PushOverlaps(Apply(s1, e2), ViewAfter(s1, v1, e2), c, i, k);
    StepsBack(s1, e2, c);
    StepsBack(s, e1, c);
  }

  /** c waits with thread i although its hint names k: i begins it, and it is relaunched. */
  lemma {:induction false} DrainAstray(s: State, v: View, c: Ctx, i: int, k: int)
    requires Inv(s, v) && i in s.wires.cpu && i != k && OnCpu(v, c, i) && OnThread(s.ctxs.hint, s.wires.cpuThreads, c, k)
    ensures CanOverlap(s, c)
    decreases CpuLoad(v, i), CpuRank(s.wires.cpu[i])
  {
    hide Inv, Core, Shaped, ViewAfter, Enabled, Apply, CanOverlap, OnThread;
    InvParts(s, v);
    var e := CpuTurn(s.wires.cpu[i], i);
    TurnIsNearer(s, v, c, i);
    var s', v' := Apply(s, e), ViewAfter(s, v, e);
    if s'.wires.cpu[i].Completing? && s'.wires.cpu[i].ctx == c && c !in s'.wires.flying {
      assert i in Runners(s'.wires.cpu, c);
      RelaunchOverlaps(s', v', c, i, k);
    } else {
      DrainAstray(s', v', c, i, k);
    }
    StepsBack(s, e, c);
  }

  /** A push of c has chosen the queue of i although the hint names k now. */
  lemma AimedAstray(s: State, v: View, c: Ctx, i: int, k: int)
    requires Inv(s, v) && i != k && OnThread(s.ctxs.hint, s.wires.cpuThreads, c, k)
    requires c in s.wires.aimed && s.wires.aimed[c] == CpuQueue(i)
    ensures CanOverlap(s, c)
  {
    hide Inv, Core, Shaped, ViewAfter, PushView, Enabled, Apply, CanOverlap, OnThread, PushOf;
    InvParts(s, v);
    var e := PushStep(s, v, c);
    PushEffect(s, v, e, c);
    CpuLinesThere(Apply(s, e), PushView(s, v, c), i);
    DrainAstray(Apply(s, e), PushView(s, v, c), c, i, k);
    StepsBack(s, e, c);
  }

  // -------------------------------------------------------------- through libev

  /** c is queued for poll thread j, on the chain it has cleared, or registered there. */
  ghost predicate OnPoll(w: Wires, v: View, c: Ctx, j: int) {
    && PollQueue(j) in v.lines && PollBatch(j) in v.lines && j in w.watched
    && (c in v.lines[PollQueue(j)] || c in v.lines[PollBatch(j)] || c in w.watched[j])
  }

  ghost function PollLoad(v: View, j: int): nat
    requires PollQueue(j) in v.lines && PollBatch(j) in v.lines
  {
    |v.lines[PollQueue(j)]| + |v.lines[PollBatch(j)]|
  }

  ghost function PollRank(w: Wires, j: int): nat
    requires j in w.poll
  {
    match w.poll[j]
    case InRun => 1
    case Registering(ptr) => if ptr == NIL then 2 else 0
    case Calling(d) => if d in w.aimed then 3 else 4
  }

  ghost predicate PollNearer(w: Wires, v: View, w': Wires, v': View, c: Ctx, j: int)
    requires j in w.poll && OnPoll(w, v, c, j)
  {
    && w'.cpu == w.cpu && j in w'.poll && OnPoll(w', v', c, j)
    && (|| PollLoad(v', j) < PollLoad(v, j)
        || (PollLoad(v', j) == PollLoad(v, j) && PollRank(w', j) < PollRank(w, j)))
  }

  lemma RegisterIsNearer(s: State, v: View, c: Ctx, j: int)
    requires Inv(s, v) && j in s.wires.poll && s.wires.poll[j].Registering? && OnPoll(s.wires, v, c, j)
    ensures ThreadEnabled(s, Register(j))
    ensures PollNearer(s.wires, v, ThreadWires(s, Register(j)), ViewAfter(s, v, Register(j)), c, j)
  {
    hide Linked, Placed, Counted, Ordered, KindsFit, Calls;
    RegisterKeeps(s.wires, v, j);
    var q := v.lines[PollBatch(j)];
    if q != [] { assert q == [q[0]] + q[1..]; }
  }

  lemma MovedIsPolled(w: Wires, v: View, w': Wires, c: Ctx, j: int)
    requires OnPoll(w, v, c, j) && c !in w.watched[j] && v.lines[PollBatch(j)] == [] && w'.watched == w.watched
    ensures var v' := Moved(v, PollQueue(j), PollBatch(j)); OnPoll(w', v', c, j) && PollLoad(v', j) == PollLoad(v, j)
    ensures v.lines[PollQueue(j)] != []
  {
  }

  lemma PollClearIsNearer(s: State, v: View, c: Ctx, j: int)
    requires Inv(s, v) && j in s.wires.poll && s.wires.poll[j].InRun? && OnPoll(s.wires, v, c, j) && c !in s.wires.watched[j]
    ensures ThreadEnabled(s, PollClear(j))
    ensures PollNearer(s.wires, v, ThreadWires(s, PollClear(j)), ViewAfter(s, v, PollClear(j)), c, j)
  {
    hide Linked, Placed, Counted, Ordered, KindsFit, Calls, OnPoll, PollLoad, Moved, Spelled;
    var w := s.wires;
    PollClearKeeps(w, v, j);
    MovedIsPolled(w, v, PollCleared(w, j), c, j);
    LinkedAt(w, v, PollQueue(j));
    HeadIsNotNil(w, v, PollQueue(j));
  }

  lemma HeadIsNotNil(w: Wires, v: View, p: Line)
    requires Wired(w) && IsQueue(w, p) && Spelled(w, v, p) && v.lines[p] != []
    ensures w.lists[p].head != NIL
  {
  }

  /** Poll thread j is inside the callback of another context: its push goes to a CPU queue. */
  lemma AimIsNearer(s: State, v: View, c: Ctx, j: int)
    requires Inv(s, v) && j in s.wires.poll && s.wires.poll[j].Calling? && OnPoll(s.wires, v, c, j)
    requires s.wires.poll[j].ctx !in s.wires.aimed
    ensures var e := Aim(s.wires.poll[j].ctx);
            && ClientEnabled(s, e) && PollNearer(s.wires, v, ClientWires(s, e), ViewAfter(s, v, e), c, j)
            && ContextsAfter(s, e) == s.ctxs
  {
    hide Linked, Placed, Counted, Ordered, KindsFit;
    CalledFlies(s.wires, v, s.wires.poll[j].ctx);
  }

  lemma CalledToCpu(s: State, v: View, c: Ctx)
    requires Inv(s, v) && c in s.wires.aimed && c in s.ctxs.kind && s.ctxs.kind[c].CpuEvent?
    ensures s.wires.aimed[c].CpuQueue?
  {
    hide Linked, Placed, Counted, Ordered, Calls;
    AimIsPlace(s.wires, v, c);
  }

  lemma CallbackPushIsNearer(s: State, v: View, c: Ctx, j: int)
    requires Inv(s, v) && j in s.wires.poll && s.wires.poll[j].Calling? && OnPoll(s.wires, v, c, j)
    requires s.wires.poll[j].ctx in s.wires.aimed
    ensures Enabled(s, CallbackPush(j)) && Apply(s, CallbackPush(j)).ctxs == s.ctxs
    ensures PollNearer(s.wires, v, Apply(s, CallbackPush(j)).wires, ViewAfter(s, v, CallbackPush(j)), c, j)
  {
    hide Core, Counted, Ordered, KindsFit, Apply, Joined, Shaped;
    var d, e := s.wires.poll[j].ctx, CallbackPush(j);
    InvParts(s, v);
    AimedIs(s.wires, v, d);
    PushEffect(s, v, e, d);
    CalledToCpu(s, v, d);
    JoinedCpu(s.wires, v, Apply(s, e).wires, c, j, s.wires.aimed[d], d, Urgent(s.ctxs, d));
  }

  lemma JoinedCpu(w: Wires, v: View, w': Wires, c: Ctx, j: int, p: Line, d: Ctx, front: bool)
    requires OnPoll(w, v, c, j) && p in v.lines && p.CpuQueue? && w'.watched == w.watched
    ensures OnPoll(w', Joined(v, p, d, front), c, j) && PollLoad(Joined(v, p, d, front), j) == PollLoad(v, j)
  {
  }

  lemma CallbackPlaces(s: State, v: View, c: Ctx, j: int)
    requires Inv(s, v) && j in s.wires.poll && s.wires.poll[j].InRun? && c in s.wires.watched[j]
    ensures ThreadEnabled(s, Callback(j, c)) && c in s.wires.next && s.wires.next == ThreadWires(s, Callback(j, c)).next
    ensures ThreadWires(s, Callback(j, c)).cpu == s.wires.cpu && c in ThreadWires(s, Callback(j, c)).launching
    ensures var x := ContextsAfter(s, Callback(j, c)); c in x.kind && x.kind[c] == CpuEvent(false)
  {
    hide Linked, Placed, Counted, Ordered, KindsFit, Calls, Runners;
    WatchedSits(s.wires, v, j, c);
    SitsFlies(s.wires, v, c, Watched(j));
  }

  /** c runs on i and its registration is reported: it becomes a CPU event for k. */
  lemma CallbackOverlaps(s: State, v: View, c: Ctx, i: int, k: int, j: int)
    requires Inv(s, v) && i in Runners(s.wires.cpu, c) && i != k && OnThread(s.ctxs.hint, s.wires.cpuThreads, c, k)
    requires j in s.wires.poll && s.wires.poll[j].InRun? && j in s.wires.watched && c in s.wires.watched[j]
    ensures CanOverlap(s, c)
  {
    hide Inv, Core, Shaped, ThreadEnabled, ThreadWires, ContextsAfter, ViewAfter, Enabled, CanOverlap, Runners, WiresAfter, LogAfter;
    var e := Callback(j, c);
    InvParts(s, v);
    CallbackPlaces(s, v, c, j);
    ThreadStep(s, e);
    ThreadCpuKeys(s, e);
    StepKeepsInv(s, v, e);
    PushOverlaps(Apply(s, e), ViewAfter(s, v, e), c, i, k);
    StepsBack(s, e, c);
  }

  /** c runs on i and is on the poll side of thread j, for k in the end. */
  lemma {:induction false} DrainPoll(s: State, v: View, c: Ctx, i: int, k: int, j: int)
    requires Inv(s, v) && i in Runners(s.wires.cpu, c) && i != k && OnThread(s.ctxs.hint, s.wires.cpuThreads, c, k)
    requires j in s.wires.poll && OnPoll(s.wires, v, c, j)
    ensures CanOverlap(s, c)
    decreases PollLoad(v, j), PollRank(s.wires, j)
  {
    hide Inv, Core, Shaped, ViewAfter, Enabled, Apply, CanOverlap, OnThread, Runners;
    InvParts(s, v);
    if s.wires.poll[j].InRun? && c in s.wires.watched[j] {
      CallbackOverlaps(s, v, c, i, k, j);
    } else {
      var e := PollTurn(s, v, c, j);
      DrainPoll(Apply(s, e), ViewAfter(s, v, e), c, i, k, j);
      StepsBack(s, e, c);
    }
  }

  /** What poll thread j does next, c not being reported yet, brings c nearer. */
  lemma PollTurn(s: State, v: View, c: Ctx, j: int) returns (e: Step)
    requires Inv(s, v) && j in s.wires.poll && OnPoll(s.wires, v, c, j)
    requires !(s.wires.poll[j].InRun? && c in s.wires.watched[j])
    ensures Enabled(s, e) && !HintOf(e, c) && e != Stop && Inv(Apply(s, e), ViewAfter(s, v, e))
    ensures PollNearer(s.wires, v, Apply(s, e).wires, ViewAfter(s, v, e), c, j)
    ensures Apply(s, e).ctxs.hint == s.ctxs.hint && Apply(s, e).wires.cpuThreads == s.wires.cpuThreads
  {
    hide Inv, Core, Shaped, ClientEnabled, ThreadEnabled, ClientWires, ThreadWires, ContextsAfter, ViewAfter, Enabled, Apply, OnPoll, PollNearer;
    InvParts(s, v);
    match s.wires.poll[j] {
    case InRun =>
      e := PollClear(j);
      PollClearIsNearer(s, v, c, j) by { PolledFrom(s.wires, v, c, j); }
      ThreadStep(s, e);
    case Registering(_) =>
      e := Register(j);
      RegisterIsNearer(s, v, c, j);
      ThreadStep(s, e);
    case Calling(d) =>
      if d in s.wires.aimed {
        e := CallbackPush(j);
        CallbackPushIsNearer(s, v, c, j);
      } else {
        e := Aim(d);
        AimIsNearer(s, v, c, j);
        ClientStep(s, v, e);
      }
    }
    StepKeepsInv(s, v, e);
    SameCpus(s, e);
    SameThreadCount(s, e);
  }

  lemma PolledFrom(w: Wires, v: View, c: Ctx, j: int)
    requires OnPoll(w, v, c, j)
    ensures j in w.watched
  {
  }

  lemma SameThreadCount(s: State, e: Step)
    requires Shaped(s) && Enabled(s, e) && WiresAfter(s, e).cpuThreads == s.wires.cpuThreads
    ensures Apply(s, e).wires.cpuThreads == s.wires.cpuThreads
  {
  }

  // ------------------------------------------------------------ the exact condition

  lemma FailEnabled(s: State, v: View, c: Ctx)
    requires Inv(s, v) && c in s.wires.launching && c in s.wires.next && s.ctxs.kind[c] == Nop
    ensures ClientEnabled(s, LaunchFail(c)) && ContextsAfter(s, LaunchFail(c)).hint == s.ctxs.hint
    ensures c !in ClientWires(s, LaunchFail(c)).flying
  {
    hide Core, Counted, Ordered, KindsFit;
    assert !BeingCalled(s.wires, c);
  }

  /** c runs on i while a launch of it is under way: one without an event fails, a CPU event
      is queued for k, a network event comes to k through libev. */
  lemma LaunchingOverlaps(s: State, v: View, c: Ctx, i: int, k: int)
    requires Inv(s, v) && i in Runners(s.wires.cpu, c) && i != k && OnThread(s.ctxs.hint, s.wires.cpuThreads, c, k)
    requires c in s.wires.launching && c in s.wires.next && c in s.ctxs.kind
    ensures CanOverlap(s, c)
  {
    hide Inv, Core, Shaped, ClientEnabled, ClientWires, ContextsAfter, ViewAfter, LogAfter, Enabled, Apply, CanOverlap, Runners, OnThread;
    InvParts(s, v);
    match s.ctxs.kind[c]
    case Nop =>
      var e := LaunchFail(c);
      FailEnabled(s, v, c);
      ClientStep(s, v, e);
      RelaunchOverlaps(Apply(s, e), ViewAfter(s, v, e), c, i, k);
      StepsBack(s, e, c);
    case CpuEvent(_) => PushOverlaps(s, v, c, i, k);
    case NetEvent =>
      var e := Aim(c);
      AimEnabled(s, v, c);
      ClientStep(s, v, e);
      AimedPollOverlaps(Apply(s, e), ViewAfter(s, v, e), c, i, k);
      StepsBack(s, e, c);
  }

  /** c runs on i and a push of it has chosen a poll queue. */
  lemma AimedPollOverlaps(s: State, v: View, c: Ctx, i: int, k: int)
    requires Inv(s, v) && i in Runners(s.wires.cpu, c) && i != k && OnThread(s.ctxs.hint, s.wires.cpuThreads, c, k)
    requires c in s.wires.aimed && s.wires.aimed[c].PollQueue?
    ensures CanOverlap(s, c)
  {
    hide Inv, Core, Shaped, ViewAfter, PushView, Enabled, Apply, CanOverlap, OnThread, Runners, PushOf;
    InvParts(s, v);
    var j := s.wires.aimed[c].i;
    var e := PushStep(s, v, c);
    PushEffect(s, v, e, c);
    PollSideThere(Apply(s, e), PushView(s, v, c), j);
    DrainPoll(Apply(s, e), PushView(s, v, c), c, i, k, j);
    StepsBack(s, e, c);
  }

  lemma PollSideThere(s: State, v: View, j: int)
    requires Inv(s, v) && 0 <= j < s.wires.pollThreads
    ensures PollQueue(j) in v.lines && PollBatch(j) in v.lines && j in s.wires.watched && j in s.wires.poll
  {
    hide Linked, Placed, Counted, Ordered, KindsFit, Calls;
    LinkedAt(s.wires, v, PollQueue(j));
    LinkedAt(s.wires, v, PollBatch(j));
  }

  /** c runs on i and is in flight. */
  lemma FlyingOverlaps(s: State, v: View, c: Ctx, i: int, k: int)
    requires Inv(s, v) && i in Runners(s.wires.cpu, c) && i != k && OnThread(s.ctxs.hint, s.wires.cpuThreads, c, k)
    requires c in v.at
    ensures CanOverlap(s, c)
  {
    hide Linked, Placed, Counted, Ordered, KindsFit, Calls, CanOverlap, Runners, OnThread;
    var w, x := s.wires, v.at[c];
    PlaceIs(w, v, c);
    match x
    case Launching => LaunchingOverlaps(s, v, c, i, k);
    case Aimed(p) =>
      AimIsPlace(w, v, c);
      if p.PollQueue? {
        AimedPollOverlaps(s, v, c, i, k);
      } else if p.i == k {
        AimedOverlaps(s, v, c, i, k);
      } else {
        AimedAstray(s, v, c, p.i, k);
      }
    case Watched(j) =>
      PollSideThere(s, v, j);
      DrainPoll(s, v, c, i, k, j);
    case OnLine(p) =>
      LineIsReal(w, v, p, c);
      if p.PollQueue? || p.PollBatch? {
        PollSideThere(s, v, p.i);
        DrainPoll(s, v, c, i, k, p.i);
      } else {
        CpuLinesThere(s, v, p.i);
        if p.i == k { DrainOther(s, v, c, i, k); } else { DrainAstray(s, v, c, p.i, k); }
      }
  }

  lemma PlaceIs(w: Wires, v: View, c: Ctx)
    requires Core(w, v) && c in v.at
    ensures Sits(w, v, c, v.at[c]) && c in w.next && (v.at[c].Watched? ==> 0 <= v.at[c].j < w.pollThreads)
  {
    assert Sits(w, v, c, v.at[c]);
  }

  /** Before a stop, two threads can come to run a context that is astray. */
  lemma AstrayOverlaps(s: State, v: View, c: Ctx)
    requires Inv(s, v) && Astray(s, v, c) && !s.stop
    ensures CanOverlap(s, c)
  {
    hide Linked, Placed, Counted, Ordered, KindsFit, Calls, CanOverlap, Runners;
    var w := s.wires;
    var i :| Visits(w, v, c, i) && !OnThread(s.ctxs.hint, w.cpuThreads, c, i);
    CpuLinesThere(s, v, i);
    VisitorMade(s, v, c, i);
    var k := ThreadOf(s.ctxs.hint[c], w.cpuThreads);
    if i !in Runners(w.cpu, c) && c in w.aimed && w.aimed[c] == CpuQueue(i) {
      AimedAstray(s, v, c, i, k);
    } else if i !in Runners(w.cpu, c) {
      DrainAstray(s, v, c, i, k);
    } else if c in v.at {
      FlyingOverlaps(s, v, c, i, k);
    } else {
      NotPlaced(w, v, c);
      RelaunchOverlaps(s, v, c, i, k);
    }
  }

  lemma NotPlaced(w: Wires, v: View, c: Ctx)
    requires Placed(w, v)
    ensures c in v.at <==> c in w.flying
  {
  }

  lemma VisitorMade(s: State, v: View, c: Ctx, i: int)
    requires Inv(s, v) && Visits(s.wires, v, c, i)
    ensures c in s.ctxs.hint
  {
    hide Linked, Placed, Ordered, KindsFit, Calls;
    if c in s.wires.aimed { AimedIs(s.wires, v, c); }
    if CpuQueue(i) in v.lines { LineMembers(s.wires, v, CpuQueue(i)); }
    if CpuBatch(i) in v.lines { LineMembers(s.wires, v, CpuBatch(i)); }
  }

  /** From a state of a run, two CPU threads can come to be inside onComplete(c), without its
      hint being moved again, only when c is astray; and before a stop exactly then. */
  lemma OverlapIffAstray(s: State, v: View, c: Ctx)
    requires Inv(s, v)
    ensures !s.stop ==> (CanOverlap(s, c) <==> Astray(s, v, c))
    ensures forall es :: Overlaps(s, es, c) ==> Astray(s, v, c)
  {
    hide Inv, Astray, Home, Overlaps;
    HomeIsNotAstray(s, v, c);
    if Astray(s, v, c) {
      if !s.stop { AstrayOverlaps(s, v, c); }
    } else {
      forall es ensures !Overlaps(s, es, c) {
        if Overlaps(s, es, c) { HomeNeverOverlaps(s, v, es, c); }
      }
    }
  }

  /** In every state of every run. */
  lemma OverlapInRuns(run: seq<State>, es: seq<Step>, k: nat, c: Ctx)
    requires IsRun(run, es) && k < |run|
    ensures exists v :: && Wired(run[k].wires) && Linked(run[k].wires, v)
                        && (CanOverlap(run[k], c) ==> Astray(run[k], v, c))
                        && (!run[k].stop ==> (CanOverlap(run[k], c) <==> Astray(run[k], v, c)))
  {
    hide IsRun, Linked, Wired, Astray, Overlaps, Placed, Counted, Ordered, KindsFit, Calls;
    var v := RunKeepsInv(run, es, k);
    OverlapIffAstray(run[k], v, c);
  }

  /** Before a stop, a move of the hint after which no overlap can come is exactly one that is
      steady or in time. */
  lemma SteadyHintIsExact(s: State, v: View, c: Ctx, h: nat)
    requires Inv(s, v) && ClientEnabled(s, SetHint(c, h)) && !Astray(s, v, c) && !s.stop
    ensures SteadyHint(s, SetHint(c, h)) || InTime(s, SetHint(c, h)) <==> !CanOverlap(Apply(s, SetHint(c, h)), c)
  {
    hide Linked, Placed, Ordered, KindsFit, Calls, CanUse, Runners, ThreadOf, Astray, CanOverlap, Counted;
    var e := SetHint(c, h);
    var s', v' := Apply(s, e), ViewAfter(s, v, e);
    ClientStep(s, v, e);
    OverlapIffAstray(s', v', c);
    HomeIsNotAstray(s, v, c);
    HomeIsNotAstray(s', v', c);
    if SteadyHint(s, e) || InTime(s, e) {
      StepKeepsHome(s, v, e, c);
    } else {
      OnCpuMeans(s, v, c);
      LeavesHome(s.wires.cpu, v.at, s.ctxs.hint, s.wires.cpuThreads, c, h);
    }
  }

  lemma LeavesHome(cpu: map<int, CpuPc>, at: map<Ctx, Where>, hint: map<Ctx, nat>, n: nat, c: Ctx, h: nat)
    requires AtHome(cpu, at, hint, n, c) && n >= 1 && c in hint && ThreadOf(h, n) != ThreadOf(hint[c], n)
    requires Runners(cpu, c) != {} || (c in at && OnCpuSide(at[c]))
    ensures !AtHome(cpu, at, hint[c := h], n, c)
  {
    hide Runners, ThreadOf;
    if Runners(cpu, c) != {} {
      var i := Pick(Runners(cpu, c));
      assert OnThread(hint, n, c, i) && !OnThread(hint[c := h], n, c, i);
    }
  }

  // ------------------------------------------------------------------ a witness

  lemma ExtendRun(run: seq<State>, es: seq<Step>, e: Step)
    requires IsRun(run, es) && Shaped(run[|es|]) && Enabled(run[|es|], e)
    ensures IsRun(run + [Apply(run[|es|], e)], es + [e])
  {
    hide Init, Shaped, Enabled, Apply;
    var run', es' := run + [Apply(run[|es|], e)], es + [e];
    forall k | 0 <= k < |es'| ensures Shaped(run'[k]) && Enabled(run'[k], es'[k]) && run'[k + 1] == Apply(run'[k], es'[k]) {
      if k < |es| { assert es'[k] == es[k] && run'[k] == run[k] && run'[k + 1] == run[k + 1]; }
    }
  }

  ghost predicate Reached(s0: State, s: State) {
    exists run, es :: IsRun(run, es) && run[0] == s0 && run[|es|] == s
  }

  lemma Reach(s0: State, s: State, e: Step)
    requires Reached(s0, s) && Shaped(s) && Enabled(s, e)
    ensures Reached(s0, Apply(s, e))
  {
    hide Init, Shaped, Enabled, Apply;
    var run, es :| IsRun(run, es) && run[0] == s0 && run[|es|] == s;
    ExtendRun(run, es, e);
    var run', es' := run + [Apply(s, e)], es + [e];
    assert IsRun(run', es') && run'[0] == s0 && run'[|es'|] == Apply(s, e);
  }

  lemma {:induction false} OverlapIsReached(s0: State, s: State, es: seq<Step>, c: Ctx)
    requires Reached(s0, s) && Overlaps(s, es, c)
    ensures exists s' :: Reached(s0, s') && |Runners(s'.wires.cpu, c)| >= 2
    decreases |es|
  {
    hide Reached, Shaped, Enabled, Apply, Runners;
    if es != [] {
      Reach(s0, s, es[0]);
      OverlapIsReached(s0, Apply(s, es[0]), es[1..], c);
    }
  }

  /** A client that holds a reference begins to launch c as a CPU event. */
  lemma BeginReached(s0: State, s: State, v: View, c: Ctx) returns (s': State, v': View)
    requires Reached(s0, s) && Inv(s, v) && c in s.wires.next && c in s.ctxs.external && s.ctxs.external[c] > 0
    requires c !in s.wires.flying
    ensures Reached(s0, s') && Inv(s', v') && s'.wires.cpuThreads == s.wires.cpuThreads && s'.stop == s.stop
    ensures c in s'.wires.next && c in s'.wires.launching && c in s'.ctxs.kind && s'.ctxs.kind[c].CpuEvent?
    ensures s'.ctxs.hint == s.ctxs.hint && s'.ctxs.external == s.ctxs.external
  {
    hide Inv, Core, Shaped, ClientEnabled, ClientWires, ContextsAfter, ViewAfter, LogAfter, Enabled, Apply, Reached, Runners;
    var e1, e2 := SetEvent(c, CpuEvent(false)), LaunchBegin(c);
    InvParts(s, v);
    LaunchEnabled(s, v, c);
    ClientStep(s, v, e1);
    Reach(s0, s, e1);
    var s1, v1 := Apply(s, e1), ViewAfter(s, v, e1);
    InvParts(s1, v1);
    LaunchEnabled(s1, v1, c);
    ClientStep(s1, v1, e2);
    Reach(s0, s1, e2);
    s', v' := Apply(s1, e2), ViewAfter(s1, v1, e2);
  }

  /** And c comes to wait with the CPU thread k of its hint. */
  lemma Launches(s0: State, s: State, v: View, c: Ctx, k: int) returns (s': State, v': View)
    requires Reached(s0, s) && Inv(s, v) && c in s.wires.next && c in s.ctxs.external && s.ctxs.external[c] > 0
    requires c !in s.wires.flying && OnThread(s.ctxs.hint, s.wires.cpuThreads, c, k)
    ensures Reached(s0, s') && Inv(s', v') && s'.wires.cpuThreads == s.wires.cpuThreads && OnCpu(v', c, k)
    ensures c in s'.wires.next && c in s'.ctxs.external && s'.ctxs.external[c] > 0 && s'.stop == s.stop
  {
    hide Inv, Core, Shaped, ClientEnabled, ClientWires, ContextsAfter, ViewAfter, LogAfter, Enabled, Apply, Reached, Runners;
    var s1, v1 := BeginReached(s0, s, v, c);
    var e := Aim(c);
    InvParts(s1, v1);
    AimEnabled(s1, v1, c);
    ClientStep(s1, v1, e);
    Reach(s0, s1, e);
    s', v' := PushReached(s0, Apply(s1, e), ViewAfter(s1, v1, e), c);
    InvParts(s', v');
    CpuLinesThere(s', v', k);
    StillMade(s', v', c);
  }

  lemma PushReached(s0: State, s: State, v: View, c: Ctx) returns (s': State, v': View)
    requires Reached(s0, s) && Inv(s, v) && c in s.wires.aimed
    ensures Reached(s0, s') && Inv(s', v') && s'.ctxs == s.ctxs && s'.stop == s.stop
    ensures s'.wires.cpu == s.wires.cpu && s'.wires.cpuThreads == s.wires.cpuThreads
    ensures s.wires.aimed[c] in v'.lines && c in v'.lines[s.wires.aimed[c]]
  {
    hide Inv, Core, Shaped, ViewAfter, PushView, Enabled, Reached, PushOf, WiresAfter, ContextsAfter, LogAfter;
    InvParts(s, v);
    var e := PushStep(s, v, c);
    PushEffect(s, v, e, c);
    Reach(s0, s, e);
    s', v' := Apply(s, e), PushView(s, v, c);
  }

  lemma StillMade(s: State, v: View, c: Ctx)
    requires Inv(s, v)
    ensures c in s.ctxs.external <==> c in s.wires.next
  {
  }

  lemma FirstCreate(s0: State) returns (s: State, v: View)
    requires Init(s0)
    ensures Reached(s0, s) && Inv(s, v) && 0 in s.wires.next && 0 in s.ctxs.external && s.ctxs.external[0] > 0
    ensures 0 !in s.wires.flying && s.wires.cpuThreads == s0.wires.cpuThreads && !s.stop
    ensures OnThread(s.ctxs.hint, s.wires.cpuThreads, 0, 0)
  {
    hide Inv, Core, Reached, Runners, ViewAfter, LogAfter, Emptiness;
    var v0 := Emptiness(s0.wires);
    InitHasInv(s0);
    InitIsReached(s0);
    Reach(s0, s0, Create(0, 0));
    ClientStep(s0, v0, Create(0, 0));
    s := Apply(s0, Create(0, 0));
    v := ViewAfter(s0, v0, Create(0, 0)) by { InvParts(s0, v0); }
  }

  lemma InitIsReached(s0: State)
    requires Init(s0)
    ensures Reached(s0, s0)
  {
    assert IsRun([s0], []);
  }

  /** With two CPU threads or more, some run overlaps. */
  lemma OverlapHappens(s0: State)
    requires Init(s0) && s0.wires.cpuThreads >= 2
    ensures exists s :: Reached(s0, s) && |Runners(s.wires.cpu, 0)| >= 2
  {
    hide Inv, Reached, Runners, Overlaps, OnThread, OnCpu, Init;
    var s1, v1 := FirstCreate(s0);
    var s, v := Launches(s0, s1, v1, 0, 0);
    var s' := HintMovedOnQueue(s0, s, v);
    var es :| Stop !in es && Overlaps(s', es, 0);
    OverlapIsReached(s0, s', es, 0);
  }

  lemma HintMovedOnQueue(s0: State, s: State, v: View) returns (s': State)
    requires Reached(s0, s) && Inv(s, v) && s.wires.cpuThreads >= 2 && OnCpu(v, 0, 0) && !s.stop
    requires 0 in s.wires.next && 0 in s.ctxs.external && s.ctxs.external[0] > 0
    ensures Reached(s0, s') && CanOverlap(s', 0)
  {
    hide Inv, Core, Shaped, Reached, Runners, Enabled, Apply, CanOverlap, Overlaps, ClientEnabled, Astray, ViewAfter, OnCpu;
    var e := SetHint(0, 1);
    InvParts(s, v);
    HintEnabled(s, 0, 1);
    ClientStep(s, v, e);
    Reach(s0, s, e);
    HintLeadsAstray(s, v);
    s' := Apply(s, e);
    OverlapIffAstray(s', ViewAfter(s, v, e), 0);
  }

  lemma HintEnabled(s: State, c: Ctx, h: nat)
    requires Shaped(s) && c in s.wires.next && c in s.ctxs.external && s.ctxs.external[c] > 0
    ensures ClientEnabled(s, SetHint(c, h))
  {
  }

  lemma HintLeadsAstray(s: State, v: View)
    requires Inv(s, v) && ClientEnabled(s, SetHint(0, 1)) && s.wires.cpuThreads >= 2 && OnCpu(v, 0, 0)
    ensures Astray(Apply(s, SetHint(0, 1)), ViewAfter(s, v, SetHint(0, 1)), 0)
  {
    hide Core, Counted, Ordered, KindsFit, Calls, CanUse, Runners;
    InvParts(s, v);
    var s' := Apply(s, SetHint(0, 1));
    assert 0 in s.wires.cpu;
    assert Visits(s'.wires, v, 0, 0) && !OnThread(s'.ctxs.hint, s'.wires.cpuThreads, 0, 0);
  }
}
