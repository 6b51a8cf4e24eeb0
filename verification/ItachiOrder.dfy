/** The order in which itachi's CPU threads complete contexts, told from the steps of a run. */
module ItachiOrder {
  import opened SList
  import opened Itachi
  import opened ItachiRun
  import opened ItachiSafety

  /** In the step e, c is put on the queue p. */
  ghost predicate PushesTo(s: State, e: Step, c: Ctx, p: Line) {
    && c in s.wires.aimed && s.wires.aimed[c] == p
    && (|| e == LaunchPush(c)
        || (e.CallbackPush? && e.j in s.wires.poll && s.wires.poll[e.j] == Calling(c)))
  }

  /** Whatever e puts on the queue of CPU thread i is an event that was not initialised as an
      emergency. */
  ghost predicate Ordinary(s: State, e: Step, i: int) {
    forall c :: PushesTo(s, e, c, CpuQueue(i)) ==> c in s.ctxs.kind && s.ctxs.kind[c] == CpuEvent(false)
  }

  /** What e puts on the queue of CPU thread i. */
  ghost function PushOf(s: State, e: Step, i: int): seq<Ctx> {
    if e.LaunchPush? && PushesTo(s, e, e.c, CpuQueue(i)) then [e.c]
    else if e.CallbackPush? && e.j in s.wires.poll && s.wires.poll[e.j].Calling?
            && PushesTo(s, e, s.wires.poll[e.j].ctx, CpuQueue(i)) then [s.wires.poll[e.j].ctx]
    else []
  }

  /** The onComplete that CPU thread i enters from one state to the next. */
  ghost function StartOf(cpu: map<int, CpuPc>, cpu': map<int, CpuPc>, i: int): seq<Ctx> {
    if i in cpu && i in cpu' && !cpu[i].Completing? && cpu'[i].Completing? then [cpu'[i].ctx] else []
  }

  /** Everything put on the queue of CPU thread i in the first k steps, in order. */
  ghost function PushedBy(run: seq<State>, es: seq<Step>, k: nat, i: int): seq<Ctx>
    requires k <= |es| && k < |run|
  {
    if k == 0 then [] else PushedBy(run, es, k - 1, i) + PushOf(run[k - 1], es[k - 1], i)
  }

  /** Every context CPU thread i has entered onComplete with by then, in order. */
  ghost function StartedBy(run: seq<State>, k: nat, i: int): seq<Ctx>
    requires k < |run|
  {
    if k == 0 then [] else StartedBy(run, k - 1, i) + StartOf(run[k - 1].wires.cpu, run[k].wires.cpu, i)
  }

  // ------------------------------------------------------------- where a push goes

  /** A push to a CPU queue puts an emergency first and any other event last; a push to a poll
      queue always goes last. */
  lemma PushGoes(s: State, v: View, e: Step, c: Ctx, p: Line)
    requires Inv(s, v) && Enabled(s, e) && PushesTo(s, e, c, p)
    ensures p in v.lines && p in s.wires.lists && c in s.ctxs.kind && Holds(s.wires.next, s.wires.lists[p], v.lines[p])
    ensures p.CpuQueue? ==> s.ctxs.kind[c].CpuEvent?
    ensures var w := Apply(s, e).wires;
            && p in w.lists
            && Holds(w.next, w.lists[p],
                 if s.ctxs.kind[c] == CpuEvent(true) then [c] + v.lines[p] else v.lines[p] + [c])
  {
    hide Placed, Counted, Ordered, Calls, Chain, Holds, LogAfter, BeingCalled;
    AimedIs(s.wires, v, c);
    LinkedAt(s.wires, v, p);
    LineMembers(s.wires, v, p);
    if s.ctxs.kind[c] == CpuEvent(true) {
      PushFrontHolds(s.wires.next, s.wires.lists[p], v.lines[p], c);
    } else {
      PushHolds(s.wires.next, s.wires.lists[p], v.lines[p], c);
    }
  }

  /** In every run. */
  lemma PushInRun(run: seq<State>, es: seq<Step>, k: nat, c: Ctx, p: Line)
    requires IsRun(run, es) && k < |es| && PushesTo(run[k], es[k], c, p)
    ensures exists q ::
      && p in run[k].wires.lists && Holds(run[k].wires.next, run[k].wires.lists[p], q) && c in run[k].ctxs.kind
      && p in run[k + 1].wires.lists
      && Holds(run[k + 1].wires.next, run[k + 1].wires.lists[p],
           if run[k].ctxs.kind[c] == CpuEvent(true) then [c] + q else q + [c])
  {
    hide Inv, Init, Shaped, Enabled, Apply, Holds, PushesTo;
    var v := RunKeepsInv(run, es, k);
    PushGoes(run[k], v, es[k], c, p);
  }

  /** The queue that push chooses is that of the thread left over when the hint is dealt out. */
  lemma AimFollowsHint(s: State, v: View, c: Ctx)
    requires Inv(s, v) && ClientEnabled(s, Aim(c))
    ensures var w := Apply(s, Aim(c)).wires;
            && c in w.aimed && (w.aimed[c].PollQueue? <==> s.ctxs.kind[c] == NetEvent)
            && (w.aimed[c].PollQueue? || w.aimed[c].CpuQueue?)
            && var i, n := w.aimed[c].i, if s.ctxs.kind[c] == NetEvent then w.pollThreads else w.cpuThreads;
               0 <= i < n && s.ctxs.hint[c] == n * (s.ctxs.hint[c] / n) + i
  {
    hide Core, Counted, Ordered, KindsFit, Calls, LogAfter;
    LeftOver(s.ctxs.hint[c], s.wires.cpuThreads);
    LeftOver(s.ctxs.hint[c], s.wires.pollThreads);
  }

  lemma LeftOver(h: nat, n: nat)
    requires n >= 1
    ensures h == n * (h / n) + ThreadOf(h, n)
  {
  }

  // --------------------------------------------------------------- the log is right

  ghost predicate Logged(s: State, i: int) { i in s.log.pushed && i in s.log.started && i in s.log.urgents }

  /** The log of s' continues that of s by what the step does. */
  ghost predicate Continues(s: State, s': State, e: Step, i: int) {
    && Logged(s, i) && Logged(s', i)
    && s'.log.pushed[i] == s.log.pushed[i] + PushOf(s, e, i)
    && s'.log.started[i] == s.log.started[i] + StartOf(s.wires.cpu, s'.wires.cpu, i)
    && (Ordinary(s, e, i) ==> s'.log.urgents[i] == s.log.urgents[i])
  }

  /** Nothing was pushed and nothing begun. */
  lemma SameLog(s: State, s': State, e: Step, i: int)
    requires Logged(s, i) && s'.log == s.log && PushOf(s, e, i) == []
    requires StartOf(s.wires.cpu, s'.wires.cpu, i) == []
    ensures Continues(s, s', e, i)
  {
    var l := s.log;
    assert l.pushed[i] + [] == l.pushed[i] && l.started[i] + [] == l.started[i];
  }

  /** c was pushed to p and nothing begun. */
  lemma PushLog(s: State, s': State, e: Step, i: int, c: Ctx, p: Line)
    requires Logged(s, i) && PushesTo(s, e, c, p) && PushOf(s, e, i) == (if p == CpuQueue(i) then [c] else [])
    requires p.CpuQueue? ==> p.i in s.log.pushed && p.i in s.log.urgents
    requires s'.log == LogPush(s.log, p, c, Urgent(s.ctxs, c)) && s'.wires.cpu == s.wires.cpu
    ensures Continues(s, s', e, i)
  {
    var l := s.log;
    assert l.pushed[i] + [] == l.pushed[i] && l.started[i] + [] == l.started[i];
  }

  lemma AimedIsLogged(s: State, c: Ctx)
    requires Shaped(s) && c in s.wires.aimed
    ensures var p := s.wires.aimed[c]; p.CpuQueue? ==> p.i in s.log.pushed && p.i in s.log.urgents
  {
  }

  lemma ClientLogs(s: State, v: View, e: Step, i: int)
    requires Inv(s, v) && ClientEnabled(s, e) && i in s.wires.cpu
    ensures Continues(s, Apply(s, e), e, i)
  {
    hide Core, Wired, Counted, Ordered, KindsFit, Calls, CanUse, BeingCalled, ContextsAfter, ClientWires, Continues, LogPush, Urgent;
    ClientCpuKeys(s, e);
    if e.LaunchPush? {
      AimedIsLogged(s, e.c);
      PushLog(s, Apply(s, e), e, i, e.c, s.wires.aimed[e.c]);
    } else {
      SameLog(s, Apply(s, e), e, i);
    }
  }

  /** CPU thread k has entered onComplete(c). */
  lemma StartLog(s: State, s': State, e: Step, i: int, k: int, c: Ctx)
    requires Logged(s, i) && Logged(s, k) && PushOf(s, e, i) == [] && k in s.wires.cpu && !s.wires.cpu[k].Completing?
    requires s'.log == LogStart(s.log, k, c) && k in s'.wires.cpu && s'.wires.cpu == s.wires.cpu[k := s'.wires.cpu[k]]
    requires s'.wires.cpu[k].Completing? && s'.wires.cpu[k].ctx == c
    ensures Continues(s, s', e, i)
  {
    var l := s.log;
    assert l.pushed[i] + [] == l.pushed[i] && l.started[i] + [] == l.started[i];
  }

  lemma CpuLogs(s: State, v: View, e: Step, i: int)
    requires Inv(s, v) && ThreadEnabled(s, e) && i in s.wires.cpu && (e.Pop? || e.Return? || e.Clear? || e.Walk?)
    ensures Continues(s, Apply(s, e), e, i)
  {
    hide Core, Counted, Ordered, KindsFit, Calls, ContextsAfter, Continues, LogStart;
    if e.Pop? || (e.Walk? && s.wires.cpu[e.i].ptr != NIL) {
      BeginLogs(s, v, e, i);
    } else {
      SameLog(s, Apply(s, e), e, i);
    }
  }

  lemma BeginLogs(s: State, v: View, e: Step, i: int)
    requires Inv(s, v) && ThreadEnabled(s, e) && i in s.wires.cpu
    requires e.Pop? || (e.Walk? && s.wires.cpu[e.i].ptr != NIL)
    ensures Continues(s, Apply(s, e), e, i)
  {
    hide Core, Counted, Ordered, KindsFit, Calls, ContextsAfter, Continues, LogStart;
    var w := s.wires;
    StartLog(s, Apply(s, e), e, i, e.i, if e.Pop? then w.lists[CpuQueue(e.i)].head else w.cpu[e.i].ptr);
  }

  lemma PollLogs(s: State, v: View, e: Step, i: int)
    requires Inv(s, v) && ThreadEnabled(s, e) && i in s.wires.cpu
    requires e.PollClear? || e.Register? || e.Callback? || e.CallbackPush?
    ensures Continues(s, Apply(s, e), e, i)
  {
    hide Core, Counted, Ordered, KindsFit, Calls, ContextsAfter, Continues, LogPush, Urgent, Pushed;
    if e.CallbackPush? {
      var c := s.wires.poll[e.j].ctx;
      PushedSame(s.wires, s.wires.aimed[c], c, Urgent(s.ctxs, c));
      PushLog(s, Apply(s, e), e, i, c, s.wires.aimed[c]);
    } else {
      SameLog(s, Apply(s, e), e, i);
    }
  }

  lemma StepLogs(s: State, v: View, e: Step, i: int)
    requires Inv(s, v) && Shaped(s) && Enabled(s, e) && i in s.wires.cpu
    ensures Continues(s, Apply(s, e), e, i)
  {
    hide Inv, Shaped, Apply, ClientEnabled, Continues;
    if ClientEnabled(s, e) {
      ClientLogs(s, v, e, i);
    } else if e.PollClear? || e.Register? || e.Callback? || e.CallbackPush? {
      PollLogs(s, v, e, i);
    } else {
      CpuLogs(s, v, e, i);
    }
  }

  /** In every run the log tells what the steps have done. */
  lemma {:induction false} LogIsRight(run: seq<State>, es: seq<Step>, k: nat, i: int)
    requires IsRun(run, es) && k < |run| && i in run[0].wires.cpu
    ensures i in run[k].wires.cpu && Logged(run[k], i)
    ensures run[k].log.pushed[i] == PushedBy(run, es, k, i) && run[k].log.started[i] == StartedBy(run, k, i)
    ensures (forall m :: 0 <= m < k ==> Ordinary(run[m], es[m], i)) ==> run[k].log.urgents[i] == 0
  {
    hide Inv, Enabled, Apply, PushOf, StartOf, Ordinary;
    if k > 0 {
      LogIsRight(run, es, k - 1, i);
      var v := RunKeepsInv(run, es, k - 1);
      StepLogs(run[k - 1], v, es[k - 1], i);
      SameCpus(run[k - 1], es[k - 1]) by { InvParts(run[k - 1], v); }
      assert i in Apply(run[k - 1], es[k - 1]).wires.cpu by { CpuStays(run[k - 1], es[k - 1], i); }
    }
  }

  lemma CpuStays(s: State, e: Step, i: int)
    requires Shaped(s) && Enabled(s, e) && i in s.wires.cpu && WiresAfter(s, e).cpu.Keys == s.wires.cpu.Keys
    ensures i in Apply(s, e).wires.cpu
  {
  }

  // ----------------------------------------------------------------- first in, first out

  /** What CPU thread i was given has begun, is in the chain it cleared or is queued. */
  ghost predicate Accounts(s: State, i: int, batch: seq<Ctx>, queue: seq<Ctx>) {
    && Wired(s.wires) && i in s.wires.cpu
    && Chain(s.wires.next, BatchPtr(s.wires, CpuBatch(i)), batch)
    && Holds(s.wires.next, s.wires.lists[CpuQueue(i)], queue)
  }

  /** Each push to CPU thread i is begun, in the chain it cleared or queued, once; and in the
      order of the pushes when none of them was an emergency. */
  lemma CpuQueueIsFifo(run: seq<State>, es: seq<Step>, k: nat, i: int)
    requires IsRun(run, es) && k < |run| && i in run[0].wires.cpu
    ensures exists batch, queue ::
      && Accounts(run[k], i, batch, queue)
      && multiset(StartedBy(run, k, i) + batch + queue) == multiset(PushedBy(run, es, k, i))
      && ((forall m :: 0 <= m < k ==> Ordinary(run[m], es[m], i)) ==>
            StartedBy(run, k, i) + batch + queue == PushedBy(run, es, k, i))
  {
    hide IsRun, Placed, Counted, KindsFit, Calls, Chain, Holds, BatchPtr, Ordinary, StartedBy, PushedBy;
    var v := RunKeepsInv(run, es, k);
    LogIsRight(run, es, k, i);
    var s := run[k];
    assert InOrder(s.log, v, i);
    LinkedAt(s.wires, v, CpuBatch(i));
    LinkedAt(s.wires, v, CpuQueue(i));
    assert Accounts(s, i, v.lines[CpuBatch(i)], v.lines[CpuQueue(i)]);
  }

  /** No emergency among the events that clients initialise. */
  ghost predicate NoEmergency(es: seq<Step>, k: nat) {
    forall m :: 0 <= m < k && m < |es| && es[m].SetEvent? ==> es[m].kind != CpuEvent(true)
  }

  lemma {:induction false} KindsAreOrdinary(run: seq<State>, es: seq<Step>, k: nat, c: Ctx)
    requires IsRun(run, es) && k < |run| && NoEmergency(es, k)
    ensures c in run[k].ctxs.kind ==> run[k].ctxs.kind[c] != CpuEvent(true)
  {
    hide Init, Shaped;
    if k == 0 {
      assert run[0].ctxs.kind.Keys == {} by { InitHasNone(run[0]); }
    } else {
      KindsAreOrdinary(run, es, k - 1, c);
      KindAfter(run[k - 1], es[k - 1], c);
    }
  }

  lemma InitHasNone(s: State)
    requires Init(s)
    ensures s.ctxs.kind.Keys == {}
  {
  }

  lemma KindAfter(s: State, e: Step, c: Ctx)
    requires Shaped(s) && Enabled(s, e) && (e.SetEvent? ==> e.kind != CpuEvent(true))
    requires c in s.ctxs.kind ==> s.ctxs.kind[c] != CpuEvent(true)
    ensures var x := ContextsAfter(s, e); c in x.kind ==> x.kind[c] != CpuEvent(true)
  {
    hide Wired, CanUse, BeingCalled;
  }

  /** When clients initialise no emergencies, every CPU thread is first in, first out: events
      that come back from libev included. */
  lemma FifoWithoutEmergency(run: seq<State>, es: seq<Step>, k: nat, i: int)
    requires IsRun(run, es) && k < |run| && i in run[0].wires.cpu && NoEmergency(es, k)
    ensures exists batch, queue ::
      && Accounts(run[k], i, batch, queue)
      && StartedBy(run, k, i) + batch + queue == PushedBy(run, es, k, i)
  {
    hide Inv, Init, Shaped, Enabled, Apply, StartedBy, PushedBy, Accounts;
    forall m | 0 <= m < k ensures Ordinary(run[m], es[m], i) {
      forall c | PushesTo(run[m], es[m], c, CpuQueue(i))
        ensures c in run[m].ctxs.kind && run[m].ctxs.kind[c] == CpuEvent(false)
      {
        var v := RunKeepsInv(run, es, m);
        PushGoes(run[m], v, es[m], c, CpuQueue(i));
        KindsAreOrdinary(run, es, m, c);
      }
    }
    CpuQueueIsFifo(run, es, k, i);
  }

  // ------------------------------------------------------------------ batches

  /** CPU thread i is completing a context it popped, or is about to clear its queue. */
  ghost predicate BeforeClear(cpu: map<int, CpuPc>, i: int) {
    i in cpu && (cpu[i].AtClear? || (cpu[i].Completing? && !cpu[i].draining))
  }

  /** Where a CPU thread is after its step. */
  ghost function PcAfter(w: Wires, e: Step): CpuPc
    requires (e.Pop? || e.Return? || e.Clear? || e.Walk?) && e.i in w.cpu && CpuQueue(e.i) in w.lists
  {
    var pc, head := w.cpu[e.i], w.lists[CpuQueue(e.i)].head;
    match e
    case Pop(_) => Completing(head, NIL, false)
    case Return(_) => if pc.Completing? && pc.draining then Walking(pc.saved) else AtClear
    case Clear(_) => Walking(head)
    case Walk(_) => if pc.Walking? && pc.ptr in w.next && pc.ptr != NIL then Completing(pc.ptr, w.next[pc.ptr], true) else AtPop
  }

  lemma CpuChange(s: State, e: Step)
    requires Shaped(s) && ThreadEnabled(s, e) && (e.Pop? || e.Return? || e.Clear? || e.Walk?)
    ensures e.i in s.wires.cpu && CpuQueue(e.i) in s.wires.lists
    ensures ThreadWires(s, e).cpu == s.wires.cpu[e.i := PcAfter(s.wires, e)]
  {
  }

  lemma PollChange(s: State, e: Step)
    requires Shaped(s) && ThreadEnabled(s, e) && (e.PollClear? || e.Register? || e.Callback? || e.CallbackPush?)
    ensures ThreadWires(s, e).cpu == s.wires.cpu
  {
    hide Urgent, Pushed;
    if e.CallbackPush? {
      var c := s.wires.poll[e.j].ctx;
      PushedSame(s.wires, s.wires.aimed[c], c, Urgent(s.ctxs, c));
    }
  }

  lemma PopsThenClears(s: State, e: Step, i: int)
    requires Shaped(s) && Enabled(s, e) && BeforeClear(s.wires.cpu, i) && e != Clear(i)
    ensures BeforeClear(Apply(s, e).wires.cpu, i)
  {
    hide Apply, ClientEnabled, ClientWires, ContextsAfter, LogAfter;
    if ClientEnabled(s, e) { ClientCpuKeys(s, e); } else { ThreadClears(s, e, i); }
    assert Apply(s, e).wires == WiresAfter(s, e) by { ApplyWires(s, e); }
  }

  lemma ApplyWires(s: State, e: Step)
    requires Shaped(s) && Enabled(s, e)
    ensures Apply(s, e).wires == WiresAfter(s, e)
  {
  }

  lemma ThreadClears(s: State, e: Step, i: int)
    requires Shaped(s) && ThreadEnabled(s, e) && BeforeClear(s.wires.cpu, i) && e != Clear(i)
    ensures BeforeClear(ThreadWires(s, e).cpu, i)
  {
    hide ThreadWires, Wired;
    if e.Pop? || e.Return? || e.Clear? || e.Walk? { CpuChange(s, e); } else { PollChange(s, e); }
  }

  lemma {:induction false} StaysBeforeClear(run: seq<State>, es: seq<Step>, m: nat, k: nat, i: int)
    requires IsRun(run, es) && m <= k < |run| && BeforeClear(run[m].wires.cpu, i)
    requires forall t :: m <= t < k ==> es[t] != Clear(i)
    ensures BeforeClear(run[k].wires.cpu, i)
    decreases k
  {
    hide Init, Shaped, Enabled, Apply, BeforeClear;
    if m < k {
      StaysBeforeClear(run, es, m, k - 1, i);
      PopsThenClears(run[k - 1], es[k - 1], i);
    }
  }

  /** After a context it has popped, a CPU thread takes its whole queue before it begins another:
      from there on not even an emergency overtakes what had been queued. */
  lemma ClearsAfterPop(run: seq<State>, es: seq<Step>, m: nat, k: nat, i: int)
    requires IsRun(run, es) && m < k < |es| && es[m] == Pop(i)
    requires StartOf(run[k].wires.cpu, run[k + 1].wires.cpu, i) != []
    ensures exists t :: m < t < k && es[t] == Clear(i)
  {
    hide Init, Apply;
    assert BeforeClear(run[m + 1].wires.cpu, i) by { PopThenBefore(run[m], i); }
    if !exists t :: m < t < k && es[t] == Clear(i) {
      StaysBeforeClear(run, es, m + 1, k, i);
      if es[k] != Clear(i) {
        PopsThenClears(run[k], es[k], i);
        NoStartYet(run[k], es[k], i);
      } else {
        ClearStartsNone(run[k], i);
      }
    }
  }

  lemma PopThenBefore(s: State, i: int)
    requires Shaped(s) && ThreadEnabled(s, Pop(i))
    ensures Enabled(s, Pop(i)) && BeforeClear(Apply(s, Pop(i)).wires.cpu, i)
  {
  }

  /** A thread at its clear begins nothing before it. */
  lemma NoStartYet(s: State, e: Step, i: int)
    requires Shaped(s) && Enabled(s, e) && BeforeClear(s.wires.cpu, i) && e != Clear(i)
    ensures StartOf(s.wires.cpu, Apply(s, e).wires.cpu, i) == []
  {
    hide Apply, ClientEnabled, ClientWires, ContextsAfter, LogAfter;
    ApplyWires(s, e);
    if ClientEnabled(s, e) { ClientCpuKeys(s, e); } else { ThreadStartsNone(s, e, i); }
  }

  lemma ThreadStartsNone(s: State, e: Step, i: int)
    requires Shaped(s) && ThreadEnabled(s, e) && BeforeClear(s.wires.cpu, i) && e != Clear(i)
    ensures StartOf(s.wires.cpu, ThreadWires(s, e).cpu, i) == []
  {
    hide ThreadWires, Wired;
    if e.Pop? || e.Return? || e.Clear? || e.Walk? { CpuChange(s, e); } else { PollChange(s, e); }
  }

  lemma ClearStartsNone(s: State, i: int)
    requires Shaped(s) && ThreadEnabled(s, Clear(i))
    ensures Enabled(s, Clear(i)) && StartOf(s.wires.cpu, Apply(s, Clear(i)).wires.cpu, i) == []
  {
  }

  /** While a cleared chain is left, its first context is what the thread begins next. */
  lemma ChainComesFirst(run: seq<State>, es: seq<Step>, k: nat, i: int)
    requires IsRun(run, es) && k < |es| && i in run[k].wires.cpu && Wired(run[k].wires)
    requires BatchPtr(run[k].wires, CpuBatch(i)) != NIL
    requires StartOf(run[k].wires.cpu, run[k + 1].wires.cpu, i) != []
    ensures StartOf(run[k].wires.cpu, run[k + 1].wires.cpu, i) == [BatchPtr(run[k].wires, CpuBatch(i))]
  {
    hide Init, Apply;
    ChainFirst(run[k], es[k], i);
  }

  lemma ChainFirst(s: State, e: Step, i: int)
    requires Shaped(s) && Enabled(s, e) && i in s.wires.cpu && BatchPtr(s.wires, CpuBatch(i)) != NIL
    ensures var started := StartOf(s.wires.cpu, Apply(s, e).wires.cpu, i);
            started == [] || started == [BatchPtr(s.wires, CpuBatch(i))]
  {
    hide Apply, ClientEnabled, ClientWires, ContextsAfter, LogAfter;
    ApplyWires(s, e);
    if ClientEnabled(s, e) { ClientCpuKeys(s, e); } else { ThreadChainFirst(s, e, i); }
  }

  lemma ThreadChainFirst(s: State, e: Step, i: int)
    requires Shaped(s) && ThreadEnabled(s, e) && i in s.wires.cpu && BatchPtr(s.wires, CpuBatch(i)) != NIL
    ensures var started := StartOf(s.wires.cpu, ThreadWires(s, e).cpu, i);
            started == [] || started == [BatchPtr(s.wires, CpuBatch(i))]
  {
    hide ThreadWires, Wired;
    if e.Pop? || e.Return? || e.Clear? || e.Walk? { CpuChange(s, e); } else { PollChange(s, e); }
  }
}
