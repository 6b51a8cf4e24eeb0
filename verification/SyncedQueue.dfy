/** `SyncedQueue` over `FutexCondition`: push and push_front add under the lock and
    then notify; pop and top wait, then use the queue under the lock, and top
    notifies back.  A lock makes its guarded section one step. */
module SyncedQueue {
  import Futex = FutexCondition

  type Tid = Futex.Tid

  /** A thread in none of the sets, and outside the condition, is between calls. */
  datatype State<T> = State(
    futex: Futex.State,
    queue: seq<T>,
    owesNotify: set<Tid>,    // push after unlock, or top after unlock: notify not yet begun
    popWaiting: set<Tid>,    // pop, blocked in wait
    topWaiting: set<Tid>,    // top, blocked in wait
    popGranted: set<Tid>,    // pop, wait returned true, queue not yet used
    topGranted: set<Tid>,    // top, the same
    arrived: seq<T>,         // everything ever pushed, in order
    taken: seq<T>,           // everything ever popped, in order
    seen: seq<T>,            // what the calls of top have returned, in order
    fronts: nat)             // how many of the pushes were push_front
  {
    ghost predicate Idle(t: Tid) {
      futex.Outside(t) && t !in owesNotify && t !in popGranted && t !in topGranted
    }
  }

  datatype Step<T> =
    | Push(t: Tid, x: T)
    | PushFront(t: Tid, x: T)
    | NotifyStep(t: Tid)
    | PopCall(t: Tid)
    | TopCall(t: Tid)
    | SleepStep(t: Tid)
    | InterruptStep(t: Tid)
    | WakeStep(t: Tid, woken: Tid)
    | WakeNobody(t: Tid)
    | PopUse(t: Tid)
    | TopUse(t: Tid)

  ghost predicate Init<T>(s: State<T>) {
    Futex.Init(s.futex, 0) && s == State(s.futex, [], {}, {}, {}, {}, {}, [], [], [], 0)
  }

  /** PopUse and TopUse read the front of the queue whether or not there is one; on an empty
      queue the source's behaviour is undefined, and so is the next state here. */
  ghost predicate Next<T>(s: State<T>, s': State<T>, step: Step<T>) {
    match step
    case Push(t, x) =>
      s.Idle(t) && s' == s.(queue := s.queue + [x], arrived := s.arrived + [x], owesNotify := s.owesNotify + {t})
    case PushFront(t, x) =>
      s.Idle(t) && s' == s.(queue := [x] + s.queue, arrived := s.arrived + [x],
                            owesNotify := s.owesNotify + {t}, fronts := s.fronts + 1)
    case NotifyStep(t) =>
      t in s.owesNotify && Futex.Next(s.futex, s'.futex, Futex.NotifyCall(t)) &&
      s' == s.(futex := s'.futex, owesNotify := s.owesNotify - {t})
    case PopCall(t) =>
      s.Idle(t) && Futex.Next(s.futex, s'.futex, Futex.WaitCall(t)) &&
      if s'.futex.Outside(t) then s' == s.(futex := s'.futex, popGranted := s.popGranted + {t})
      else s' == s.(futex := s'.futex, popWaiting := s.popWaiting + {t})
    case TopCall(t) =>
      s.Idle(t) && Futex.Next(s.futex, s'.futex, Futex.WaitCall(t)) &&
      if s'.futex.Outside(t) then s' == s.(futex := s'.futex, topGranted := s.topGranted + {t})
      else s' == s.(futex := s'.futex, topWaiting := s.topWaiting + {t})
    case SleepStep(t) =>
      Futex.Next(s.futex, s'.futex, Futex.FutexWait(t)) && s' == s.(futex := s'.futex)
    case InterruptStep(t) =>
      Futex.Next(s.futex, s'.futex, Futex.Interrupted(t)) && s' == s.(futex := s'.futex)
    case WakeStep(t, woken) =>
      Futex.Next(s.futex, s'.futex, Futex.FutexWake(t, woken)) &&
      if woken in s.popWaiting
      then s' == s.(futex := s'.futex, popWaiting := s.popWaiting - {woken}, popGranted := s.popGranted + {woken})
      else s' == s.(futex := s'.futex, topWaiting := s.topWaiting - {woken}, topGranted := s.topGranted + {woken})
    case WakeNobody(t) =>
      Futex.Next(s.futex, s'.futex, Futex.FutexWakeNobody(t)) && s' == s
    case PopUse(t) =>
      t in s.popGranted &&
      (s.queue != [] ==>
         s' == s.(queue := s.queue[1..], taken := s.taken + [s.queue[0]], popGranted := s.popGranted - {t}))
    case TopUse(t) =>
      t in s.topGranted &&
      (s.queue != [] ==>
         s' == s.(seen := s.seen + [s.queue[0]], topGranted := s.topGranted - {t}, owesNotify := s.owesNotify + {t}))
  }

  ghost predicate IsRun<T>(run: seq<State<T>>, steps: seq<Step<T>>) {
    && |run| == |steps| + 1
    && Init(run[0])
    && forall i :: 0 <= i < |steps| ==> Next(run[i], run[i + 1], steps[i])
  }

  /** Each thread is at one place. */
  ghost predicate Places<T>(s: State<T>) {
    && s.popWaiting !! s.topWaiting
    && s.popWaiting + s.topWaiting == s.futex.aboutToSleep + s.futex.asleep
    && s.owesNotify !! s.popGranted && s.owesNotify !! s.topGranted && s.popGranted !! s.topGranted
    && (forall t | t in s.owesNotify || t in s.popGranted || t in s.topGranted :: s.futex.Outside(t))
  }

  /** Every element in the queue is spoken for exactly once. */
  ghost predicate Balanced<T>(s: State<T>) {
    |s.queue| == |s.owesNotify| + Futex.Max(s.futex.counter, 0) + |s.futex.waking|
                 + |s.popGranted| + |s.topGranted|
  }

  ghost predicate Conserved<T>(s: State<T>) {
    && multiset(s.arrived) == multiset(s.taken) + multiset(s.queue)
    && (s.fronts == 0 ==> s.arrived == s.taken + s.queue)
  }

  ghost predicate Inv<T>(s: State<T>) {
    Futex.Inv(s.futex, 0) && Places(s) && Balanced(s) && Conserved(s)
  }

  lemma GrantedMeansNonEmpty<T>(s: State<T>)
    requires Balanced(s) && s.popGranted + s.topGranted != {}
    ensures s.queue != []
  {
    assert |s.popGranted| > 0 || |s.topGranted| > 0;
  }

  /** The condition's own step inside a step of the queue. */
  ghost function FutexStep<T>(step: Step<T>): Futex.Step
    requires !step.Push? && !step.PushFront? && !step.PopUse? && !step.TopUse?
  {
    match step
    case NotifyStep(t) => Futex.NotifyCall(t)
    case PopCall(t) => Futex.WaitCall(t)
    case TopCall(t) => Futex.WaitCall(t)
    case SleepStep(t) => Futex.FutexWait(t)
    case InterruptStep(t) => Futex.Interrupted(t)
    case WakeStep(t, woken) => Futex.FutexWake(t, woken)
    case WakeNobody(t) => Futex.FutexWakeNobody(t)
  }

  lemma StepKeepsFutex<T>(s: State<T>, s': State<T>, step: Step<T>)
    requires Inv(s) && Next(s, s', step)
    ensures Futex.Inv(s'.futex, 0)
  {
    hide Futex.Next, Futex.Inv;
    if step.PopUse? || step.TopUse? {
      GrantedMeansNonEmpty(s);
    } else if !step.Push? && !step.PushFront? {
      Futex.StepKeepsInv(s.futex, s'.futex, FutexStep(step), 0);
    }
  }

  lemma StepKeepsPlaces<T>(s: State<T>, s': State<T>, step: Step<T>)
    requires Futex.Apart(s.futex) && Places(s) && Next(s, s', step) && (step.PopUse? || step.TopUse? ==> s.queue != [])
    ensures Places(s')
  {
    match step
    case SleepStep(t) =>
      assert s'.futex.aboutToSleep + s'.futex.asleep == s.futex.aboutToSleep + s.futex.asleep;
    case InterruptStep(t) =>
      assert s'.futex.aboutToSleep + s'.futex.asleep == s.futex.aboutToSleep + s.futex.asleep;
    case WakeStep(t, woken) => WakeKeepsPlaces(s, s', t, woken);
    case _ =>
  }

  lemma WakeKeepsPlaces<T>(s: State<T>, s': State<T>, t: Tid, woken: Tid)
    requires Futex.Apart(s.futex) && Places(s) && Next(s, s', WakeStep(t, woken))
    ensures Places(s')
  {
    assert woken in s.popWaiting + s.topWaiting;
    assert s'.popWaiting + s'.topWaiting == s.popWaiting + s.topWaiting - {woken};
    assert s'.futex.aboutToSleep + s'.futex.asleep == s.futex.aboutToSleep + s.futex.asleep - {woken};
  }

  lemma StepKeepsBalance<T>(s: State<T>, s': State<T>, step: Step<T>)
    requires Futex.Apart(s.futex) && Places(s) && Balanced(s) && Next(s, s', step)
    ensures Balanced(s')
  {
    match step
    case PopUse(t) => GrantedMeansNonEmpty(s);
    case TopUse(t) => GrantedMeansNonEmpty(s);
    case WakeStep(t, woken) => assert woken !in s.popGranted + s.topGranted;
    case _ =>
  }

  lemma StepKeepsContents<T>(s: State<T>, s': State<T>, step: Step<T>)
    requires Conserved(s) && Next(s, s', step) && (step.PopUse? || step.TopUse? ==> s.queue != [])
    ensures Conserved(s')
  {
    hide Futex.Next, Conserved;
    match step
    case PopUse(_) => ContentsPop(s, s');
    case Push(_, x) => ContentsPush(s, s', x);
    case PushFront(_, x) => ContentsPush(s, s', x);
    case _ => ContentsSame(s, s');
  }

  lemma ContentsSame<T>(s: State<T>, s': State<T>)
    requires Conserved(s)
    requires s'.queue == s.queue && s'.arrived == s.arrived && s'.taken == s.taken && s'.fronts == s.fronts
    ensures Conserved(s')
  {
  }

  lemma ContentsPop<T>(s: State<T>, s': State<T>)
    requires Conserved(s) && s.queue != []
    requires s'.queue == s.queue[1..] && s'.taken == s.taken + [s.queue[0]]
    requires s'.arrived == s.arrived && s'.fronts == s.fronts
    ensures Conserved(s')
  {
    assert s.queue == [s.queue[0]] + s.queue[1..];
    assert s.taken + s.queue == s'.taken + s'.queue;
  }

  lemma ContentsPush<T>(s: State<T>, s': State<T>, x: T)
    requires Conserved(s) && s'.arrived == s.arrived + [x] && s'.taken == s.taken
    requires (s'.queue == s.queue + [x] && s'.fronts == s.fronts)
             || (s'.queue == [x] + s.queue && s'.fronts == s.fronts + 1)
    ensures Conserved(s')
  {
    assert s.taken + (s.queue + [x]) == s.taken + s.queue + [x];
  }

  lemma {:induction false} RunKeepsInv<T>(run: seq<State<T>>, steps: seq<Step<T>>, i: nat)
    requires IsRun(run, steps) && i < |run|
    ensures Inv(run[i])
  {
    if i > 0 {
      RunKeepsInv(run, steps, i - 1);
      if steps[i - 1].PopUse? || steps[i - 1].TopUse? { GrantedMeansNonEmpty(run[i - 1]); }
      StepKeepsFutex(run[i - 1], run[i], steps[i - 1]);
      StepKeepsPlaces(run[i - 1], run[i], steps[i - 1]);
      StepKeepsBalance(run[i - 1], run[i], steps[i - 1]);
      StepKeepsContents(run[i - 1], run[i], steps[i - 1]);
    }
  }

  /** In every interleaving the queue holds one element for each notify still
      owed, each free unit of the counter, each wake-up in progress and each
      granted wait not yet used; so a pop or top past `wait` finds an element. */
  lemma QueueBalance<T>(run: seq<State<T>>, steps: seq<Step<T>>, i: nat)
    requires IsRun(run, steps) && i < |run|
    ensures Balanced(run[i])
    ensures run[i].popGranted + run[i].topGranted != {} ==> run[i].queue != []
    ensures multiset(run[i].arrived) == multiset(run[i].taken) + multiset(run[i].queue)
    ensures run[i].fronts == 0 ==> run[i].arrived == run[i].taken + run[i].queue
  {
    RunKeepsInv(run, steps, i);
    if run[i].popGranted + run[i].topGranted != {} { GrantedMeansNonEmpty(run[i]); }
  }

  /** When every thread is between calls or blocked, a blocked thread means the
      queue is empty: nobody sleeps while there is something to take. */
  lemma NobodySleepsOnItems<T>(run: seq<State<T>>, steps: seq<Step<T>>, i: nat)
    requires IsRun(run, steps) && i < |run|
    requires run[i].owesNotify == {} && run[i].popGranted == {} && run[i].topGranted == {} && run[i].futex.waking == {}
    ensures run[i].popWaiting + run[i].topWaiting != {} ==> run[i].queue == []
    ensures |run[i].queue| == Futex.Max(run[i].futex.counter, 0)
  {
    RunKeepsInv(run, steps, i);
    var f := run[i].futex;
    if run[i].popWaiting + run[i].topWaiting != {} {
      assert f.aboutToSleep != {} || f.asleep != {};
      assert f.Blocked() > 0;
    }
  }

  /** A pop that gets past wait with a null pointer takes nothing: its grant is gone, and the
      element left behind is spoken for by nobody. */
  lemma NullPopUnbalances<T>(run: seq<State<T>>, steps: seq<Step<T>>, i: nat, t: Tid)
    requires IsRun(run, steps) && i < |run| && t in run[i].popGranted
    ensures !Balanced(run[i].(popGranted := run[i].popGranted - {t}))
  {
    QueueBalance(run, steps, i);
  }

  // ----------------------------------------------------------------- the order

  /** What the steps push, in order. */
  function Arrivals<T>(steps: seq<Step<T>>): seq<T> {
    if steps == [] then []
    else
      var step := steps[|steps| - 1];
      Arrivals(steps[..|steps| - 1]) + if step.Push? || step.PushFront? then [step.x] else []
  }

  lemma {:induction false} LogIsRight<T>(run: seq<State<T>>, steps: seq<Step<T>>, i: nat)
    requires IsRun(run, steps) && i < |run|
    ensures run[i].arrived == Arrivals(steps[..i])
    ensures run[i].fronts == 0 <==> forall m :: 0 <= m < i ==> !steps[m].PushFront?
  {
    hide Next, Inv;
    if i > 0 {
      LogIsRight(run, steps, i - 1);
      RunKeepsInv(run, steps, i - 1);
      StepLogs(run[i - 1], run[i], steps[i - 1]);
      assert steps[..i][..i - 1] == steps[..i - 1];
      assert run[i - 1].arrived + [] == run[i - 1].arrived;
    }
  }

  lemma StepLogs<T>(s: State<T>, s': State<T>, step: Step<T>)
    requires Inv(s) && Next(s, s', step)
    ensures s'.arrived == if step.Push? || step.PushFront? then s.arrived + [step.x] else s.arrived
    ensures s'.fronts == s.fronts + if step.PushFront? then 1 else 0
  {
    hide Futex.Next, Futex.Inv, Conserved, Places;
    if step.PopUse? || step.TopUse? { assert s.queue != [] by { GrantedMeansNonEmpty(s); } }
  }

  /** Without push_front, what has been popped and what is queued is what was pushed, in order. */
  lemma FirstInFirstOut<T>(run: seq<State<T>>, steps: seq<Step<T>>, i: nat)
    requires IsRun(run, steps) && i < |run| && forall m :: 0 <= m < i ==> !steps[m].PushFront?
    ensures run[i].taken + run[i].queue == Arrivals(steps[..i])
  {
    LogIsRight(run, steps, i);
    QueueBalance(run, steps, i);
  }

  /** The front of the queue stays until something is popped or pushed before it. */
  lemma {:induction false} FrontStays<T>(run: seq<State<T>>, steps: seq<Step<T>>, i: nat, j: nat)
    requires IsRun(run, steps) && i <= j < |run| && run[i].queue != []
    requires forall m :: i <= m < j ==> !steps[m].PushFront? && !steps[m].PopUse?
    ensures run[j].queue != [] && run[j].queue[0] == run[i].queue[0]
    decreases j
  {
    hide Futex.Next;
    if i < j {
      FrontStays(run, steps, i, j - 1);
      assert Next(run[j - 1], run[j], steps[j - 1]);
    }
  }

  /** The next pop takes what was pushed to the front. */
  lemma PushFrontIsNext<T>(run: seq<State<T>>, steps: seq<Step<T>>, i: nat, j: nat)
    requires IsRun(run, steps) && i < j < |steps| && steps[i].PushFront? && steps[j].PopUse?
    requires forall m :: i < m < j ==> !steps[m].PushFront? && !steps[m].PopUse?
    ensures run[j + 1].taken == run[j].taken + [steps[i].x]
  {
    hide Futex.Next;
    assert Next(run[i], run[i + 1], steps[i]) && Next(run[j], run[j + 1], steps[j]);
    FrontStays(run, steps, i + 1, j);
  }

  /** And it takes what top has shown. */
  lemma TopShowsNext<T>(run: seq<State<T>>, steps: seq<Step<T>>, i: nat, j: nat)
    requires IsRun(run, steps) && i < j < |steps| && steps[i].TopUse? && steps[j].PopUse?
    requires forall m :: i < m < j ==> !steps[m].PushFront? && !steps[m].PopUse?
    ensures exists x :: run[i + 1].seen == run[i].seen + [x] && run[j + 1].taken == run[j].taken + [x]
  {
    hide Futex.Next;
    QueueBalance(run, steps, i);
    assert Next(run[i], run[i + 1], steps[i]) && Next(run[j], run[j + 1], steps[j]);
    assert run[i].topGranted != {} && run[i].queue != [];
    FrontStays(run, steps, i + 1, j);
  }
}
