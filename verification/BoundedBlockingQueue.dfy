/** `BoundedBlockingQueue`: a deque of at most `maxSize` elements behind one mutex
    and two condition variables.

    Each step is one critical section.  A notify wakes one unsignalled waiter if
    there is one; waiters may also wake spuriously; a timed-out waiter is one
    that had not been signalled, and its call returns false. */
module BoundedBlockingQueue {

  type Tid = int

  datatype Offer<T> = Offer(x: T, front: bool)

  datatype State<T> = State(
    maxSize: nat,
    queue: seq<T>,
    popWaiting: set<Tid>,          // in notEmpty_.wait, not signalled
    popWoken: set<Tid>,            // to recheck queue_.empty()
    pushWaiting: set<Tid>,         // in notFull_.wait, not signalled
    pushWoken: set<Tid>,           // to recheck queue_.size() == size_
    offers: map<Tid, Offer<T>>,    // what each blocked pusher carries
    arrived: seq<T>,               // everything ever queued, in order
    taken: seq<T>,                 // everything ever popped, in order
    fronts: nat)                   // how many arrivals were push_front
  {
    ghost predicate Idle(t: Tid) {
      t !in popWaiting && t !in popWoken && t !in pushWaiting && t !in pushWoken
    }
  }

  datatype Step<T> =
    | PushCall(t: Tid, offer: Offer<T>, woken: Tid)
    | PushRecheck(t: Tid, woken: Tid)
    | PopCall(t: Tid, woken: Tid)
    | PopRecheck(t: Tid, woken: Tid)
    | PushSpurious(t: Tid)
    | PopSpurious(t: Tid)
    | PushTimeout(t: Tid)
    | PopTimeout(t: Tid)

  ghost predicate Init<T>(s: State<T>, maxSize: nat) {
    s == State(maxSize, [], {}, {}, {}, {}, map[], [], [], 0)
  }

  /** notEmpty_.notify(), choosing `woken` if anybody waits. */
  ghost predicate NotifyNotEmpty<T>(s: State<T>, s': State<T>, woken: Tid) {
    if s.popWaiting == {} then s' == s
    else woken in s.popWaiting && s' == s.(popWaiting := s.popWaiting - {woken}, popWoken := s.popWoken + {woken})
  }

  ghost predicate NotifyNotFull<T>(s: State<T>, s': State<T>, woken: Tid) {
    if s.pushWaiting == {} then s' == s
    else woken in s.pushWaiting && s' == s.(pushWaiting := s.pushWaiting - {woken}, pushWoken := s.pushWoken + {woken})
  }

  ghost function Queued<T>(s: State<T>, offer: Offer<T>): State<T> {
    if offer.front
    then s.(queue := [offer.x] + s.queue, arrived := s.arrived + [offer.x], fronts := s.fronts + 1)
    else s.(queue := s.queue + [offer.x], arrived := s.arrived + [offer.x])
  }

  ghost function Taken<T>(s: State<T>): State<T>
    requires s.queue != []
  {
    s.(queue := s.queue[1..], taken := s.taken + [s.queue[0]])
  }

  /** The loop test and what follows, for a pusher `t` that holds the mutex. */
  ghost predicate PushBody<T>(s: State<T>, s': State<T>, t: Tid, offer: Offer<T>, woken: Tid) {
    if |s.queue| == s.maxSize
    then s' == s.(pushWaiting := s.pushWaiting + {t}, offers := s.offers[t := offer])
    else NotifyNotEmpty(Queued(s, offer), s', woken)
  }

  ghost predicate PopBody<T>(s: State<T>, s': State<T>, t: Tid, woken: Tid) {
    if s.queue == [] then s' == s.(popWaiting := s.popWaiting + {t})
    else NotifyNotFull(Taken(s), s', woken)
  }

  ghost predicate Next<T>(s: State<T>, s': State<T>, step: Step<T>) {
    match step
    case PushCall(t, offer, woken) => s.Idle(t) && PushBody(s, s', t, offer, woken)
    case PushRecheck(t, woken) =>
      t in s.pushWoken && t in s.offers && PushBody(s.(pushWoken := s.pushWoken - {t}), s', t, s.offers[t], woken)
    case PopCall(t, woken) => s.Idle(t) && PopBody(s, s', t, woken)
    case PopRecheck(t, woken) => t in s.popWoken && PopBody(s.(popWoken := s.popWoken - {t}), s', t, woken)
    case PushSpurious(t) =>
      t in s.pushWaiting && s' == s.(pushWaiting := s.pushWaiting - {t}, pushWoken := s.pushWoken + {t})
    case PopSpurious(t) =>
      t in s.popWaiting && s' == s.(popWaiting := s.popWaiting - {t}, popWoken := s.popWoken + {t})
    case PushTimeout(t) => t in s.pushWaiting && s' == s.(pushWaiting := s.pushWaiting - {t})
    case PopTimeout(t) => t in s.popWaiting && s' == s.(popWaiting := s.popWaiting - {t})
  }

  ghost predicate IsRun<T>(run: seq<State<T>>, steps: seq<Step<T>>, maxSize: nat) {
    && |run| == |steps| + 1
    && Init(run[0], maxSize)
    && forall i :: 0 <= i < |steps| ==> Next(run[i], run[i + 1], steps[i])
  }

  /** A waiter left unsignalled is covered: elements (or free slots) are no more
      than the threads already woken for them. */
  ghost predicate NoLostWakeup<T>(s: State<T>) {
    && (s.popWaiting != {} ==> |s.queue| <= |s.popWoken|)
    && (s.pushWaiting != {} ==> s.maxSize - |s.queue| <= |s.pushWoken|)
  }

  ghost predicate Places<T>(s: State<T>) {
    && s.popWaiting !! s.popWoken && s.popWaiting !! s.pushWaiting && s.popWaiting !! s.pushWoken
    && s.popWoken !! s.pushWaiting && s.popWoken !! s.pushWoken && s.pushWaiting !! s.pushWoken
    && s.pushWaiting <= s.offers.Keys && s.pushWoken <= s.offers.Keys
  }

  ghost predicate Conserved<T>(s: State<T>) {
    && multiset(s.arrived) == multiset(s.taken) + multiset(s.queue)
    && (s.fronts == 0 ==> s.arrived == s.taken + s.queue)
  }

  ghost predicate Inv<T>(s: State<T>) {
    && |s.queue| <= s.maxSize
    && Places(s) && NoLostWakeup(s) && Conserved(s)
  }

  lemma StepKeepsPlaces<T>(s: State<T>, s': State<T>, step: Step<T>)
    requires Places(s) && Next(s, s', step)
    ensures Places(s')
  {
  }

  lemma StepKeepsWakeups<T>(s: State<T>, s': State<T>, step: Step<T>)
    requires Places(s) && |s.queue| <= s.maxSize && NoLostWakeup(s) && Next(s, s', step)
    ensures |s'.queue| <= s'.maxSize == s.maxSize && NoLostWakeup(s')
  {
    hide PushBody, PopBody;
    match step
    case PushCall(t, offer, woken) => PushBodyWakeups(s, s', t, offer, woken);
    case PushRecheck(t, woken) =>
      PushBodyWakeups(s.(pushWoken := s.pushWoken - {t}), s', t, s.offers[t], woken);
    case PopCall(t, woken) => PopBodyWakeups(s, s', t, woken);
    case PopRecheck(t, woken) => PopBodyWakeups(s.(popWoken := s.popWoken - {t}), s', t, woken);
    case _ =>
  }

  /** One slot may be uncovered while a pusher holds the mutex: it is about to fill it. */
  lemma PushBodyWakeups<T>(s: State<T>, s': State<T>, t: Tid, offer: Offer<T>, woken: Tid)
    requires Places(s) && |s.queue| <= s.maxSize && PushBody(s, s', t, offer, woken)
    requires s.popWaiting != {} ==> |s.queue| <= |s.popWoken|
    requires s.pushWaiting != {} ==> s.maxSize - |s.queue| <= |s.pushWoken| + 1
    ensures |s'.queue| <= s'.maxSize == s.maxSize && NoLostWakeup(s')
  {
  }

  lemma PopBodyWakeups<T>(s: State<T>, s': State<T>, t: Tid, woken: Tid)
    requires Places(s) && |s.queue| <= s.maxSize && PopBody(s, s', t, woken)
    requires s.popWaiting != {} ==> |s.queue| <= |s.popWoken| + 1
    requires s.pushWaiting != {} ==> s.maxSize - |s.queue| <= |s.pushWoken|
    ensures |s'.queue| <= s'.maxSize == s.maxSize && NoLostWakeup(s')
  {
  }

  /** What a step may do to the elements. */
  lemma StepContents<T>(s: State<T>, s': State<T>, step: Step<T>)
    requires Next(s, s', step)
    ensures || SameContents(s, s')
            || (exists offer :: SameContents(Queued(s, offer), s'))
            || (s.queue != [] && SameContents(Taken(s), s'))
  {
    match step
    case PushCall(t, offer, _) => if |s.queue| != s.maxSize { assert SameContents(Queued(s, offer), s'); }
    case PushRecheck(t, _) => if |s.queue| != s.maxSize { assert SameContents(Queued(s, s.offers[t]), s'); }
    case _ =>
  }

  ghost predicate SameContents<T>(s: State<T>, s': State<T>) {
    s'.queue == s.queue && s'.arrived == s.arrived && s'.taken == s.taken && s'.fronts == s.fronts
  }

  lemma QueuedKeepsContents<T>(s: State<T>, offer: Offer<T>)
    requires Conserved(s)
    ensures Conserved(Queued(s, offer))
  {
    assert s.taken + (s.queue + [offer.x]) == s.taken + s.queue + [offer.x];
  }

  lemma TakenKeepsContents<T>(s: State<T>)
    requires Conserved(s) && s.queue != []
    ensures Conserved(Taken(s))
  {
    assert s.queue == [s.queue[0]] + s.queue[1..];
    assert s.taken + s.queue == Taken(s).taken + Taken(s).queue;
  }

  lemma StepKeepsInv<T>(s: State<T>, s': State<T>, step: Step<T>)
    requires Inv(s) && Next(s, s', step)
    ensures Inv(s') && s'.maxSize == s.maxSize
  {
    hide Next, Places, NoLostWakeup, Queued;
    StepKeepsPlaces(s, s', step);
    StepKeepsWakeups(s, s', step);
    StepContents(s, s', step);
    if offer :| SameContents(Queued(s, offer), s') {
      QueuedKeepsContents(s, offer);
    } else if s.queue != [] && SameContents(Taken(s), s') {
      TakenKeepsContents(s);
    }
  }

  lemma {:induction false} RunKeepsInv<T>(run: seq<State<T>>, steps: seq<Step<T>>, maxSize: nat, i: nat)
    requires IsRun(run, steps, maxSize) && i < |run|
    ensures Inv(run[i]) && run[i].maxSize == maxSize
  {
    if i > 0 {
      RunKeepsInv(run, steps, maxSize, i - 1);
      StepKeepsInv(run[i - 1], run[i], steps[i - 1]);
    }
  }

  /** In every interleaving: the size stays within bounds, no wake-up is lost on
      either condition, and elements come out as they went in. */
  lemma EveryRun<T>(run: seq<State<T>>, steps: seq<Step<T>>, maxSize: nat, i: nat)
    requires IsRun(run, steps, maxSize) && i < |run|
    ensures 0 <= |run[i].queue| <= maxSize
    ensures NoLostWakeup(run[i])
    ensures multiset(run[i].arrived) == multiset(run[i].taken) + multiset(run[i].queue)
    ensures run[i].fronts == 0 ==> run[i].arrived == run[i].taken + run[i].queue
  {
    RunKeepsInv(run, steps, maxSize, i);
  }

  /** Once nobody is on the way to recheck, poppers wait only on an empty queue and
      pushers only on a full one; so unless the capacity is 0 they never all wait. */
  lemma NoDeadlock<T>(run: seq<State<T>>, steps: seq<Step<T>>, maxSize: nat, i: nat)
    requires IsRun(run, steps, maxSize) && i < |run|
    requires run[i].popWoken == {} && run[i].pushWoken == {}
    ensures run[i].popWaiting != {} ==> run[i].queue == []
    ensures run[i].pushWaiting != {} ==> |run[i].queue| == maxSize
    ensures run[i].popWaiting != {} && run[i].pushWaiting != {} ==> maxSize == 0
  {
    RunKeepsInv(run, steps, maxSize, i);
  }

  // ----------------------------------------------------------------- the order

  /** In this step a pusher finds room and queues its offer. */
  ghost predicate Queues<T>(s: State<T>, step: Step<T>, offer: Offer<T>) {
    && |s.queue| != s.maxSize
    && (|| (step.PushCall? && step.offer == offer)
        || (step.PushRecheck? && step.t in s.offers && s.offers[step.t] == offer))
  }

  /** In this step a popper finds an element and takes it. */
  ghost predicate Pops<T>(s: State<T>, step: Step<T>) { s.queue != [] && (step.PopCall? || step.PopRecheck?) }

  /** A push to the front. */
  ghost predicate QueuesFirst<T>(s: State<T>, step: Step<T>) {
    || (step.PushCall? && step.offer.front && Queues(s, step, step.offer))
    || (step.PushRecheck? && step.t in s.offers && s.offers[step.t].front && Queues(s, step, s.offers[step.t]))
  }

  /** Other steps leave the queue alone. */
  lemma OnlyThese<T>(s: State<T>, s': State<T>, step: Step<T>)
    requires Next(s, s', step)
    ensures Pops(s, step) || (exists offer :: Queues(s, step, offer)) ||
            (s'.queue == s.queue && s'.taken == s.taken && s'.arrived == s.arrived && s'.fronts == s.fronts)
  {
    if step.PushCall? && |s.queue| != s.maxSize { assert Queues(s, step, step.offer); }
    if step.PushRecheck? && |s.queue| != s.maxSize { assert Queues(s, step, s.offers[step.t]); }
  }

  lemma NotFirst<T>(s: State<T>, step: Step<T>, offer: Offer<T>)
    requires Queues(s, step, offer) && !QueuesFirst(s, step)
    ensures !offer.front
  {
  }

  lemma QueuedWhere<T>(s: State<T>, s': State<T>, step: Step<T>, offer: Offer<T>)
    requires Next(s, s', step) && Queues(s, step, offer)
    ensures s'.queue == if offer.front then [offer.x] + s.queue else s.queue + [offer.x]
    ensures s'.arrived == s.arrived + [offer.x] && s'.taken == s.taken
    ensures s'.fronts == s.fronts + if offer.front then 1 else 0
  {
  }

  lemma PoppedWhich<T>(s: State<T>, s': State<T>, step: Step<T>)
    requires Next(s, s', step) && Pops(s, step)
    ensures s'.taken == s.taken + [s.queue[0]] && s'.queue == s.queue[1..]
    ensures s'.arrived == s.arrived && s'.fronts == s.fronts
  {
  }

  /** Without push_front, elements come out in the order they were queued. */
  lemma {:induction false} FirstInFirstOut<T>(run: seq<State<T>>, steps: seq<Step<T>>, maxSize: nat, i: nat)
    requires IsRun(run, steps, maxSize) && i < |run|
    requires forall m :: 0 <= m < i ==> !QueuesFirst(run[m], steps[m])
    ensures run[i].fronts == 0 && run[i].arrived == run[i].taken + run[i].queue
  {
    hide Next, Queues, Pops;
    if i > 0 {
      var s, step := run[i - 1], steps[i - 1];
      FirstInFirstOut(run, steps, maxSize, i - 1);
      assert Next(s, run[i], step);
      OnlyThese(s, run[i], step);
      if Pops(s, step) { PoppedWhich(s, run[i], step); }
      if offer :| Queues(s, step, offer) {
        QueuedWhere(s, run[i], step, offer);
        NotFirst(s, step, offer);
      }
    }
    EveryRun(run, steps, maxSize, i);
  }

  lemma {:induction false} FrontStays<T>(run: seq<State<T>>, steps: seq<Step<T>>, maxSize: nat, i: nat, j: nat)
    requires IsRun(run, steps, maxSize) && i <= j < |run| && run[i].queue != []
    requires forall m :: i <= m < j ==> !QueuesFirst(run[m], steps[m]) && !Pops(run[m], steps[m])
    ensures run[j].queue != [] && run[j].queue[0] == run[i].queue[0]
    decreases j
  {
    hide Next, Queues, Pops;
    if i < j {
      var s, step := run[j - 1], steps[j - 1];
      FrontStays(run, steps, maxSize, i, j - 1);
      assert Next(s, run[j], step);
      OnlyThese(s, run[j], step);
      if offer :| Queues(s, step, offer) {
        QueuedWhere(s, run[j], step, offer);
        NotFirst(s, step, offer);
      }
    }
  }

  /** The next pop takes what was pushed to the front. */
  lemma PushFrontIsNext<T>(run: seq<State<T>>, steps: seq<Step<T>>, maxSize: nat, i: nat, j: nat, offer: Offer<T>)
    requires IsRun(run, steps, maxSize) && i < j < |steps|
    requires Queues(run[i], steps[i], offer) && offer.front && Pops(run[j], steps[j])
    requires forall m :: i < m < j ==> !QueuesFirst(run[m], steps[m]) && !Pops(run[m], steps[m])
    ensures run[j + 1].taken == run[j].taken + [offer.x]
  {
    hide Next, Queues, Pops;
    assert Next(run[i], run[i + 1], steps[i]) && Next(run[j], run[j + 1], steps[j]);
    QueuedWhere(run[i], run[i + 1], steps[i], offer);
    FrontStays(run, steps, maxSize, i + 1, j);
    PoppedWhich(run[j], run[j + 1], steps[j]);
  }
}
