/** `FutexCondition`: a counting semaphore made of a fetch-and-add counter and
    FUTEX_WAIT / FUTEX_WAKE, as interleaved steps of any number of threads.

    Covered: `wait(-1)` and `notify()`.  FUTEX_WAIT returns 0 only because of a
    FUTEX_WAKE; a signal makes it return EINTR and the call is repeated. */
module FutexCondition {
  import opened SetFacts

  type Tid = int

  /** A thread in none of the three sets is outside `wait` and `notify`. */
  datatype State = State(
    counter: int,              // counter_
    aboutToSleep: set<Tid>,    // in wait: counter taken, FUTEX_WAIT not yet entered
    asleep: set<Tid>,          // in wait: inside FUTEX_WAIT
    waking: set<Tid>,          // in notify: counter raised from below zero, FUTEX_WAKE loop
    notifies: nat,             // notify calls that have raised the counter
    granted: nat)              // wait calls that have returned true
  {
    ghost predicate Outside(t: Tid) { t !in aboutToSleep && t !in asleep && t !in waking }

    ghost function Blocked(): nat { |aboutToSleep| + |asleep| }
  }

  datatype Step =
    | WaitCall(t: Tid)
    | FutexWait(t: Tid)
    | Interrupted(t: Tid)
    | NotifyCall(t: Tid)
    | FutexWake(t: Tid, woken: Tid)
    | FutexWakeNobody(t: Tid)

  ghost predicate Init(s: State, resource: int) {
    s == State(resource, {}, {}, {}, 0, 0)
  }

  ghost predicate Next(s: State, s': State, step: Step) {
    match step
    case WaitCall(t) =>
      s.Outside(t) &&
      if s.counter >= 1 then s' == s.(counter := s.counter - 1, granted := s.granted + 1)
      else s' == s.(counter := s.counter - 1, aboutToSleep := s.aboutToSleep + {t})
    case FutexWait(t) =>
      t in s.aboutToSleep && s' == s.(aboutToSleep := s.aboutToSleep - {t}, asleep := s.asleep + {t})
    case Interrupted(t) =>
      t in s.asleep && s' == s.(asleep := s.asleep - {t}, aboutToSleep := s.aboutToSleep + {t})
    case NotifyCall(t) =>
      s.Outside(t) &&
      if s.counter >= 0 then s' == s.(counter := s.counter + 1, notifies := s.notifies + 1)
      else s' == s.(counter := s.counter + 1, notifies := s.notifies + 1, waking := s.waking + {t})
    case FutexWake(t, woken) =>
      t in s.waking && woken in s.asleep &&
      s' == s.(waking := s.waking - {t}, asleep := s.asleep - {woken}, granted := s.granted + 1)
    case FutexWakeNobody(t) =>
      t in s.waking && s.asleep == {} && s' == s
  }

  ghost predicate IsRun(run: seq<State>, steps: seq<Step>, resource: int) {
    && |run| == |steps| + 1
    && Init(run[0], resource)
    && forall i :: 0 <= i < |steps| ==> Next(run[i], run[i + 1], steps[i])
  }

  function Max(x: int, y: int): int { if x >= y then x else y }

  ghost predicate Apart(s: State) {
    s.aboutToSleep !! s.asleep && s.aboutToSleep !! s.waking && s.asleep !! s.waking
  }

  /** The balance every step keeps: sleepers not yet promised a wake-up are
      exactly the debt of the counter, and every unit is accounted for. */
  ghost predicate Inv(s: State, resource: int) {
    && Apart(s)
    && s.Blocked() - |s.waking| == Max(0, -s.counter)
    && s.granted + Max(s.counter, 0) + |s.waking| == resource + s.notifies
  }

  lemma WaitKeepsInv(s: State, s': State, t: Tid, resource: nat)
    requires Inv(s, resource) && Next(s, s', WaitCall(t))
    ensures Inv(s', resource)
  {
    if s.counter < 1 { assert |s.aboutToSleep + {t}| == |s.aboutToSleep| + 1; }
  }

  lemma SleepKeepsInv(s: State, s': State, t: Tid, resource: nat)
    requires Inv(s, resource) && (Next(s, s', FutexWait(t)) || Next(s, s', Interrupted(t)))
    ensures Inv(s', resource)
  {
    assert s'.Blocked() == s.Blocked();
  }

  lemma NotifyKeepsInv(s: State, s': State, t: Tid, resource: nat)
    requires Inv(s, resource) && Next(s, s', NotifyCall(t))
    ensures Inv(s', resource)
  {
    if s.counter < 0 { assert |s.waking + {t}| == |s.waking| + 1; }
  }

  lemma WakeKeepsInv(s: State, s': State, t: Tid, woken: Tid, resource: nat)
    requires Inv(s, resource) && Next(s, s', FutexWake(t, woken))
    ensures Inv(s', resource)
  {
    assert |s.waking - {t}| == |s.waking| - 1 && |s.asleep - {woken}| == |s.asleep| - 1;
  }

  lemma StepKeepsInv(s: State, s': State, step: Step, resource: nat)
    requires Inv(s, resource) && Next(s, s', step)
    ensures Inv(s', resource)
  {
    hide Inv;
    match step
    case WaitCall(t) => WaitKeepsInv(s, s', t, resource);
    case FutexWait(t) => SleepKeepsInv(s, s', t, resource);
    case Interrupted(t) => SleepKeepsInv(s, s', t, resource);
    case NotifyCall(t) => NotifyKeepsInv(s, s', t, resource);
    case FutexWake(t, woken) => WakeKeepsInv(s, s', t, woken, resource);
    case FutexWakeNobody(t) =>
  }

  lemma {:induction false} RunKeepsInv(run: seq<State>, steps: seq<Step>, resource: nat, i: nat)
    requires IsRun(run, steps, resource) && i < |run|
    ensures Inv(run[i], resource)
  {
    if i > 0 {
      RunKeepsInv(run, steps, resource, i - 1);
      StepKeepsInv(run[i - 1], run[i], steps[i - 1], resource);
    }
  }

  /** No wake-up is lost: notifiers in the retry loop never outnumber the threads
      asleep or about to sleep; with no notifier pending, exactly as many threads
      are blocked as the counter is below zero; and waits never succeed more
      often than the initial resource and the notifies allow. */
  lemma NoLostWakeup(run: seq<State>, steps: seq<Step>, resource: nat, i: nat)
    requires IsRun(run, steps, resource) && i < |run|
    ensures |run[i].waking| <= run[i].Blocked()
    ensures run[i].waking == {} ==> run[i].Blocked() == Max(0, -run[i].counter)
    ensures run[i].granted <= resource + run[i].notifies
    ensures run[i].waking == {} && run[i].counter >= 0 ==> run[i].Blocked() == 0
  {
    RunKeepsInv(run, steps, resource, i);
  }

  /** A notifier in the retry loop can always get out: some blocked thread can be
      woken, at most one FUTEX_WAIT from now. */
  lemma NotifierCanFinish(run: seq<State>, steps: seq<Step>, resource: nat, i: nat, t: Tid)
    returns (u: Tid, mid: State, end: State)
    requires IsRun(run, steps, resource) && i < |run| && t in run[i].waking
    ensures mid == run[i] || Next(run[i], mid, FutexWait(u))
    ensures Next(mid, end, FutexWake(t, u))
    ensures t !in end.waking && end.granted == run[i].granted + 1
  {
    var s := run[i];
    RunKeepsInv(run, steps, resource, i);
    assert |s.waking| > 0;
    if |s.asleep| > 0 {
      u := Pick(s.asleep);
      mid := s;
    } else {
      u := Pick(s.aboutToSleep);
      mid := s.(aboutToSleep := s.aboutToSleep - {u}, asleep := s.asleep + {u});
    }
    end := mid.(waking := mid.waking - {t}, asleep := mid.asleep - {u}, granted := mid.granted + 1);
  }

  /** The constructor's argument must not be negative: started below zero, the
      first notify enters its retry loop with nobody there to wake. */
  lemma NegativeResourceFails(resource: int)
    requires resource < 0
    ensures exists run: seq<State>, steps: seq<Step> ::
      IsRun(run, steps, resource) && |run| == 2 && |run[1].waking| > run[1].Blocked()
  {
    var first := State(resource, {}, {}, {}, 0, 0);
    var second := State(resource + 1, {}, {}, {0}, 1, 0);
    var run, steps := [first, second], [NotifyCall(0)];
    assert first.waking + {0} == {0};
    assert IsRun(run, steps, resource) && |run[1].waking| > run[1].Blocked();
  }
}
