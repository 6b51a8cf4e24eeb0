/** lkfree.h: a free list kept by compare-and-swap, as interleaved steps of any number of
    threads that allocate and free.  Entries are arena indices.  The list is right when one
    thread allocates or the arena has one entry, and can be broken otherwise. */
module LockFreeList {
  import opened SList

  type Tid = int

  /** Where a thread is in a round of `alloc`, once it has loaded a head that is not null. */
  datatype Alloc = Loaded(t: int) | HasNext(t: int, n: int)

  /** Where a freeing thread is in `free(e)`. */
  datatype Free = Entered(e: int) | Read(e: int, t: int) | Linked(e: int, t: int)

  datatype State = State(
    number: nat,
    head: int,
    next: map<int, int>,        // the next field of every entry
    allocs: map<Tid, Alloc>,    // the threads in a round of alloc
    frees: map<Tid, Free>,      // the threads inside free
    inUse: set<int>)            // entries handed out and not yet passed to free

  datatype Step =
    | AllocLoad(th: Tid)
    | AllocNext(th: Tid)
    | AllocCas(th: Tid)
    | FreeCall(th: Tid, e: int)
    | FreeLoad(th: Tid)
    | FreeLink(th: Tid)
    | FreeCas(th: Tid)

  /** The constructor's arena: every entry links to the one after it. */
  ghost predicate Init(s: State, number: nat) {
    && number >= 1 && s.number == number && s.head == 0
    && s.allocs == map[] && s.frees == map[] && s.inUse == {}
    && (forall e :: e in s.next <==> 0 <= e < number)
    && (forall e :: 0 <= e < number ==> s.next[e] == if e == number - 1 then NIL else e + 1)
  }

  ghost predicate Next(s: State, s': State, step: Step) {
    match step
    case AllocLoad(th) =>
      th !in s.allocs && s' == (if s.head == NIL then s else s.(allocs := s.allocs[th := Loaded(s.head)]))
    case AllocNext(th) =>
      th in s.allocs && s.allocs[th].Loaded? && s.allocs[th].t in s.next &&
      s' == s.(allocs := s.allocs[th := HasNext(s.allocs[th].t, s.next[s.allocs[th].t])])
    case AllocCas(th) =>
      th in s.allocs && s.allocs[th].HasNext? &&
      s' == (if s.head == s.allocs[th].t
             then s.(head := s.allocs[th].n, allocs := s.allocs - {th}, inUse := s.inUse + {s.allocs[th].t})
             else s.(allocs := s.allocs - {th}))
    case FreeCall(th, e) =>
      e in s.inUse && th !in s.frees &&
      s' == s.(inUse := s.inUse - {e}, frees := s.frees[th := Entered(e)])
    case FreeLoad(th) =>
      th in s.frees && s.frees[th].Entered? && s' == s.(frees := s.frees[th := Read(s.frees[th].e, s.head)])
    case FreeLink(th) =>
      th in s.frees && s.frees[th].Read? &&
      s' == s.(next := s.next[s.frees[th].e := s.frees[th].t],
               frees := s.frees[th := Linked(s.frees[th].e, s.frees[th].t)])
    case FreeCas(th) =>
      th in s.frees && s.frees[th].Linked? &&
      s' == (if s.head == s.frees[th].t then s.(head := s.frees[th].e, frees := s.frees - {th})
             else s.(frees := s.frees[th := Entered(s.frees[th].e)]))
  }

  ghost predicate IsRun(run: seq<State>, steps: seq<Step>, number: nat) {
    && |run| == |steps| + 1
    && Init(run[0], number)
    && forall i :: 0 <= i < |steps| ==> Next(run[i], run[i + 1], steps[i])
  }

  ghost predicate BeingFreed(s: State, e: int) { exists th :: th in s.frees && s.frees[th].e == e }

  ghost predicate Covers(s: State, free: seq<int>) {
    && (forall e :: e in s.next <==> 0 <= e < s.number)
    && (forall e :: 0 <= e < s.number ==> e in free || e in s.inUse || BeingFreed(s, e))
  }

  ghost predicate Apart(s: State, free: seq<int>) {
    && (forall e :: e in free ==> 0 <= e < s.number)
    && (forall e :: e in s.inUse ==> 0 <= e < s.number && e !in free)
    && (forall th :: th in s.frees ==>
          0 <= s.frees[th].e < s.number && s.frees[th].e !in free && s.frees[th].e !in s.inUse)
    && (forall th, other :: th in s.frees && other in s.frees && th != other ==> s.frees[th].e != s.frees[other].e)
  }

  /** Every entry is free, allocated or being freed by one thread, and only one of these. */
  ghost predicate Partition(s: State, free: seq<int>) { Covers(s, free) && Apart(s, free) }

  predicate Allocates(step: Step) { step.AllocLoad? || step.AllocNext? || step.AllocCas? }

  /** Only the thread a allocates. */
  ghost predicate OneAllocator(steps: seq<Step>, a: Tid) {
    forall i :: 0 <= i < |steps| && Allocates(steps[i]) ==> steps[i].th == a
  }

  ghost predicate FreesRemember(s: State) {
    forall th :: th in s.frees && s.frees[th].Linked? ==>
      s.frees[th].e in s.next && s.next[s.frees[th].e] == s.frees[th].t
  }

  /** What the one allocating thread a remembers is still true. */
  ghost predicate AllocRemembers(s: State, free: seq<int>, a: Tid) {
    && s.allocs.Keys <= {a}
    && (forall th :: th in s.allocs ==> s.allocs[th].t in free)
    && (forall th :: th in s.allocs && s.allocs[th].HasNext? ==>
          s.allocs[th].t in s.next && s.next[s.allocs[th].t] == s.allocs[th].n)
  }

  /** With one entry there is one thing to remember: null comes after it. */
  ghost predicate OnlyNull(s: State) {
    && 0 in s.next && s.next[0] == NIL
    && (forall th :: th in s.allocs ==> s.allocs[th].t == 0)
    && (forall th :: th in s.allocs && s.allocs[th].HasNext? ==> s.allocs[th].n == NIL)
    && (forall th :: th in s.frees && !s.frees[th].Entered? ==> s.frees[th].t == NIL)
  }

  ghost predicate Remembered(s: State, free: seq<int>, a: Tid) {
    FreesRemember(s) && if s.number == 1 then OnlyNull(s) else AllocRemembers(s, free, a)
  }

  ghost predicate Inv(s: State, free: seq<int>, a: Tid) {
    Chain(s.next, s.head, free) && Partition(s, free) && Remembered(s, free, a)
  }

  ghost predicate Takes(s: State, step: Step) {
    step.AllocCas? && step.th in s.allocs && s.allocs[step.th].HasNext? && s.head == s.allocs[step.th].t
  }

  /** The free list after a step. */
  ghost function FreeAfter(s: State, step: Step, free: seq<int>): seq<int> {
    if Takes(s, step) && free != [] then free[1..]
    else if step.FreeCas? && step.th in s.frees && s.frees[step.th].Linked? && s.head == s.frees[step.th].t
    then [s.frees[step.th].e] + free
    else free
  }

  /** A CAS that succeeds in alloc finds the head it has read, and the next it has read. */
  lemma TakesHead(s: State, step: Step, free: seq<int>, a: Tid)
    requires Inv(s, free, a) && Takes(s, step)
    ensures free != [] && s.head == free[0] && s.head in s.next && s.allocs[step.th].n == s.next[s.head]
  {
    hide Covers, Apart;
  }

  lemma ChainPush(head: int, next: map<int, int>, free: seq<int>, e: int)
    requires Chain(next, head, free) && e !in free && e != NIL && e in next && next[e] == head
    ensures Chain(next, e, [e] + free)
  {
    var free' := [e] + free;
    assert forall i :: 1 <= i < |free'| ==> free'[i] == free[i - 1];
  }

  lemma StepKeepsChain(s: State, s': State, step: Step, free: seq<int>, a: Tid)
    requires Inv(s, free, a) && Next(s, s', step)
    ensures Chain(s'.next, s'.head, FreeAfter(s, step, free))
  {
    if Takes(s, step) {
      TakesHead(s, step, free, a);
      ChainTail(s.next, s.head, free);
    } else if step.FreeCas? && s.head == s.frees[step.th].t {
      ChainPush(s.head, s.next, free, s.frees[step.th].e);
    }
  }

  lemma StepKeepsCover(s: State, s': State, step: Step, free: seq<int>, a: Tid)
    requires Inv(s, free, a) && Next(s, s', step)
    ensures Covers(s', FreeAfter(s, step, free))
  {
    var free' := FreeAfter(s, step, free);
    if Takes(s, step) {
      TakesHead(s, step, free, a);
      assert free == [s.head] + free';
    }
    forall e | 0 <= e < s.number ensures e in free' || e in s'.inUse || BeingFreed(s', e) {
      if BeingFreed(s, e) {
        var th :| th in s.frees && s.frees[th].e == e;
        if th in s'.frees { assert s'.frees[th].e == e; }
      } else if step.FreeCall? && e == step.e {
        assert s'.frees[step.th].e == e;
      }
    }
  }

  lemma StepKeepsApart(s: State, s': State, step: Step, free: seq<int>, a: Tid)
    requires Inv(s, free, a) && Next(s, s', step)
    ensures Apart(s', FreeAfter(s, step, free))
  {
    hide Covers;
    if Takes(s, step) {
      TakesHead(s, step, free, a);
      HeadOnce(s, free);
    }
  }

  lemma HeadOnce(s: State, free: seq<int>)
    requires Chain(s.next, s.head, free) && free != []
    ensures s.head !in free[1..] && s.head in free && forall e :: e in free[1..] ==> e in free
  {
    forall i | 0 <= i < |free[1..]| ensures free[1..][i] != s.head { assert free[1..][i] == free[i + 1]; }
  }

  lemma StepKeepsMemory(s: State, s': State, step: Step, free: seq<int>, a: Tid)
    requires Inv(s, free, a) && Next(s, s', step) && (s.number != 1 && Allocates(step) ==> step.th == a)
    ensures Remembered(s', FreeAfter(s, step, free), a)
  {
    hide Covers;
    if s.number == 1 { OneEntryMemory(s, s', step, free, a); } else { OneThreadMemory(s, s', step, free, a); }
  }

  lemma OneThreadMemory(s: State, s': State, step: Step, free: seq<int>, a: Tid)
    requires Inv(s, free, a) && Next(s, s', step) && s.number != 1 && (Allocates(step) ==> step.th == a)
    ensures FreesRemember(s') && AllocRemembers(s', FreeAfter(s, step, free), a)
  {
    hide Covers;
  }

  lemma OneEntryMemory(s: State, s': State, step: Step, free: seq<int>, a: Tid)
    requires Inv(s, free, a) && Next(s, s', step) && s.number == 1
    ensures FreesRemember(s') && OnlyNull(s')
  {
    hide Covers;
    if free != [] { assert free[0] in free; }
  }

  lemma InitHolds(s: State, number: nat, a: Tid) returns (free: seq<int>)
    requires Init(s, number)
    ensures Inv(s, free, a)
  {
    hide Chain;
    free := seq(number, i => i);
    InitChain(s, number, free);
    forall e | 0 <= e < number ensures e in free { assert free[e] == e; }
  }

  lemma InitChain(s: State, number: nat, free: seq<int>)
    requires Init(s, number) && |free| == number && forall i :: 0 <= i < number ==> free[i] == i
    ensures Chain(s.next, s.head, free)
  {
  }

  lemma {:induction false} RunKeepsInv(run: seq<State>, steps: seq<Step>, number: nat, i: nat, a: Tid)
    returns (free: seq<int>)
    requires IsRun(run, steps, number) && i < |run| && (number == 1 || OneAllocator(steps, a))
    ensures Inv(run[i], free, a) && run[i].number == number
  {
    if i == 0 {
      free := InitHolds(run[0], number, a);
    } else {
      var before := RunKeepsInv(run, steps, number, i - 1, a);
      var s, s', step := run[i - 1], run[i], steps[i - 1];
      free := FreeAfter(s, step, before);
      StepKeepsChain(s, s', step, before, a);
      StepKeepsCover(s, s', step, before, a);
      StepKeepsApart(s, s', step, before, a);
      StepKeepsMemory(s, s', step, before, a);
    }
  }

  /** The list from head_ is finite, acyclic and free of duplicates, and free, allocated and
      being-freed entries partition the arena. */
  ghost predicate ListIsRight(s: State) {
    exists free :: Chain(s.next, s.head, free) && Partition(s, free)
  }

  /** In every interleaving with one allocating thread, or over an arena of one entry. */
  lemma EveryRun(run: seq<State>, steps: seq<Step>, number: nat, i: nat, a: Tid)
    requires IsRun(run, steps, number) && i < |run| && (number == 1 || OneAllocator(steps, a))
    ensures ListIsRight(run[i])
  {
    var free := RunKeepsInv(run, steps, number, i, a);
  }

  /** A successful `alloc` never hands out an entry that is still allocated or being freed. */
  lemma AllocIsFresh(run: seq<State>, steps: seq<Step>, number: nat, i: nat, a: Tid)
    requires IsRun(run, steps, number) && i < |steps| && (number == 1 || OneAllocator(steps, a))
    requires Takes(run[i], steps[i])
    ensures run[i].head !in run[i].inUse && !BeingFreed(run[i], run[i].head)
    ensures run[i + 1].inUse == run[i].inUse + {run[i].head}
  {
    var free := RunKeepsInv(run, steps, number, i, a);
    assert Next(run[i], run[i + 1], steps[i]);
    TakesHead(run[i], steps[i], free, a);
    assert run[i].head in free;
  }

  /** Neither handed out nor on its way back. */
  ghost predicate IsFree(s: State, e: int) { 0 <= e < s.number && e !in s.inUse && !BeingFreed(s, e) }

  lemma HeadIsFree(s: State, free: seq<int>, a: Tid)
    requires Inv(s, free, a)
    ensures s.head != NIL ==> IsFree(s, s.head)
    ensures s.head == NIL ==> forall e :: !IsFree(s, e)
  {
    if s.head != NIL { assert s.head in free; }
  }

  /** A round of alloc comes back empty-handed exactly when no entry is free. */
  lemma EmptyHanded(run: seq<State>, steps: seq<Step>, number: nat, i: nat, a: Tid)
    requires IsRun(run, steps, number) && i < |steps| && (number == 1 || OneAllocator(steps, a))
    requires steps[i].AllocLoad?
    ensures steps[i].th !in run[i + 1].allocs <==> forall e :: !IsFree(run[i], e)
  {
    hide Inv, IsFree;
    var free := RunKeepsInv(run, steps, number, i, a);
    assert Next(run[i], run[i + 1], steps[i]);
    HeadIsFree(run[i], free, a);
  }

  /** Left alone, a round of alloc hands out a free entry, if there is one. */
  lemma AllocCanFinish(run: seq<State>, steps: seq<Step>, number: nat, i: nat, a: Tid) returns (s1: State, s2: State, s3: State)
    requires IsRun(run, steps, number) && i < |run| && (number == 1 || OneAllocator(steps, a)) && a !in run[i].allocs
    requires exists e :: IsFree(run[i], e)
    ensures Next(run[i], s1, AllocLoad(a)) && Next(s1, s2, AllocNext(a)) && Next(s2, s3, AllocCas(a))
    ensures IsFree(run[i], run[i].head) && s3.inUse == run[i].inUse + {run[i].head} && s3.allocs == run[i].allocs
  {
    var s := run[i];
    var free := RunKeepsInv(run, steps, number, i, a);
    HeadIsFree(s, free, a);
    s1 := s.(allocs := s.allocs[a := Loaded(s.head)]);
    s2 := s.(allocs := s.allocs[a := HasNext(s.head, s.next[s.head])]);
    s3 := s.(head := s.next[s.head], inUse := s.inUse + {s.head});
    assert s.allocs[a := HasNext(s.head, s.next[s.head])] - {a} == s.allocs;
  }

  /** Left alone, a call of free puts its entry at the head. */
  lemma FreeCanFinish(run: seq<State>, steps: seq<Step>, number: nat, i: nat, a: Tid, th: Tid)
    returns (s1: State, s2: State, s3: State)
    requires IsRun(run, steps, number) && i < |run| && (number == 1 || OneAllocator(steps, a))
    requires th in run[i].frees && run[i].frees[th].Entered?
    ensures Next(run[i], s1, FreeLoad(th)) && Next(s1, s2, FreeLink(th)) && Next(s2, s3, FreeCas(th))
    ensures s3.head == run[i].frees[th].e && IsFree(s3, s3.head)
  {
    var s, e := run[i], run[i].frees[th].e;
    var free := RunKeepsInv(run, steps, number, i, a);
    s1 := s.(frees := s.frees[th := Read(e, s.head)]);
    s2 := s.(frees := s.frees[th := Linked(e, s.head)], next := s.next[e := s.head]);
    s3 := s2.(head := e, frees := s2.frees - {th});
  }

  // ------------------------------------------------------------ a second allocator

  /** Thread 1 reads the head 0 and its next 1 and sleeps; thread 0 allocates 0 and 1 and frees
      0 again; then the CAS of thread 1 succeeds. */
  const STALE: seq<Step> :=
    [AllocLoad(1), AllocNext(1), AllocLoad(0), AllocNext(0), AllocCas(0), AllocLoad(0), AllocNext(0), AllocCas(0),
     FreeCall(0, 0), FreeLoad(0), FreeLink(0), FreeCas(0), AllocCas(1)]

  ghost function StaleRun(s: State, n: int): seq<State> {
    var one := HasNext(0, 1);
    var s1 := s.(allocs := map[1 := Loaded(0)]);
    var s2 := s.(allocs := map[1 := one]);
    var s3 := s.(allocs := map[1 := one, 0 := Loaded(0)]);
    var s4 := s.(allocs := map[1 := one, 0 := one]);
    var s5 := s2.(head := 1, inUse := {0});
    var s6 := s5.(allocs := map[1 := one, 0 := Loaded(1)]);
    var s7 := s5.(allocs := map[1 := one, 0 := HasNext(1, n)]);
    var s8 := s2.(head := n, inUse := {0, 1});
    var s9 := s8.(inUse := {1}, frees := map[0 := Entered(0)]);
    var s10 := s9.(frees := map[0 := Read(0, n)]);
    var s11 := s10.(next := s.next[0 := n], frees := map[0 := Linked(0, n)]);
    var s12 := s11.(head := 0, frees := map[]);
    var s13 := s12.(head := 1, allocs := map[], inUse := {0, 1});
    [s, s1, s2, s3, s4, s5, s6, s7, s8, s9, s10, s11, s12, s13]
  }

  lemma StaleFirstHalf(s: State, number: nat)
    requires Init(s, number) && number >= 2
    ensures var run := StaleRun(s, s.next[1]); forall i :: 0 <= i < 6 ==> Next(run[i], run[i + 1], STALE[i])
  {
    var one := HasNext(0, 1);
    var run := StaleRun(s, s.next[1]);
    assert Next(run[4], run[5], AllocCas(0)) by { assert map[1 := one, 0 := one] - {0} == map[1 := one]; }
  }

  lemma StaleSecondHalf(s: State, number: nat)
    requires Init(s, number) && number >= 2
    ensures var run := StaleRun(s, s.next[1]); forall i :: 6 <= i < 13 ==> Next(run[i], run[i + 1], STALE[i])
  {
    var n, one := s.next[1], HasNext(0, 1);
    var run := StaleRun(s, n);
    assert Next(run[7], run[8], AllocCas(0)) by {
      assert {0} + {1} == {0, 1} && map[1 := one, 0 := HasNext(1, n)] - {0} == map[1 := one];
    }
    assert Next(run[8], run[9], FreeCall(0, 0)) by { assert {0, 1} - {0} == {1}; }
    assert Next(run[11], run[12], FreeCas(0)) by { assert map[0 := Linked(0, n)] - {0} == map[]; }
    assert Next(run[12], run[13], AllocCas(1)) by { assert map[1 := one] - {1} == map[] && {1} + {0} == {0, 1}; }
  }

  lemma StaleIsRun(s: State, number: nat)
    requires Init(s, number) && number >= 2
    ensures IsRun(StaleRun(s, s.next[1]), STALE, number)
  {
    hide Next;
    StaleFirstHalf(s, number);
    StaleSecondHalf(s, number);
  }

  /** With two entries or more, two threads in alloc can break the list: an entry in use becomes
      its head. */
  lemma SecondAllocatorBreaks(s: State, number: nat)
    requires Init(s, number) && number >= 2
    ensures exists run: seq<State>, steps: seq<Step> ::
      IsRun(run, steps, number) && run[0] == s && run[|steps|].head in run[|steps|].inUse && !ListIsRight(run[|steps|])
  {
    hide Covers;
    var run := StaleRun(s, s.next[1]);
    StaleIsRun(s, number);
    var last := run[|STALE|];
    forall free ensures !(Chain(last.next, 1, free) && Partition(last, free)) {
      if Chain(last.next, 1, free) { assert 1 in free; }
    }
    assert IsRun(run, STALE, number);
  }
}
