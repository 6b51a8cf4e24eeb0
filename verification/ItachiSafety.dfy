/** What holds in every run of itachi: reference counts and live pointers. */
module ItachiSafety {
  import opened SList
  import opened Itachi
  import opened ItachiRun

  ghost function Emptiness(w: Wires): View
    requires Wired(w)
  {
    View(map p | p in QueueLines(w) + BatchLines(w) :: [], map[])
  }

  ghost function QueueLines(w: Wires): (ps: set<Line>)
    requires Wired(w)
    ensures forall p :: p in ps <==> IsQueue(w, p)
  {
    w.lists.Keys
  }

  ghost function BatchLines(w: Wires): (ps: set<Line>)
    requires Wired(w)
    ensures forall p :: p in ps <==> IsBatch(w, p)
  {
    (set i | i in w.cpu :: CpuBatch(i)) + (set j | j in w.poll :: PollBatch(j))
  }

  lemma InitLinks(s: State)
    requires Init(s)
    ensures Core(s.wires, Emptiness(s.wires))
  {
    var w, v := s.wires, Emptiness(s.wires);
    forall p | IsQueue(w, p) || IsBatch(w, p) ensures Spelled(w, v, p) { assert v.lines[p] == []; }
    forall c, x ensures Sits(w, v, c, x) <==> c in v.at && v.at[c] == x {}
  }

  lemma InitHasInv(s: State)
    requires Init(s)
    ensures Inv(s, Emptiness(s.wires))
  {
    hide Linked, Placed;
    InitLinks(s);
    var v := Emptiness(s.wires);
    forall i | i in s.wires.cpu ensures InOrder(s.log, v, i) {
      assert IsQueue(s.wires, CpuQueue(i)) && IsBatch(s.wires, CpuBatch(i));
      assert v.lines[CpuQueue(i)] == [] && v.lines[CpuBatch(i)] == [];
    }
  }

  /** The invariant holds in every state of every run. */
  lemma {:induction false} RunKeepsInv(run: seq<State>, es: seq<Step>, k: nat) returns (v: View)
    requires IsRun(run, es) && k < |run|
    ensures Inv(run[k], v)
  {
    hide Inv, Init, Shaped, Enabled, Apply;
    if k == 0 {
      v := Emptiness(run[0].wires) by { assert Init(run[0]); InitIsWired(run[0]); }
      InitHasInv(run[0]);
    } else {
      var u := RunKeepsInv(run, es, k - 1);
      StepKeepsInv(run[k - 1], u, es[k - 1]);
      v := ViewAfter(run[k - 1], u, es[k - 1]) by { InvParts(run[k - 1], u); }
    }
  }

  lemma InitIsWired(s: State)
    requires Init(s)
    ensures Wired(s.wires)
  {
  }

  lemma InvParts(s: State, v: View)
    requires Inv(s, v)
    ensures Shaped(s) && Wired(s.wires) && Core(s.wires, v) && Counted(s.wires, s.ctxs)
  {
  }

  // ------------------------------------------------------------ reference counts

  /** The places where c is found: on chains of pointers, in registrations, in launch. */
  ghost function Places(w: Wires, v: View, c: Ctx): set<Where> {
    (set p | p in v.lines && Sits(w, v, c, OnLine(p)) :: OnLine(p))
    + (set j | j in w.watched && Sits(w, v, c, Watched(j)) :: Watched(j))
    + (if Sits(w, v, c, Launching) then {Launching} else {})
    + if c in w.aimed && Sits(w, v, c, Aimed(w.aimed[c])) then {Aimed(w.aimed[c])} else {}
  }

  /** Every reference is a client's, a place's or a running onComplete's; the object is
      deleted, once, exactly when none is left. */
  ghost predicate Accounted(s: State, v: View, c: Ctx) {
    && c in s.ctxs.refs && c in s.ctxs.external
    && s.ctxs.refs[c] == s.ctxs.external[c] + |Places(s.wires, v, c)| + |Runners(s.wires.cpu, c)|
    && |Places(s.wires, v, c)| <= 1
    && s.ctxs.deleted[c] == if s.ctxs.refs[c] == 0 then 1 else 0
  }

  lemma OnePlace(w: Wires, v: View, c: Ctx)
    requires Placed(w, v)
    ensures |Places(w, v, c)| == if c in w.flying then 1 else 0
  {
    hide Sits;
    assert Places(w, v, c) == if c in v.at then {v.at[c]} else {} by {
      forall x ensures x in Places(w, v, c) <==> c in v.at && v.at[c] == x { InPlaces(w, v, c, x); }
    }
  }

  lemma InPlaces(w: Wires, v: View, c: Ctx, x: Where)
    ensures x in Places(w, v, c) <==> Sits(w, v, c, x)
  {
  }

  lemma RefsAreAccounted(run: seq<State>, es: seq<Step>, k: nat)
    requires IsRun(run, es) && k < |run|
    ensures exists v :: Wired(run[k].wires) && Linked(run[k].wires, v)
                        && forall c :: c in run[k].wires.next ==> Accounted(run[k], v, c)
  {
    hide Linked, Places, Wired, IsRun, Runners;
    var v := RunKeepsInv(run, es, k);
    var s := run[k];
    forall c | c in s.wires.next ensures Accounted(s, v, c) { OnePlace(s.wires, v, c); }
  }

  /** c is a pointer some thread, libev or launch still holds. */
  ghost predicate Held(w: Wires, c: Ctx) {
    && c != NIL
    && (|| (exists p :: p in w.lists && (w.lists[p].head == c || w.lists[p].tail == c))
        || (Wired(w) && exists p :: IsBatch(w, p) && BatchPtr(w, p) == c)
        || (exists i :: i in w.cpu && w.cpu[i].Completing? && w.cpu[i].ctx == c)
        || (exists j :: j in w.watched && c in w.watched[j])
        || (exists j :: j in w.poll && w.poll[j] == Calling(c))
        || c in w.launching || c in w.aimed)
  }

  lemma HeldIsReferenced(w: Wires, v: View, x: Contexts, c: Ctx)
    requires Core(w, v) && Counted(w, x) && Calls(w, x) && Held(w, c)
    ensures c in w.next && (c in w.flying || Runners(w.cpu, c) != {})
  {
    hide Placed, Linked, Sits, Chain, Holds, BatchPtr, Counted, Runners;
    if p :| p in w.lists && (w.lists[p].head == c || w.lists[p].tail == c) {
      LinkedAt(w, v, p);
      QueueMember(w, v, p, c);
    } else if p :| IsBatch(w, p) && BatchPtr(w, p) == c {
      BatchHead(w, v, p);
      LineMembers(w, v, p);
    } else if i :| i in w.cpu && w.cpu[i].Completing? && w.cpu[i].ctx == c {
      RunnerMade(w, x, i);
    } else if j :| j in w.watched && c in w.watched[j] {
      WatchedSits(w, v, j, c);
      SitsFlies(w, v, c, Watched(j));
    } else {
      CalledFlies(w, v, c);
    }
  }

  lemma QueueMember(w: Wires, v: View, p: Line, c: Ctx)
    requires Core(w, v) && IsQueue(w, p) && c != NIL && (w.lists[p].head == c || w.lists[p].tail == c)
    ensures c in w.next && c in w.flying
  {
    hide Placed;
    LinkedAt(w, v, p);
    LineMembers(w, v, p);
  }

  lemma RunnerMade(w: Wires, x: Contexts, i: int)
    requires Counted(w, x) && i in w.cpu && w.cpu[i].Completing?
    ensures w.cpu[i].ctx in w.next && i in Runners(w.cpu, w.cpu[i].ctx)
  {
  }

  lemma SitsFlies(w: Wires, v: View, c: Ctx, x: Where)
    requires Placed(w, v) && Sits(w, v, c, x)
    ensures c in w.flying && c in w.next
  {
  }

  /** No thread, no registration and no queue ever holds a deleted context. */
  lemma HeldIsLive(run: seq<State>, es: seq<Step>, k: nat, c: Ctx)
    requires IsRun(run, es) && k < |run| && Held(run[k].wires, c)
    ensures c in run[k].wires.next && c in run[k].ctxs.refs && run[k].ctxs.refs[c] >= 1 && c !in run[k].ctxs.deleted
  {
    hide Core, Wired, IsRun, Runners, Held;
    var v := RunKeepsInv(run, es, k);
    HeldIsReferenced(run[k].wires, v, run[k].ctxs, c);
  }

  /** What the poll loop hands to libev is a network event. */
  lemma RegistersNetEvents(run: seq<State>, es: seq<Step>, k: nat, j: int)
    requires IsRun(run, es) && k < |run| && j in run[k].wires.poll
    requires run[k].wires.poll[j].Registering? && run[k].wires.poll[j].ptr != NIL
    ensures var c := run[k].wires.poll[j].ptr; c in run[k].ctxs.kind && run[k].ctxs.kind[c] == NetEvent
  {
    hide Placed, Linked, IsRun, Counted, Ordered;
    var v := RunKeepsInv(run, es, k);
    BatchHead(run[k].wires, v, PollBatch(j));
    LineMembers(run[k].wires, v, PollBatch(j));
  }

  // ------------------------------------------------------------- giving it back

  /** A client can always give back a reference, and that deletes the context exactly when no
      other reference, place or callback is left. */
  lemma ReleaseDeletes(s: State, v: View, c: Ctx)
    requires Inv(s, v) && c in s.wires.next && s.ctxs.external[c] > 0
    ensures Enabled(s, Release(c))
    ensures c in Apply(s, Release(c)).ctxs.deleted <==>
            s.ctxs.external[c] == 1 && Places(s.wires, v, c) == {} && Runners(s.wires.cpu, c) == {}
  {
    hide Linked, Wired, Ordered, KindsFit, Calls, Places, Runners, Sits;
    OnePlace(s.wires, v, c);
  }

  /** A launch that fails leaves the counts as they were. */
  lemma LaunchRollsBack(s: State, v: View, c: Ctx)
    requires Inv(s, v) && ClientEnabled(s, LaunchBegin(c)) && (s.stop || s.ctxs.kind[c] == Nop)
    ensures Enabled(s, LaunchBegin(c)) && Shaped(Apply(s, LaunchBegin(c)))
    ensures var s1 := Apply(s, LaunchBegin(c));
            && Enabled(s1, LaunchFail(c)) && Apply(s1, LaunchFail(c)).ctxs == s.ctxs
            && Apply(s1, LaunchFail(c)).wires == s.wires
  {
    hide Core, Shaped, Counted, Ordered, KindsFit, Calls, ClientEnabled, Enabled, Apply;
    CoreParts(s.wires, v);
    BeginGives(s, c);
    NotYetCalled(s, v, c);
    UsableIsLive(s, c);
    StepKeepsInv(s, v, LaunchBegin(c));
    var s1 := Apply(s, LaunchBegin(c));
    FailGives(s1, c);
    assert s.wires.launching + {c} - {c} == s.wires.launching && s.wires.flying + {c} - {c} == s.wires.flying;
    assert s.ctxs.refs[c := s.ctxs.refs[c] + 1][c := s.ctxs.refs[c]] == s.ctxs.refs;
  }

  lemma BeginGives(s: State, c: Ctx)
    requires Shaped(s) && ClientEnabled(s, LaunchBegin(c))
    ensures Enabled(s, LaunchBegin(c)) && c in s.wires.next && CanUse(s, c) && c !in s.wires.flying
    ensures c in s.ctxs.refs && c in s.ctxs.kind
    ensures var s', w := Apply(s, LaunchBegin(c)), s.wires;
            && s'.stop == s.stop && s'.ctxs == Taken(s.ctxs, c)
            && s'.wires == w.(launching := w.launching + {c}, flying := w.flying + {c})
  {
    hide Wired, CanUse;
  }

  lemma FailGives(s: State, c: Ctx)
    requires Shaped(s) && c in s.wires.next && c in s.wires.launching && !BeingCalled(s.wires, c)
    requires c in s.ctxs.kind && (s.stop || s.ctxs.kind[c] == Nop)
    ensures Enabled(s, LaunchFail(c)) && c in s.ctxs.refs
    ensures var s', w := Apply(s, LaunchFail(c)), s.wires;
            && s'.ctxs == Dropped(s.ctxs, c)
            && s'.wires == w.(launching := w.launching - {c}, flying := w.flying - {c})
  {
    hide Wired, BeingCalled;
  }

  lemma NotYetCalled(s: State, v: View, c: Ctx)
    requires Placed(s.wires, v) && Calls(s.wires, s.ctxs) && c !in s.wires.flying
    ensures c !in s.wires.launching && !BeingCalled(s.wires, c)
  {
    hide Placed;
    if c in s.wires.launching || c in s.wires.aimed { CalledFlies(s.wires, v, c); }
  }
}
