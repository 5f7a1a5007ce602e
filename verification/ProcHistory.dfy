/** The process table (kernel/proc.c) against the calls of a run: who forked whom, who was killed, who sleeps and what
    wait() returns, told from the steps. */
module ProcHistory {
  import opened Options
  import opened Proc

  // ---- One step, one process ----

  // Steps of the loops of exit().
  predicate ExitLoop(l: Label) {
    l.ExitChild? || l.ExitWake? || l.ExitNotify?
  }

  // What a step may do to process q's parent, and which steps.
  ghost predicate ParentStep(s: State, l: Label, t: State, q: nat)
    requires Well(s) && Well(t) && q < |s.procs| == |t.procs|
  {
    var a, b := s.procs[q].parent, t.procs[q].parent;
    || (a == b && !(l.ForkAdopt? && l.p < |s.procs| && s.procs[l.p].pc == ForkParent(q)))
    || (l.ForkAdopt? && l.p < |s.procs| && s.procs[l.p].pc == ForkParent(q) && b == Some(l.p))
    || (l.ExitChild? && a == Some(l.p) && b == Some(INIT))
    || (b.None? && t.procs[q].state.UNUSED?)
  }

  lemma {:induction false} CpuParent(s: State, l: Label, t: State, q: nat)
    requires Inv(s) && Enabled(s, l) && (CpuStep(l) || OwnStep(l)) && t == Next(s, l) && q < |s.procs|
    ensures Well(t) && |t.procs| == |s.procs| && ParentStep(s, l, t, q)
  {
    hide Placement, Forks, WaitLock, Family;
  }

  lemma {:induction false} ForkParents(s: State, l: Label, t: State, q: nat)
    requires Inv(s) && Enabled(s, l) && ForkStep(l) && t == NextFork(s, l) && q < |s.procs|
    ensures Well(t) && |t.procs| == |s.procs| && ParentStep(s, l, t, q)
  {
    hide Placement, WaitLock, Family;
    assert ForkOk(s, l.p);
  }

  lemma {:induction false} ExitParents(s: State, l: Label, t: State, q: nat)
    requires Inv(s) && Enabled(s, l) && ExitLoop(l) && t == NextOther(s, l) && q < |s.procs|
    ensures Well(t) && |t.procs| == |s.procs| && ParentStep(s, l, t, q)
  {
    hide Placement, Forks, WaitLock, Family;
  }

  lemma {:induction false} WakeParents(s: State, l: Label, t: State, q: nat)
    requires Inv(s) && Enabled(s, l) && OtherStep(l) && !ExitLoop(l) && t == NextOther(s, l) && q < |s.procs|
    ensures Well(t) && |t.procs| == |s.procs| && ParentStep(s, l, t, q)
  {
    hide Placement, Forks, WaitLock, Family;
  }

  lemma {:induction false} OtherParent(s: State, l: Label, t: State, q: nat)
    requires Inv(s) && Enabled(s, l) && OtherStep(l) && t == NextOther(s, l) && q < |s.procs|
    ensures Well(t) && |t.procs| == |s.procs| && ParentStep(s, l, t, q)
  {
    hide Inv, Enabled, NextOther;
    if ExitLoop(l) {
      ExitParents(s, l, t, q);
    } else {
      WakeParents(s, l, t, q);
    }
  }

  lemma {:induction false} StepParent(s: State, l: Label, t: State, q: nat)
    requires Inv(s) && Follows(s, l, t) && q < |s.procs|
    ensures Well(t) && |t.procs| == |s.procs| && ParentStep(s, l, t, q)
  {
    hide Inv, Enabled, NextCpu, NextOwn, NextFork, NextOther, ParentStep;
    if CpuStep(l) || OwnStep(l) {
      CpuParent(s, l, t, q);
    } else if ForkStep(l) {
      ForkParents(s, l, t, q);
    } else {
      OtherParent(s, l, t, q);
    }
  }

  // The slot q that a forking process is filling, or has filled.
  ghost predicate Fills(s: State, f: nat, q: nat) {
    f < |s.procs| && Forking(Goal(s.procs[f].pc)) && Goal(s.procs[f].pc).np == q
  }

  predicate Exiting(pc: Pc) {
    pc.ExitReparent? || pc.ExitWakeInit? || pc.ExitWakeParent? || pc.ExitSched? || pc.Dead?
  }

  // What a step may do to where process f is in fork() and exit().
  ghost predicate PcStep(s: State, l: Label, t: State, f: nat)
    requires f < |s.procs| == |t.procs|
  {
    && (forall q: nat :: Fills(t, f, q) ==> Fills(s, f, q) || (l.ForkAlloc? && l.p == f && l.np == q))
    && (Exiting(t.procs[f].pc) ==> Exiting(s.procs[f].pc) || (l.ExitBegin? && l.p == f))
    && (l.ForkAlloc? && (l.p == f || l.np == f) ==> !Exiting(t.procs[f].pc))
  }

  lemma {:induction false} CpuPc(s: State, l: Label, t: State, f: nat)
    requires Inv(s) && Enabled(s, l) && CpuStep(l) && t == NextCpu(s, l) && f < |s.procs|
    ensures f < |t.procs| == |s.procs| && PcStep(s, l, t, f)
  {
    hide Forks, WaitLock, Family;
    if l.Swtch? {
      assert ProcOk(s, l.p) && CpuOk(s, l.c);
    }
  }

  lemma {:induction false} OwnPc(s: State, l: Label, t: State, f: nat)
    requires Inv(s) && Enabled(s, l) && OwnStep(l) && t == NextOwn(s, l) && f < |s.procs|
    ensures f < |t.procs| == |s.procs| && PcStep(s, l, t, f)
  {
    hide Placement, Forks, WaitLock, Family;
    YieldedFrom(s, l.p);
  }

  // A process preempted will go on where it may be preempted.
  lemma {:induction false} YieldedFrom(s: State, p: nat)
    requires Inv(s) && p < |s.procs|
    ensures s.procs[p].pc.YieldBack? ==> Preemptible(s.procs[p].pc.ret)
  {
    hide Forks, WaitLock, Family, Resting, Switched, Executing;
    assert ProcOk(s, p);
  }

  lemma {:induction false} ForkPc(s: State, l: Label, t: State, f: nat)
    requires Inv(s) && Enabled(s, l) && ForkStep(l) && t == NextFork(s, l) && f < |s.procs|
    ensures f < |t.procs| == |s.procs| && PcStep(s, l, t, f)
  {
    hide Placement, WaitLock, Family;
    assert ForkOk(s, l.p);
  }

  lemma {:induction false} ExitPcs(s: State, l: Label, t: State, f: nat)
    requires Inv(s) && Enabled(s, l) && ExitLoop(l) && t == NextOther(s, l) && f < |s.procs|
    ensures f < |t.procs| == |s.procs| && PcStep(s, l, t, f)
  {
    hide Placement, Forks, WaitLock, Family;
  }

  lemma {:induction false} WakePcs(s: State, l: Label, t: State, f: nat)
    requires Inv(s) && Enabled(s, l) && OtherStep(l) && !ExitLoop(l) && t == NextOther(s, l) && f < |s.procs|
    ensures f < |t.procs| == |s.procs| && PcStep(s, l, t, f)
  {
    hide Placement, Forks, WaitLock, Family;
  }

  lemma {:induction false} OtherPc(s: State, l: Label, t: State, f: nat)
    requires Inv(s) && Enabled(s, l) && OtherStep(l) && t == NextOther(s, l) && f < |s.procs|
    ensures f < |t.procs| == |s.procs| && PcStep(s, l, t, f)
  {
    hide Inv, Enabled, NextOther;
    if ExitLoop(l) {
      ExitPcs(s, l, t, f);
    } else {
      WakePcs(s, l, t, f);
    }
  }

  lemma {:induction false} StepPc(s: State, l: Label, t: State, f: nat)
    requires Inv(s) && Follows(s, l, t) && f < |s.procs|
    ensures f < |t.procs| == |s.procs| && PcStep(s, l, t, f)
  {
    hide Inv, Enabled, NextCpu, NextOwn, NextFork, NextOther, PcStep;
    if CpuStep(l) {
      CpuPc(s, l, t, f);
    } else if OwnStep(l) {
      OwnPc(s, l, t, f);
    } else if ForkStep(l) {
      ForkPc(s, l, t, f);
    } else {
      OtherPc(s, l, t, f);
    }
  }

  // ---- Parents ----

  // Who forked the process now in slot q, if anybody.
  ghost function Forker(ls: seq<Label>, q: nat, n: nat): (r: Option<nat>)
    requires n <= |ls|
  {
    if n == 0 then None
    else if ls[n - 1].ForkAlloc? && ls[n - 1].np == q then Some(ls[n - 1].p)
    else Forker(ls, q, n - 1)
  }

  // Its forker has called exit() since.
  ghost predicate Orphan(ls: seq<Label>, q: nat, n: nat)
    requires n <= |ls|
  {
    n > 0 && !(ls[n - 1].ForkAlloc? && ls[n - 1].np == q)
    && (Orphan(ls, q, n - 1) || (ls[n - 1].ExitBegin? && Forker(ls, q, n - 1) == Some(ls[n - 1].p)))
  }

  ghost predicate KnowsForker(s: State, ls: seq<Label>, q: nat, n: nat)
    requires n <= |ls| && q < |s.procs|
  {
    && (forall f: nat :: Fills(s, f, q) ==> Forker(ls, q, n) == Some(f))
    && (s.procs[q].parent.Some? ==>
          && Forker(ls, q, n).Some?
          && (s.procs[q].parent == Forker(ls, q, n) || (s.procs[q].parent == Some(INIT) && Orphan(ls, q, n))))
    && (Forker(ls, q, n).Some? && Forker(ls, q, n).value < |s.procs| && Exiting(s.procs[Forker(ls, q, n).value].pc) ==>
          Orphan(ls, q, n))
  }

  lemma {:induction false} StepForker(s: State, ls: seq<Label>, n: nat, t: State, q: nat)
    requires 0 < n <= |ls| && q < |s.procs| && KnowsForker(s, ls, q, n - 1) && Inv(s) && Follows(s, ls[n - 1], t)
    ensures q < |t.procs| == |s.procs| && KnowsForker(t, ls, q, n)
  {
    hide Follows, ParentStep, PcStep, Placement, WaitLock, Family, Exiting;
    var l := ls[n - 1];
    StepParent(s, l, t, q);
    FillsStep(s, l, t, q);
    ParentCases(s, l, t, q);
    var f := Forker(ls, q, n);
    if f.Some? && f.value < |s.procs| {
      ExitStep(s, l, t, f.value);
    }
  }

  lemma {:induction false} FillsStep(s: State, l: Label, t: State, q: nat)
    requires Inv(s) && Follows(s, l, t) && q < |s.procs|
    ensures |t.procs| == |s.procs|
    ensures forall f: nat :: Fills(t, f, q) ==> Fills(s, f, q) || (l.ForkAlloc? && l.p == f && l.np == q)
    ensures l.ForkAlloc? && l.np == q ==> forall f: nat :: !Fills(s, f, q)
  {
    hide Inv, Follows, Fills;
    StepPc(s, l, t, q);
    forall f: nat | Fills(t, f, q)
      ensures Fills(s, f, q) || (l.ForkAlloc? && l.p == f && l.np == q)
    {
      FillsBound(t, f, q);
      StepPc(s, l, t, f);
    }
    if l.ForkAlloc? && l.np == q {
      NotFilled(s, l, t);
    }
  }

  lemma {:induction false} FillsBound(s: State, f: nat, q: nat)
    requires Fills(s, f, q)
    ensures f < |s.procs|
  {
  }

  // allocproc() takes a slot nobody is filling.
  lemma {:induction false} NotFilled(s: State, l: Label, t: State)
    requires Inv(s) && Follows(s, l, t) && l.ForkAlloc?
    ensures forall f: nat :: !Fills(s, f, l.np)
  {
    hide Placement, WaitLock, Family, Next;
    forall f: nat
      ensures !Fills(s, f, l.np)
    {
      if f < |s.procs| {
        assert ForkOk(s, f);
      }
    }
  }

  lemma {:induction false} ExitStep(s: State, l: Label, t: State, f: nat)
    requires Inv(s) && Follows(s, l, t) && f < |s.procs|
    ensures f < |t.procs|
    ensures Exiting(t.procs[f].pc) ==> Exiting(s.procs[f].pc) || (l.ExitBegin? && l.p == f)
    ensures l.ForkAlloc? && (l.p == f || l.np == f) ==> !Exiting(t.procs[f].pc)
  {
    hide Inv, Follows, Exiting;
    StepPc(s, l, t, f);
  }

  // How a process comes by a parent.
  lemma {:induction false} ParentCases(s: State, l: Label, t: State, q: nat)
    requires Inv(s) && Follows(s, l, t) && Well(t) && q < |s.procs| == |t.procs| && ParentStep(s, l, t, q)
    ensures t.procs[q].parent.Some? ==>
              || t.procs[q].parent == s.procs[q].parent
              || (Fills(s, l.p, q) && t.procs[q].parent == Some(l.p))
              || (s.procs[q].parent == Some(l.p) && t.procs[q].parent == Some(INIT) && l.p < |s.procs| && l.p != INIT
                  && Exiting(s.procs[l.p].pc))
    ensures l.ForkAlloc? && l.np == q ==> t.procs[q].parent.None?
  {
    hide Placement, WaitLock, Forks, NextCpu, NextOwn, NextOther;
    if l.ExitChild? && l.p < |s.procs| {
      assert ExitOk(s, l.p);
    }
    if l.ForkAlloc? && l.np == q {
      assert ParentOk(s, q);
    }
  }

  lemma {:induction false} RunForker(ss: seq<State>, ls: seq<Label>, n: nat, q: nat)
    requires IsRun(ss, ls) && n < |ss| && q < |ss[0].procs|
    ensures q < |ss[n].procs| == |ss[0].procs| && KnowsForker(ss[n], ls, q, n)
  {
    hide Inv, Follows, KnowsForker;
    if n == 0 {
      InitForker(ss[0], ls, q);
    } else {
      RunForker(ss, ls, n - 1, q);
      RunKeepsInv(ss, ls, n - 1);
      assert Follows(ss[n - 1], ls[n - 1], ss[n]);
      StepForker(ss[n - 1], ls, n, ss[n], q);
    }
  }

  lemma {:induction false} InitForker(s: State, ls: seq<Label>, q: nat)
    requires Init(s) && q < |s.procs|
    ensures KnowsForker(s, ls, q, 0)
  {
  }

  /** In every run, at every point: every process that has started, except init, has been forked, and its parent is the
      one that forked it unless that one has called exit() since; then it is that one still or init. */
  lemma {:induction false} ParentIsForker(ss: seq<State>, ls: seq<Label>, n: nat, q: nat)
    requires IsRun(ss, ls) && n < |ss| && q < |ss[n].procs| && q != INIT
    requires Alive(ss[n].procs[q]) || ss[n].procs[q].state.ZOMBIE?
    ensures Forker(ls, q, n).Some?
    ensures !Orphan(ls, q, n) ==> ss[n].procs[q].parent == Forker(ls, q, n)
    ensures ss[n].procs[q].parent == Forker(ls, q, n) || ss[n].procs[q].parent == Some(INIT)
  {
    hide Follows, Fills;
    SameSize(ss, ls, n);
    RunForker(ss, ls, n, q);
    ParentsAlive(ss, ls, n, q);
  }

  lemma {:induction false} SameSize(ss: seq<State>, ls: seq<Label>, n: nat)
    requires IsRun(ss, ls) && n < |ss|
    ensures |ss[n].procs| == |ss[0].procs|
  {
    hide Inv, Follows;
    if n > 0 {
      SameSize(ss, ls, n - 1);
      RunKeepsInv(ss, ls, n - 1);
      assert Follows(ss[n - 1], ls[n - 1], ss[n]);
      StepPc(ss[n - 1], ls[n - 1], ss[n], INIT) by { InitThere(ss[n - 1]); }
    }
  }

  lemma {:induction false} InitThere(s: State)
    requires Inv(s)
    ensures INIT < |s.procs|
  {
  }

  // ---- States ----

  // The ways a process's state changes: which step takes it from a to b.
  ghost predicate Moves(s: State, l: Label, q: nat, a: PState, b: PState)
    requires q < |s.procs|
  {
    match (a, b)
    case (UNUSED, USED) => l.ForkAlloc? && l.np == q
    case (USED, UNUSED) => l.ForkFail? && Fills(s, l.p, q)
    case (USED, RUNNABLE) => l.ForkReady? && Fills(s, l.p, q)
    case (RUNNABLE, RUNNING) => l.Pick? && l.p == q
    case (RUNNING, RUNNABLE) => l.Preempt? && l.p == q
    case (RUNNING, SLEEPING) => (l.SleepOn? || l.WaitEnd?) && l.p == q
    case (SLEEPING, RUNNABLE) =>
      || (l.WakeOne? && l.q == q) || (l.Kill? && l.q == q)
      || ((l.ExitWake? || l.ExitNotify?) && s.procs[q].chan == Self(q))
    case (RUNNING, ZOMBIE) => l.ExitZombie? && l.p == q
    case (ZOMBIE, UNUSED) => l.WaitLook? && !l.fault && s.procs[q].parent == Some(l.p)
    case (_, _) => false
  }

  // These steps do change the state.
  ghost predicate Takes(s: State, l: Label, q: nat)
    requires q < |s.procs|
  {
    || (l.ForkAlloc? && l.np == q) || ((l.ForkFail? || l.ForkReady?) && Fills(s, l.p, q)) || (l.Pick? && l.p == q)
    || ((l.Preempt? || l.SleepOn? || l.ExitZombie?) && l.p == q) || (l.WakeOne? && l.q == q)
    || (l.Kill? && l.q == q && s.procs[q].state.SLEEPING?)
  }

  ghost predicate StateStep(s: State, l: Label, t: State, q: nat)
    requires q < |s.procs| == |t.procs|
  {
    var a, b := s.procs[q].state, t.procs[q].state;
    (a == b || Moves(s, l, q, a, b)) && (Takes(s, l, q) ==> a != b)
  }

  lemma {:induction false} CpuState(s: State, l: Label, t: State, q: nat)
    requires Inv(s) && Enabled(s, l) && CpuStep(l) && t == NextCpu(s, l) && q < |s.procs|
    ensures q < |t.procs| == |s.procs| && StateStep(s, l, t, q)
  {
    hide Placement, Forks, WaitLock, Family, Fills;
  }

  lemma {:induction false} OwnState(s: State, l: Label, t: State, q: nat)
    requires Inv(s) && Enabled(s, l) && OwnStep(l) && t == NextOwn(s, l) && q < |s.procs|
    ensures q < |t.procs| == |s.procs| && StateStep(s, l, t, q)
  {
    hide Placement, Forks, WaitLock, Family, Fills;
    OwnRuns(s, l);
  }

  lemma {:induction false} OwnRuns(s: State, l: Label)
    requires Inv(s) && Enabled(s, l) && OwnStep(l)
    ensures s.procs[l.p].state.RUNNING?
  {
    hide Forks, WaitLock, Family, Resting, Switched;
    assert CpuOk(s, l.c) && ProcOk(s, l.p);
  }

  lemma {:induction false} ForkState(s: State, l: Label, t: State, q: nat)
    requires Inv(s) && Enabled(s, l) && ForkStep(l) && t == NextFork(s, l) && q < |s.procs|
    ensures q < |t.procs| == |s.procs| && StateStep(s, l, t, q)
  {
    hide WaitLock, Family;
    assert CpuOk(s, l.c) && ProcOk(s, l.p) && ForkOk(s, l.p);
  }

  // exit() wakes sleepers in wait().
  lemma {:induction false} ExitWakes(s: State, l: Label, t: State, q: nat)
    requires Enabled(s, l) && ExitLoop(l) && t == NextOther(s, l) && q < |s.procs|
    ensures q < |t.procs| == |s.procs|
    ensures t.procs[q].state != s.procs[q].state ==>
              !l.ExitChild? && s.procs[q].state.SLEEPING? && s.procs[q].chan.Self? && t.procs[q].state.RUNNABLE?
  {
  }

  lemma {:induction false} WaitChannel(s: State, q: nat)
    requires Inv(s) && q < |s.procs| && s.procs[q].state.SLEEPING? && s.procs[q].chan.Self?
    ensures s.procs[q].chan == Self(q)
  {
    hide Forks, WaitLock, Family;
    assert ProcOk(s, q);
  }

  lemma {:induction false} ExitStates(s: State, l: Label, t: State, q: nat)
    requires Inv(s) && Enabled(s, l) && ExitLoop(l) && t == NextOther(s, l) && q < |s.procs|
    ensures q < |t.procs| == |s.procs| && StateStep(s, l, t, q)
  {
    hide Inv, Enabled, NextOther, Fills;
    ExitWakes(s, l, t, q);
    if t.procs[q].state != s.procs[q].state {
      WaitChannel(s, q);
    }
  }

  lemma {:induction false} WakeStates(s: State, l: Label, t: State, q: nat)
    requires Inv(s) && Enabled(s, l) && OtherStep(l) && !ExitLoop(l) && t == NextOther(s, l) && q < |s.procs|
    ensures q < |t.procs| == |s.procs| && StateStep(s, l, t, q)
  {
    hide Forks, WaitLock, Family, Fills;
    assert CpuOk(s, l.c) && ProcOk(s, l.p) && ProcOk(s, q);
  }

  lemma {:induction false} OtherState(s: State, l: Label, t: State, q: nat)
    requires Inv(s) && Enabled(s, l) && OtherStep(l) && t == NextOther(s, l) && q < |s.procs|
    ensures q < |t.procs| == |s.procs| && StateStep(s, l, t, q)
  {
    hide Inv, Enabled, NextOther;
    if ExitLoop(l) {
      ExitStates(s, l, t, q);
    } else {
      WakeStates(s, l, t, q);
    }
  }

  /** The life of a process, at every step of every run: each change of state is one of those in the table of Moves,
      made by the step it names; and the steps that are to change it do. */
  lemma {:induction false} Lifecycle(ss: seq<State>, ls: seq<Label>, n: nat, q: nat)
    requires IsRun(ss, ls) && n < |ls| && q < |ss[n].procs|
    ensures q < |ss[n + 1].procs| == |ss[n].procs|
    ensures var a, b := ss[n].procs[q].state, ss[n + 1].procs[q].state;
            (a == b || Moves(ss[n], ls[n], q, a, b)) && (Takes(ss[n], ls[n], q) ==> a != b)
  {
    hide Inv, Enabled, NextCpu, NextOwn, NextFork, NextOther, Moves, Takes;
    RunKeepsInv(ss, ls, n);
    var s, l, t := ss[n], ls[n], ss[n + 1];
    assert Follows(s, l, t);
    if CpuStep(l) {
      CpuState(s, l, t, q);
    } else if OwnStep(l) {
      OwnState(s, l, t, q);
    } else if ForkStep(l) {
      ForkState(s, l, t, q);
    } else {
      OtherState(s, l, t, q);
    }
  }

  // ---- kill() ----

  // kill() of slot q since it was last freed.
  ghost predicate Killed(ss: seq<State>, ls: seq<Label>, q: nat, n: nat)
    requires n <= |ls| < |ss| && forall k :: 0 <= k < |ss| ==> q < |ss[k].procs|
  {
    n > 0 && if ls[n - 1].Kill? && ls[n - 1].q == q then true
             else Killed(ss, ls, q, n - 1) && !(ss[n].procs[q].state.UNUSED? && !ss[n - 1].procs[q].state.UNUSED?)
  }

  ghost predicate KillStep(s: State, l: Label, t: State, q: nat)
    requires q < |s.procs| == |t.procs|
  {
    t.procs[q].killed <==>
      if l.Kill? && l.q == q then true
      else s.procs[q].killed && !(t.procs[q].state.UNUSED? && !s.procs[q].state.UNUSED?)
  }

  lemma {:induction false} CpuKill(s: State, l: Label, t: State, q: nat)
    requires Inv(s) && Enabled(s, l) && (CpuStep(l) || OwnStep(l)) && t == Next(s, l) && q < |s.procs|
    ensures q < |t.procs| == |s.procs| && KillStep(s, l, t, q)
  {
    hide Placement, Forks, WaitLock, Family;
  }

  lemma {:induction false} ForkKill(s: State, l: Label, t: State, q: nat)
    requires Inv(s) && Enabled(s, l) && ForkStep(l) && t == NextFork(s, l) && q < |s.procs|
    ensures q < |t.procs| == |s.procs| && KillStep(s, l, t, q)
  {
    hide Placement, WaitLock, Family;
    assert ForkOk(s, l.p);
  }

  lemma {:induction false} ExitKills(s: State, l: Label, t: State, q: nat)
    requires Inv(s) && Enabled(s, l) && ExitLoop(l) && t == NextOther(s, l) && q < |s.procs|
    ensures q < |t.procs| == |s.procs| && KillStep(s, l, t, q)
  {
    hide Placement, Forks, WaitLock, Family;
  }

  lemma {:induction false} WakeKills(s: State, l: Label, t: State, q: nat)
    requires Inv(s) && Enabled(s, l) && OtherStep(l) && !ExitLoop(l) && t == NextOther(s, l) && q < |s.procs|
    ensures q < |t.procs| == |s.procs| && KillStep(s, l, t, q)
  {
    hide Placement, Forks, WaitLock, Family;
  }

  lemma {:induction false} OtherKill(s: State, l: Label, t: State, q: nat)
    requires Inv(s) && Enabled(s, l) && OtherStep(l) && t == NextOther(s, l) && q < |s.procs|
    ensures q < |t.procs| == |s.procs| && KillStep(s, l, t, q)
  {
    hide Inv, Enabled, NextOther;
    if ExitLoop(l) {
      ExitKills(s, l, t, q);
    } else {
      WakeKills(s, l, t, q);
    }
  }

  /** In every run, at every point: p->killed is set if and only if kill() has chosen the slot since it was last
      freed. */
  lemma {:induction false} KilledExact(ss: seq<State>, ls: seq<Label>, n: nat, q: nat)
    requires IsRun(ss, ls) && n < |ss| && forall k :: 0 <= k < |ss| ==> q < |ss[k].procs|
    ensures ss[n].procs[q].killed <==> Killed(ss, ls, q, n)
  {
    hide Inv, Enabled, NextCpu, NextOwn, NextFork, NextOther;
    if n > 0 {
      KilledExact(ss, ls, n - 1, q);
      RunKeepsInv(ss, ls, n - 1);
      var s, l, t := ss[n - 1], ls[n - 1], ss[n];
      assert Follows(s, l, t);
      if CpuStep(l) || OwnStep(l) {
        CpuKill(s, l, t, q);
      } else if ForkStep(l) {
        ForkKill(s, l, t, q);
      } else {
        OtherKill(s, l, t, q);
      }
    }
  }

  // ---- sleep() and wakeup() ----

  // The channel slot q went to sleep on, if it has been neither woken nor killed since.
  ghost function AsleepOn(ls: seq<Label>, q: nat, n: nat): (r: Option<nat>)
    requires n <= |ls|
  {
    if n == 0 then None
    else
      match ls[n - 1]
      case SleepOn(_, p, ch) => if p == q then Some(ch) else AsleepOn(ls, q, n - 1)
      case WakeOne(_, _, p) => if p == q then None else AsleepOn(ls, q, n - 1)
      case Kill(_, _, p) => if p == q then None else AsleepOn(ls, q, n - 1)
      case _ => AsleepOn(ls, q, n - 1)
  }

  function SleepsOn(r: Process): (ch: Option<nat>) {
    if r.state.SLEEPING? && r.chan.Other? then Some(r.chan.n) else None
  }

  ghost predicate SleepStep(s: State, l: Label, t: State, q: nat)
    requires q < |s.procs| == |t.procs|
  {
    SleepsOn(t.procs[q]) ==
    if l.SleepOn? && l.p == q then Some(l.n)
    else if (l.WakeOne? || l.Kill?) && l.q == q then None
    else SleepsOn(s.procs[q])
  }

  lemma {:induction false} CpuSleep(s: State, l: Label, t: State, q: nat)
    requires Inv(s) && Enabled(s, l) && CpuStep(l) && t == NextCpu(s, l) && q < |s.procs|
    ensures q < |t.procs| == |s.procs| && SleepStep(s, l, t, q)
  {
    hide Placement, Forks, WaitLock, Family;
  }

  lemma {:induction false} OwnSleep(s: State, l: Label, t: State, q: nat)
    requires Inv(s) && Enabled(s, l) && OwnStep(l) && t == NextOwn(s, l) && q < |s.procs|
    ensures q < |t.procs| == |s.procs| && SleepStep(s, l, t, q)
  {
    hide Forks, WaitLock, Family;
    assert CpuOk(s, l.c) && ProcOk(s, l.p);
  }

  lemma {:induction false} ForkSleep(s: State, l: Label, t: State, q: nat)
    requires Inv(s) && Enabled(s, l) && ForkStep(l) && t == NextFork(s, l) && q < |s.procs|
    ensures q < |t.procs| == |s.procs| && SleepStep(s, l, t, q)
  {
    hide Placement, WaitLock, Family;
    assert ForkOk(s, l.p);
  }

  lemma {:induction false} ExitSleeps(s: State, l: Label, t: State, q: nat)
    requires Inv(s) && Enabled(s, l) && ExitLoop(l) && t == NextOther(s, l) && q < |s.procs|
    ensures q < |t.procs| == |s.procs| && SleepStep(s, l, t, q)
  {
    hide Placement, Forks, WaitLock, Family;
  }

  lemma {:induction false} WakeSleeps(s: State, l: Label, t: State, q: nat)
    requires Inv(s) && Enabled(s, l) && OtherStep(l) && !ExitLoop(l) && t == NextOther(s, l) && q < |s.procs|
    ensures q < |t.procs| == |s.procs| && SleepStep(s, l, t, q)
  {
    hide Placement, Forks, WaitLock, Family;
  }

  lemma {:induction false} OtherSleep(s: State, l: Label, t: State, q: nat)
    requires Inv(s) && Enabled(s, l) && OtherStep(l) && t == NextOther(s, l) && q < |s.procs|
    ensures q < |t.procs| == |s.procs| && SleepStep(s, l, t, q)
  {
    hide Inv, Enabled, NextOther;
    if ExitLoop(l) {
      ExitSleeps(s, l, t, q);
    } else {
      WakeSleeps(s, l, t, q);
    }
  }

  /** In every run, at every point: a process sleeps on a channel, outside wait(), if and only if it called sleep() on
      that channel and has been neither woken nor killed since. */
  lemma {:induction false} SleepExact(ss: seq<State>, ls: seq<Label>, n: nat, q: nat)
    requires IsRun(ss, ls) && n < |ss| && forall k :: 0 <= k < |ss| ==> q < |ss[k].procs|
    ensures SleepsOn(ss[n].procs[q]) == AsleepOn(ls, q, n)
  {
    hide Inv, Enabled, NextCpu, NextOwn, NextFork, NextOther, SleepsOn;
    if n == 0 {
      InitAwake(ss[0], q);
    } else {
      SleepExact(ss, ls, n - 1, q);
      RunKeepsInv(ss, ls, n - 1);
      var s, l, t := ss[n - 1], ls[n - 1], ss[n];
      assert Follows(s, l, t);
      if CpuStep(l) {
        CpuSleep(s, l, t, q);
      } else if OwnStep(l) {
        OwnSleep(s, l, t, q);
      } else if ForkStep(l) {
        ForkSleep(s, l, t, q);
      } else {
        OtherSleep(s, l, t, q);
      }
    }
  }

  lemma {:induction false} InitAwake(s: State, q: nat)
    requires Init(s) && q < |s.procs|
    ensures SleepsOn(s.procs[q]).None?
  {
  }

  // ---- wait() ----

  ghost predicate HasChild(s: State, p: nat, n: nat) {
    exists x :: 0 <= x < |s.procs| && x < n && s.procs[x].parent == Some(p)
  }

  // A process scanning in wait() knows whether it has come upon a child.
  ghost predicate KidsOk(s: State, p: nat)
    requires p < |s.procs|
  {
    s.procs[p].pc.WaitScan? ==> (s.procs[p].pc.kids <==> HasChild(s, p, s.procs[p].pc.i))
  }

  // While p scans, nobody else's parent changes from or to p, and p's own place changes only by its own steps.
  lemma {:induction false} ScanAlone(s: State, l: Label, t: State, p: nat, x: nat)
    requires Inv(s) && Follows(s, l, t) && p < |s.procs| && x < |s.procs|
    requires s.procs[p].pc.WaitScan? && !(!CpuStep(l) && l.p == p)
    ensures |t.procs| == |s.procs| && (t.procs[x].parent == Some(p) <==> s.procs[x].parent == Some(p))
  {
    hide Inv, Follows;
    StepPc(s, l, t, x);
    ScanHolds(s, l, t, p);
    ParentNews(s, l, t, x);
  }

  lemma {:induction false} ScanHolds(s: State, l: Label, t: State, p: nat)
    requires Inv(s) && Follows(s, l, t) && p < |s.procs| && s.procs[p].pc.WaitScan? && !(!CpuStep(l) && l.p == p)
    ensures s.wlock.Some? && !l.ForkAdopt? && !l.ExitChild? && !l.WaitLook?
  {
    hide Forks, Family, Next;
    assert HoldOk(s, p);
    if l.ExitChild? || l.WaitLook? {
      SoleHolder(s, p, l.p);
    }
  }

  // Otherwise no parent changes.
  lemma {:induction false} ParentNews(s: State, l: Label, t: State, x: nat)
    requires Inv(s) && Follows(s, l, t) && x < |s.procs| == |t.procs|
    requires !l.ForkAdopt? && !l.ExitChild? && !l.WaitLook?
    ensures t.procs[x].parent == s.procs[x].parent
  {
    hide Inv, Enabled, NextCpu, NextOwn, NextFork, NextOther;
    if CpuStep(l) || OwnStep(l) {
      CpuNews(s, l, t, x);
    } else if ForkStep(l) {
      ForkNews(s, l, t, x);
    } else {
      OtherNews(s, l, t, x);
    }
  }

  lemma {:induction false} CpuNews(s: State, l: Label, t: State, x: nat)
    requires Enabled(s, l) && (CpuStep(l) || OwnStep(l)) && t == Next(s, l) && x < |s.procs| == |t.procs|
    ensures t.procs[x].parent == s.procs[x].parent
  {
  }

  lemma {:induction false} ForkNews(s: State, l: Label, t: State, x: nat)
    requires Inv(s) && Enabled(s, l) && ForkStep(l) && t == NextFork(s, l) && x < |s.procs| == |t.procs|
    requires !l.ForkAdopt?
    ensures t.procs[x].parent == s.procs[x].parent
  {
    hide Placement, WaitLock, Family;
    assert ForkOk(s, l.p);
  }

  lemma {:induction false} OtherNews(s: State, l: Label, t: State, x: nat)
    requires Enabled(s, l) && (l.WakeOne? || l.Kill? || l.ExitWake? || l.ExitNotify?) && t == NextOther(s, l)
    requires x < |s.procs| == |t.procs|
    ensures t.procs[x].parent == s.procs[x].parent
  {
  }

  lemma {:induction false} KidsStep(s: State, l: Label, t: State, p: nat)
    requires Inv(s) && Follows(s, l, t) && p < |s.procs| && KidsOk(s, p)
    ensures p < |t.procs| && KidsOk(t, p)
  {
    hide Inv, Follows, KidsOk;
    StepPc(s, l, t, p);
    if !CpuStep(l) && l.p == p {
      KidsOwn(s, l, t, p);
    } else {
      KidsKept(s, l, t, p);
    }
  }

  lemma {:induction false} KidsKept(s: State, l: Label, t: State, p: nat)
    requires Inv(s) && Follows(s, l, t) && p < |s.procs| == |t.procs| && KidsOk(s, p) && !(!CpuStep(l) && l.p == p)
    ensures KidsOk(t, p)
  {
    hide Inv, Follows;
    ScanStays(s, l, t, p);
    if t.procs[p].pc.WaitScan? {
      forall x | 0 <= x < |s.procs|
        ensures t.procs[x].parent == Some(p) <==> s.procs[x].parent == Some(p)
      {
        ScanAlone(s, l, t, p, x);
      }
    }
  }

  lemma {:induction false} ScanStays(s: State, l: Label, t: State, p: nat)
    requires Inv(s) && Follows(s, l, t) && p < |s.procs| == |t.procs| && !(!CpuStep(l) && l.p == p)
    ensures t.procs[p].pc.WaitScan? ==> t.procs[p].pc == s.procs[p].pc
  {
    hide Inv, Enabled, NextCpu, NextOwn, NextFork, NextOther;
    if CpuStep(l) || OwnStep(l) {
      CpuScan(s, l, t, p);
    } else if ForkStep(l) {
      ForkScan(s, l, t, p);
    } else {
      OtherScan(s, l, t, p);
    }
  }

  lemma {:induction false} CpuScan(s: State, l: Label, t: State, p: nat)
    requires Enabled(s, l) && (CpuStep(l) || OwnStep(l)) && t == Next(s, l) && p < |s.procs| == |t.procs|
    requires CpuStep(l) || l.p != p
    ensures t.procs[p].pc.WaitScan? ==> t.procs[p].pc == s.procs[p].pc
  {
  }

  lemma {:induction false} ForkScan(s: State, l: Label, t: State, p: nat)
    requires Inv(s) && Enabled(s, l) && ForkStep(l) && t == NextFork(s, l) && p < |s.procs| == |t.procs| && l.p != p
    ensures t.procs[p].pc.WaitScan? ==> t.procs[p].pc == s.procs[p].pc
  {
    hide Placement, WaitLock, Family;
    assert ForkOk(s, l.p);
  }

  lemma {:induction false} OtherScan(s: State, l: Label, t: State, p: nat)
    requires Enabled(s, l) && OtherStep(l) && t == NextOther(s, l) && p < |s.procs| == |t.procs| && l.p != p
    ensures t.procs[p].pc.WaitScan? ==> t.procs[p].pc == s.procs[p].pc
  {
    hide NextOther, Enabled;
    OtherAt(s, l, t, p);
  }

  lemma {:induction false} KidsOwn(s: State, l: Label, t: State, p: nat)
    requires Inv(s) && Follows(s, l, t) && p < |s.procs| == |t.procs| && KidsOk(s, p) && !CpuStep(l) && l.p == p
    ensures KidsOk(t, p)
  {
    hide Inv, Enabled, NextCpu, NextOwn, NextFork, NextOther, KidsOk;
    if l.WaitLook? {
      KidsLook(s, l, t, p);
    } else {
      ScanStarts(s, l, t, p);
      KidsStart(t, p);
    }
  }

  lemma {:induction false} KidsStart(t: State, p: nat)
    requires p < |t.procs| && (t.procs[p].pc.WaitScan? ==> t.procs[p].pc == WaitScan(0, false))
    ensures KidsOk(t, p)
  {
  }

  // A scan starts at the first process.
  lemma {:induction false} ScanStarts(s: State, l: Label, t: State, p: nat)
    requires Inv(s) && Follows(s, l, t) && p < |s.procs| == |t.procs| && !CpuStep(l) && l.p == p && !l.WaitLook?
    ensures t.procs[p].pc.WaitScan? ==> t.procs[p].pc == WaitScan(0, false)
  {
    hide Inv, Enabled, NextCpu, NextOwn, NextFork, NextOther;
    if OwnStep(l) {
      OwnStarts(s, l, t, p);
    } else if ForkStep(l) {
      ForkStarts(s, l, t, p);
    } else {
      OtherStarts(s, l, t, p);
    }
  }

  lemma {:induction false} OwnStarts(s: State, l: Label, t: State, p: nat)
    requires Inv(s) && Enabled(s, l) && OwnStep(l) && t == NextOwn(s, l) && p < |s.procs| == |t.procs| && l.p == p
    ensures t.procs[p].pc.WaitScan? ==> t.procs[p].pc == WaitScan(0, false)
  {
    hide Forks, WaitLock, Family;
    assert ProcOk(s, p);
  }

  lemma {:induction false} ForkStarts(s: State, l: Label, t: State, p: nat)
    requires Inv(s) && Enabled(s, l) && ForkStep(l) && t == NextFork(s, l) && p < |s.procs| == |t.procs| && l.p == p
    ensures !t.procs[p].pc.WaitScan?
  {
    hide Placement, Forks, WaitLock, Family;
  }

  lemma {:induction false} OtherStarts(s: State, l: Label, t: State, p: nat)
    requires Inv(s) && Enabled(s, l) && OtherStep(l) && t == NextOther(s, l) && p < |s.procs| == |t.procs| && l.p == p
    requires !l.WaitLook?
    ensures !t.procs[p].pc.WaitScan?
  {
    hide Placement, Forks, WaitLock, Family;
  }

  lemma {:induction false} KidsLook(s: State, l: Label, t: State, p: nat)
    requires Inv(s) && Follows(s, l, t) && p < |s.procs| == |t.procs| && KidsOk(s, p) && l.WaitLook? && l.p == p
    ensures KidsOk(t, p)
  {
    hide Placement, Forks, WaitLock, Family, HasChild, NextCpu, NextOwn, NextFork;
    if t.procs[p].pc.WaitScan? {
      var i := s.procs[p].pc.i;
      ChildAt(s, t, p, i);
    }
  }

  lemma {:induction false} ChildAt(s: State, t: State, p: nat, i: nat)
    requires |t.procs| == |s.procs| && i < |s.procs|
    requires forall x :: 0 <= x < |s.procs| ==> t.procs[x].parent == s.procs[x].parent
    ensures HasChild(t, p, i + 1) <==> HasChild(s, p, i) || s.procs[i].parent == Some(p)
  {
    if HasChild(t, p, i + 1) {
      var x :| 0 <= x < |t.procs| && x < i + 1 && t.procs[x].parent == Some(p);
      assert x < i ==> HasChild(s, p, i);
    }
    if HasChild(s, p, i) {
      var x :| 0 <= x < |s.procs| && x < i && s.procs[x].parent == Some(p);
      assert t.procs[x].parent == Some(p);
    }
    if s.procs[i].parent == Some(p) {
      assert t.procs[i].parent == Some(p);
    }
  }

  lemma {:induction false} RunKids(ss: seq<State>, ls: seq<Label>, n: nat, p: nat)
    requires IsRun(ss, ls) && n < |ss| && p < |ss[0].procs|
    ensures p < |ss[n].procs| && KidsOk(ss[n], p)
  {
    hide Inv, Follows;
    if n > 0 {
      RunKids(ss, ls, n - 1, p);
      RunKeepsInv(ss, ls, n - 1);
      assert Follows(ss[n - 1], ls[n - 1], ss[n]);
      KidsStep(ss[n - 1], ls[n - 1], ss[n], p);
    }
  }

  /** In every run wait() that has looked at every process returns -1 if and only if it has been killed or has no child;
      otherwise it sleeps, and none of its children is a zombie. */
  lemma {:induction false} WaitExact(ss: seq<State>, ls: seq<Label>, n: nat)
    requires IsRun(ss, ls) && n < |ls| && ls[n].WaitEnd?
    ensures var s, t, p := ss[n], ss[n + 1], ls[n].p;
            && p < |s.procs| == |t.procs|
            && (t.procs[p].pc.Kernel? <==>
                  s.procs[p].killed || forall x :: 0 <= x < |s.procs| ==> s.procs[x].parent != Some(p))
            && (!t.procs[p].pc.Kernel? ==>
                  SleepsInWait(t, p)
                  && forall x :: 0 <= x < |s.procs| && s.procs[x].parent == Some(p) ==> !s.procs[x].state.ZOMBIE?)
  {
    hide Placement, Forks, WaitLock;
    var s, t, p := ss[n], ss[n + 1], ls[n].p;
    RunKeepsInv(ss, ls, n);
    assert Follows(s, ls[n], t);
    SameSize(ss, ls, n);
    RunKids(ss, ls, n, p);
    assert ScanOk(s, p);
    hide IsRun;
  }

  // ---- kill() of a free slot ----

  // One CPU, init, and one free slot that is killed and then forked into.
  function Scene(k: nat): (s: State) {
    var pc := match k
              case 0 => Start
              case 1 => Start
              case 4 => ForkFill(1)
              case 5 => ForkParent(1)
              case 6 => ForkRun(1)
              case _ => Kernel;
    var first := Process(if k == 0 then RUNNABLE else RUNNING, None, NoChan, false,
                         if k == 1 then Some(0) else None, pc);
    var second := Process(if k < 4 then UNUSED else if k < 7 then USED else RUNNABLE, if k < 6 then None else Some(0),
                          NoChan, 3 <= k, if k == 4 then Some(0) else None, Start);
    State([first, second], [if k == 0 then Cpu(None, false) else Cpu(Some(0), true)], None,
          [if k == 0 then None else Some(0), None], [0, 0])
  }

  lemma {:induction false} SceneStarts()
    ensures Init(Scene(0)) && Follows(Scene(0), Pick(0, 0), Scene(1)) && Follows(Scene(1), Resume(0, 0), Scene(2))
  {
    assert Scene(0).procs[0 := Scene(1).procs[0]] == Scene(1).procs && Scene(0).on[0 := Some(0)] == Scene(1).on;
    assert Scene(0).cpus[0 := Cpu(Some(0), true)] == Scene(1).cpus;
    assert Scene(1).procs[0 := Scene(2).procs[0]] == Scene(2).procs;
  }

  lemma {:induction false} SceneKills()
    ensures Follows(Scene(2), Kill(0, 0, 1), Scene(3)) && Follows(Scene(3), ForkAlloc(0, 0, 1), Scene(4))
  {
    assert Scene(2).procs[1 := Scene(3).procs[1]] == Scene(3).procs;
    assert Scene(3).procs[1 := Scene(4).procs[1]][0 := Scene(4).procs[0]] == Scene(4).procs;
    assert Scene(3).forker[1 := 0] == Scene(4).forker;
  }

  lemma {:induction false} SceneForks()
    ensures Follows(Scene(4), ForkDone(0, 0), Scene(5)) && Follows(Scene(5), ForkAdopt(0, 0), Scene(6))
  {
    assert Scene(4).procs[1 := Scene(5).procs[1]][0 := Scene(5).procs[0]] == Scene(5).procs;
    assert Scene(5).procs[1 := Scene(6).procs[1]][0 := Scene(6).procs[0]] == Scene(6).procs;
  }

  lemma {:induction false} SceneEnds()
    ensures Follows(Scene(6), ForkReady(0, 0), Scene(7))
  {
    assert Scene(6).procs[1 := Scene(7).procs[1]][0 := Scene(7).procs[0]] == Scene(7).procs;
  }

  /** kill(0) finds a slot that is not in use; allocproc() does not clear what it sets, so the next process forked into
      the slot starts out killed though nobody has killed it. */
  lemma {:induction false} BornKilled() returns (ss: seq<State>, ls: seq<Label>)
    ensures IsRun(ss, ls) && |ls| == 7 && ls[3] == ForkAlloc(0, 0, 1) && ls[6] == ForkReady(0, 0)
    ensures |ss[7].procs| == 2 && ss[7].procs[1].state.RUNNABLE? && ss[7].procs[1].killed
    ensures forall k :: 3 <= k < 7 ==> !ls[k].Kill?
  {
    hide Follows;
    SceneStarts();
    SceneKills();
    SceneForks();
    SceneEnds();
    ss := [Scene(0), Scene(1), Scene(2), Scene(3), Scene(4), Scene(5), Scene(6), Scene(7)];
    ls := [Pick(0, 0), Resume(0, 0), Kill(0, 0, 1), ForkAlloc(0, 0, 1), ForkDone(0, 0), ForkAdopt(0, 0),
      ForkReady(0, 0)];
  }

  /** The exact condition: a process that fork() starts is killed already if and only if kill() has chosen its slot
      since the slot was last freed. */
  lemma {:induction false} BornKilledExact(ss: seq<State>, ls: seq<Label>, n: nat, q: nat)
    requires IsRun(ss, ls) && n < |ls| && q < |ss[n].procs| && ls[n].ForkReady? && Fills(ss[n], ls[n].p, q)
    requires forall k :: 0 <= k < |ss| ==> q < |ss[k].procs|
    ensures ss[n + 1].procs[q].state.RUNNABLE? && (ss[n + 1].procs[q].killed <==> Killed(ss, ls, q, n))
  {
    hide Inv, Follows;
    KilledExact(ss, ls, n + 1, q);
    Lifecycle(ss, ls, n, q);
    RunKeepsInv(ss, ls, n);
    FillsUsed(ss[n], ls[n].p, q);
  }

  lemma {:induction false} FillsUsed(s: State, f: nat, q: nat)
    requires Inv(s) && Fills(s, f, q)
    ensures q < |s.procs| && s.procs[q].state.USED?
  {
    hide Placement, WaitLock, Family;
    assert ForkOk(s, f);
  }
}
