/** The process table of kernel/proc.c under every interleaving of CPUs: fork(), exit(), wait(), kill(), yield(),
    sleep(), wakeup() and the scheduler, each cut at the points where it takes or gives up a lock. */
module Proc {
  import opened Options

  const INIT: nat := 0 // initproc

  datatype PState = UNUSED | USED | SLEEPING | RUNNABLE | RUNNING | ZOMBIE

  // wait() sleeps on the process itself; everything else on other addresses.
  datatype Chan = NoChan | Self(p: nat) | Other(n: nat)

  // Where a process is. The *Sched points hold p->lock and are about to call sched(); at the *Back points, and at
  // Start, it holds p->lock as soon as the scheduler switches to it.
  datatype Pc =
    | Kernel
    | Start
    | ForkFill(np: nat) | ForkParent(np: nat) | ForkRun(np: nat)
    | ExitReparent(i: nat) | ExitWakeInit(i: nat, j: nat) | ExitWakeParent(j: nat) | ExitSched | Dead
    | WaitScan(i: nat, kids: bool) | WaitSched | WaitBack | WaitAgain
    | YieldSched(ret: Pc) | YieldBack(ret: Pc)
    | SleepSched | SleepBack

  // lock: the CPU holding p->lock.
  datatype Process = Process(state: PState, parent: Option<nat>, chan: Chan, killed: bool, lock: Option<nat>, pc: Pc)

  // proc is c->proc; inside tells whether the CPU is executing that process or its scheduler.
  datatype Cpu = Cpu(proc: Option<nat>, inside: bool)

  // wlock is the CPU holding wait_lock. on and forker are bookkeeping: the CPU a process is on, and who is forking it.
  datatype State = State(procs: seq<Process>, cpus: seq<Cpu>, wlock: Option<nat>, on: seq<Option<nat>>,
      forker: seq<nat>)

  datatype Label =
    | Pick(c: nat, p: nat)
    | SchedDone(c: nat)
    | Swtch(c: nat, p: nat)
    | Resume(c: nat, p: nat)
    | Preempt(c: nat, p: nat)
    | SleepOn(c: nat, p: nat, n: nat)
    | WakeOne(c: nat, p: nat, q: nat)
    | Kill(c: nat, p: nat, q: nat)
    | ForkAlloc(c: nat, p: nat, np: nat)
    | ForkFail(c: nat, p: nat)
    | ForkDone(c: nat, p: nat)
    | ForkAdopt(c: nat, p: nat)
    | ForkReady(c: nat, p: nat)
    | ExitBegin(c: nat, p: nat)
    | ExitChild(c: nat, p: nat)
    | ExitWake(c: nat, p: nat)
    | ExitNotify(c: nat, p: nat)
    | ExitZombie(c: nat, p: nat)
    | WaitBegin(c: nat, p: nat)
    | WaitLook(c: nat, p: nat, fault: bool)
    | WaitEnd(c: nat, p: nat)

  ghost predicate Well(s: State) {
    |s.on| == |s.procs| == |s.forker| && INIT < |s.procs|
  }

  // CPU c is executing process p.
  ghost predicate Exec(s: State, c: nat, p: nat) {
    && Well(s) && c < |s.cpus| && p < |s.procs| && s.cpus[c] == Cpu(Some(p), true)
  }

  // No lock is held, so a timer interrupt may take the CPU away.
  predicate Preemptible(pc: Pc) {
    pc.Kernel? || pc.ForkParent? || pc.ForkRun? || pc.WaitAgain?
  }

  predicate AtSched(pc: Pc) {
    pc.YieldSched? || pc.SleepSched? || pc.WaitSched? || pc.ExitSched?
  }

  predicate AtBack(pc: Pc) {
    pc.Start? || pc.YieldBack? || pc.SleepBack? || pc.WaitBack?
  }

  function AfterSched(pc: Pc): Pc {
    match pc
    case YieldSched(r) => YieldBack(r)
    case SleepSched => SleepBack
    case WaitSched => WaitBack
    case _ => Dead
  }

  function AfterBack(pc: Pc): Pc {
    match pc
    case YieldBack(r) => r
    case WaitBack => WaitAgain
    case _ => Kernel
  }

  ghost predicate Enabled(s: State, l: Label) {
    match l
    case Pick(c, p) =>
      && Well(s) && c < |s.cpus| && p < |s.procs| && s.cpus[c] == Cpu(None, false)
      && s.procs[p].lock.None? && s.procs[p].state.RUNNABLE?
    case SchedDone(c) =>
      Well(s) && c < |s.cpus| && s.cpus[c].proc.Some? && !s.cpus[c].inside && s.cpus[c].proc.value < |s.procs|
    case Swtch(c, p) => Exec(s, c, p) && AtSched(s.procs[p].pc)
    case Resume(c, p) => Exec(s, c, p) && AtBack(s.procs[p].pc)
    case Preempt(c, p) => Exec(s, c, p) && Preemptible(s.procs[p].pc) && s.procs[p].lock.None?
    case SleepOn(c, p, n) => Exec(s, c, p) && s.procs[p].pc.Kernel? && s.procs[p].lock.None?
    case WakeOne(c, p, q) =>
      && Exec(s, c, p) && s.procs[p].pc.Kernel? && q < |s.procs| && q != p && s.procs[q].lock.None?
      && s.procs[q].state.SLEEPING? && s.procs[q].chan.Other?
    case Kill(c, p, q) => Exec(s, c, p) && s.procs[p].pc.Kernel? && q < |s.procs| && s.procs[q].lock.None?
    case ForkAlloc(c, p, np) =>
      && Exec(s, c, p) && s.procs[p].pc.Kernel? && np < |s.procs| && s.procs[np].lock.None? && s.procs[np].state.UNUSED?
    case ForkFail(c, p) => Exec(s, c, p) && s.procs[p].pc.ForkFill? && s.procs[p].pc.np < |s.procs|
    case ForkDone(c, p) => Exec(s, c, p) && s.procs[p].pc.ForkFill? && s.procs[p].pc.np < |s.procs|
    case ForkAdopt(c, p) => Exec(s, c, p) && s.procs[p].pc.ForkParent? && s.procs[p].pc.np < |s.procs| && s.wlock.None?
    case ForkReady(c, p) =>
      Exec(s, c, p) && s.procs[p].pc.ForkRun? && s.procs[p].pc.np < |s.procs| && s.procs[s.procs[p].pc.np].lock.None?
    case ExitBegin(c, p) => Exec(s, c, p) && s.procs[p].pc.Kernel? && p != INIT && s.wlock.None?
    case ExitChild(c, p) => Exec(s, c, p) && s.procs[p].pc.ExitReparent?
    case ExitWake(c, p) =>
      && Exec(s, c, p) && s.procs[p].pc.ExitWakeInit?
      && (s.procs[p].pc.j < |s.procs| && s.procs[p].pc.j != p ==> s.procs[s.procs[p].pc.j].lock.None?)
    case ExitNotify(c, p) =>
      && Exec(s, c, p) && s.procs[p].pc.ExitWakeParent? && s.procs[p].pc.j < |s.procs|
      && (s.procs[p].pc.j != p ==> s.procs[s.procs[p].pc.j].lock.None?)
    case ExitZombie(c, p) =>
      Exec(s, c, p) && s.procs[p].pc.ExitWakeParent? && |s.procs| <= s.procs[p].pc.j && s.procs[p].lock.None?
    case WaitBegin(c, p) => Exec(s, c, p) && (s.procs[p].pc.Kernel? || s.procs[p].pc.WaitAgain?) && s.wlock.None?
    case WaitLook(c, p, _) =>
      && Exec(s, c, p) && s.procs[p].pc.WaitScan? && s.procs[p].pc.i < |s.procs|
      && (s.procs[s.procs[p].pc.i].parent == Some(p) ==> s.procs[s.procs[p].pc.i].lock.None?)
    case WaitEnd(c, p) =>
      Exec(s, c, p) && s.procs[p].pc.WaitScan? && |s.procs| <= s.procs[p].pc.i && s.procs[p].lock.None?
  }

  // A sleeper on ch becomes runnable.
  function Woken(r: Process, ch: Chan): (r': Process) {
    if r.state.SLEEPING? && r.chan == ch then r.(state := RUNNABLE) else r
  }

  // freeproc()
  function FreeProc(r: Process): (r': Process) {
    r.(state := UNUSED, parent := None, chan := NoChan, killed := false)
  }

  // Process p becomes r and, if different, process q becomes r2.
  ghost function Set(s: State, p: nat, r: Process): (t: State)
    requires p < |s.procs|
  {
    s.(procs := s.procs[p := r])
  }

  predicate CpuStep(l: Label) {
    l.Pick? || l.SchedDone? || l.Swtch?
  }

  // Steps that change only the process that takes them, and perhaps wait_lock.
  predicate OwnStep(l: Label) {
    l.Resume? || l.Preempt? || l.SleepOn? || l.ExitBegin? || l.ExitZombie? || l.WaitBegin? || l.WaitEnd?
  }

  predicate ForkStep(l: Label) {
    l.ForkAlloc? || l.ForkFail? || l.ForkDone? || l.ForkAdopt? || l.ForkReady?
  }

  predicate OtherStep(l: Label) {
    l.WakeOne? || l.Kill? || l.ExitChild? || l.ExitWake? || l.ExitNotify? || l.WaitLook?
  }

  ghost function NextCpu(s: State, l: Label): (t: State)
    requires Enabled(s, l) && CpuStep(l)
  {
    match l
    case Pick(c, p) =>
      Set(s, p, s.procs[p].(state := RUNNING, lock := Some(c))).(cpus := s.cpus[c := Cpu(Some(p), true)],
          on := s.on[p := Some(c)])
    case SchedDone(c) =>
      var p := s.cpus[c].proc.value;
      Set(s, p, s.procs[p].(lock := None)).(cpus := s.cpus[c := Cpu(None, false)], on := s.on[p := None])
    case Swtch(c, p) =>
      Set(s, p, s.procs[p].(pc := AfterSched(s.procs[p].pc))).(cpus := s.cpus[c := Cpu(Some(p), false)])
  }

  ghost function NextOwn(s: State, l: Label): (t: State)
    requires Enabled(s, l) && OwnStep(l)
  {
    match l
    case Resume(c, p) =>
      var r := s.procs[p];
      var chan := if r.pc.SleepBack? || r.pc.WaitBack? then NoChan else r.chan;
      Set(s, p, r.(pc := AfterBack(r.pc), lock := None, chan := chan))
    case Preempt(c, p) =>
      var r := s.procs[p];
      Set(s, p, r.(pc := YieldSched(r.pc), lock := Some(c), state := RUNNABLE))
    case SleepOn(c, p, n) => Set(s, p,
        s.procs[p].(pc := SleepSched, lock := Some(c), state := SLEEPING, chan := Other(n)))
    case ExitBegin(c, p) => Set(s, p, s.procs[p].(pc := ExitReparent(0))).(wlock := Some(c))
    case ExitZombie(c, p) => Set(s, p, s.procs[p].(state := ZOMBIE, lock := Some(c), pc := ExitSched)).(wlock := None)
    case WaitBegin(c, p) => Set(s, p, s.procs[p].(pc := WaitScan(0, false))).(wlock := Some(c))
    case WaitEnd(c, p) =>
      var r := s.procs[p];
      if !r.pc.kids || r.killed then Set(s, p, r.(pc := Kernel)).(wlock := None)
      else Set(s, p, r.(pc := WaitSched, lock := Some(c), state := SLEEPING, chan := Self(p))).(wlock := None)
  }

  ghost function NextFork(s: State, l: Label): (t: State)
    requires Enabled(s, l) && ForkStep(l)
  {
    match l
    case ForkAlloc(c, p, np) =>
      var t := Set(s, np, s.procs[np].(state := USED, lock := Some(c), pc := Start));
      Set(t, p, t.procs[p].(pc := ForkFill(np))).(forker := s.forker[np := p])
    case ForkFail(c, p) =>
      var np := s.procs[p].pc.np;
      var t := Set(s, np, FreeProc(s.procs[np]).(lock := None));
      Set(t, p, t.procs[p].(pc := Kernel))
    case ForkDone(c, p) =>
      var np := s.procs[p].pc.np;
      var t := Set(s, np, s.procs[np].(lock := None));
      Set(t, p, t.procs[p].(pc := ForkParent(np)))
    case ForkAdopt(c, p) =>
      var np := s.procs[p].pc.np;
      var t := Set(s, np, s.procs[np].(parent := Some(p)));
      Set(t, p, t.procs[p].(pc := ForkRun(np)))
    case ForkReady(c, p) =>
      var np := s.procs[p].pc.np;
      var t := Set(s, np, s.procs[np].(state := RUNNABLE));
      Set(t, p, t.procs[p].(pc := Kernel))
  }

  ghost function NextOther(s: State, l: Label): (t: State)
    requires Enabled(s, l) && OtherStep(l)
  {
    match l
    case WakeOne(c, p, q) => Set(s, q, s.procs[q].(state := RUNNABLE))
    case Kill(c, p, q) =>
      var r := s.procs[q];
      Set(s, q, r.(killed := true, state := if r.state.SLEEPING? then RUNNABLE else r.state))
    case ExitChild(c, p) =>
      var i := s.procs[p].pc.i;
      if |s.procs| <= i then Set(s, p, s.procs[p].(pc := ExitWakeParent(0)))
      else if s.procs[i].parent == Some(p) then
        var t := Set(s, i, s.procs[i].(parent := Some(INIT)));
        Set(t, p, t.procs[p].(pc := ExitWakeInit(i, 0)))
      else Set(s, p, s.procs[p].(pc := ExitReparent(i + 1)))
    case ExitWake(c, p) =>
      var i, j := s.procs[p].pc.i, s.procs[p].pc.j;
      if |s.procs| <= j then Set(s, p, s.procs[p].(pc := ExitReparent(i + 1)))
      else
        var t := if j == p then s else Set(s, j, Woken(s.procs[j], Self(INIT)));
        Set(t, p, t.procs[p].(pc := ExitWakeInit(i, j + 1)))
    case ExitNotify(c, p) =>
      var j := s.procs[p].pc.j;
      var t := if j == p || s.procs[p].parent.None? then s else Set(s, j,
          Woken(s.procs[j], Self(s.procs[p].parent.value)));
      Set(t, p, t.procs[p].(pc := ExitWakeParent(j + 1)))
    case WaitLook(c, p, fault) =>
      var i, kids := s.procs[p].pc.i, s.procs[p].pc.kids;
      if s.procs[i].parent != Some(p) then Set(s, p, s.procs[p].(pc := WaitScan(i + 1, kids)))
      else if !s.procs[i].state.ZOMBIE? then Set(s, p, s.procs[p].(pc := WaitScan(i + 1, true)))
      else if fault then Set(s, p, s.procs[p].(pc := Kernel)).(wlock := None)
      else
        var t := Set(s, i, FreeProc(s.procs[i]));
        Set(t, p, t.procs[p].(pc := Kernel)).(wlock := None)
  }

  ghost function Next(s: State, l: Label): (t: State)
    requires Enabled(s, l)
  {
    if CpuStep(l) then NextCpu(s, l)
    else if OwnStep(l) then NextOwn(s, l)
    else if ForkStep(l) then NextFork(s, l)
    else NextOther(s, l)
  }

  // After userinit(): the first process is runnable, the others unused.
  ghost predicate Init(s: State) {
    && Well(s) && s.wlock.None?
    && s.procs[INIT] == Process(RUNNABLE, None, NoChan, false, None, Start)
    && (forall p :: 0 < p < |s.procs| ==> s.procs[p] == Process(UNUSED, None, NoChan, false, None, Start))
    && (forall p :: 0 <= p < |s.on| ==> s.on[p].None?)
    && (forall c :: 0 <= c < |s.cpus| ==> s.cpus[c] == Cpu(None, false))
  }

  ghost predicate Follows(s: State, l: Label, t: State) {
    Enabled(s, l) && t == Next(s, l)
  }

  ghost predicate IsRun(ss: seq<State>, ls: seq<Label>) {
    && |ss| == |ls| + 1 && Init(ss[0])
    && forall i :: 0 <= i < |ls| ==> Follows(ss[i], ls[i], ss[i + 1])
  }

  // ---- invariants

  // What a process will do once it has its CPU back.
  function Goal(pc: Pc): Pc {
    if pc.YieldSched? || pc.YieldBack? then pc.ret else pc
  }

  predicate Forking(pc: Pc) {
    pc.ForkFill? || pc.ForkParent? || pc.ForkRun?
  }

  predicate HoldsWait(pc: Pc) {
    pc.ExitReparent? || pc.ExitWakeInit? || pc.ExitWakeParent? || pc.WaitScan?
  }

  predicate Asleep(p: nat, r: Process) {
    r.state.SLEEPING? && ((r.pc.SleepBack? && r.chan.Other?) || (r.pc.WaitBack? && r.chan == Self(p)))
  }

  // State and pc of a process that is on no CPU.
  predicate Resting(p: nat, r: Process) {
    match r.state
    case UNUSED => r.pc.Start? || r.pc.Dead?
    case USED => r.pc.Start?
    case RUNNABLE => AtBack(r.pc)
    case SLEEPING => Asleep(p, r)
    case ZOMBIE => r.pc.Dead?
    case RUNNING => false
  }

  // ... that has switched to its CPU's scheduler.
  predicate Switched(p: nat, r: Process) {
    || (r.state.RUNNABLE? && r.pc.YieldBack?)
    || Asleep(p, r)
    || (r.state.ZOMBIE? && r.pc.Dead?)
  }

  // ... that is executing.
  predicate Executing(p: nat, r: Process, lock: Option<nat>) {
    if AtSched(r.pc) then
      && r.lock == lock
      && (r.pc.YieldSched? ==> r.state.RUNNABLE?)
      && (r.pc.SleepSched? ==> r.state.SLEEPING? && r.chan.Other?)
      && (r.pc.WaitSched? ==> r.state.SLEEPING? && r.chan == Self(p))
      && (r.pc.ExitSched? ==> r.state.ZOMBIE?)
    else if AtBack(r.pc) then r.lock == lock && r.state.RUNNING?
    else r.lock.None? && r.state.RUNNING? && !r.pc.Dead?
  }

  ghost predicate ProcOk(s: State, p: nat)
    requires Well(s) && p < |s.procs|
  {
    var r, o := s.procs[p], s.on[p];
    && (r.pc.YieldSched? || r.pc.YieldBack? ==> Preemptible(r.pc.ret))
    && (o.Some? ==> o.value < |s.cpus| && s.cpus[o.value].proc == Some(p))
    && (if o.None? then Resting(p, r)
        else if !s.cpus[o.value].inside then r.lock == o && Switched(p, r)
        else Executing(p, r, o))
    && (r.lock.Some? ==> r.lock == o || (r.state.USED? && o.None?))
    && (r.state.UNUSED? ==> r.parent.None?)
  }

  ghost predicate CpuOk(s: State, c: nat)
    requires Well(s) && c < |s.cpus|
  {
    && (s.cpus[c].proc.Some? ==> s.cpus[c].proc.value < |s.procs| && s.on[s.cpus[c].proc.value] == Some(c))
    && (s.cpus[c].proc.None? ==> !s.cpus[c].inside)
  }

  // f is forking np.
  ghost predicate ForkOk(s: State, f: nat)
    requires Well(s) && f < |s.procs|
  {
    var g := Goal(s.procs[f].pc);
    Forking(g) ==>
      && g.np < |s.procs| && g.np != f && s.procs[g.np].state.USED? && s.forker[g.np] == f && s.on[g.np].None?
      && (g.ForkFill? ==> s.on[f].Some? && s.procs[g.np].lock == s.on[f])
      && (!g.ForkFill? ==> s.procs[g.np].lock.None?)
      && (!g.ForkRun? ==> s.procs[g.np].parent.None?)
      && (g.ForkRun? ==> s.procs[g.np].parent.Some?)
  }

  ghost predicate UsedOk(s: State, p: nat)
    requires Well(s) && p < |s.procs|
  {
    s.procs[p].state.USED? ==>
      s.forker[p] < |s.procs| && Forking(Goal(s.procs[s.forker[p]].pc)) && Goal(s.procs[s.forker[p]].pc).np == p
  }

  ghost predicate WaitOk(s: State)
    requires Well(s)
  {
    s.wlock.Some? ==>
      && s.wlock.value < |s.cpus| && s.cpus[s.wlock.value].proc.Some? && s.cpus[s.wlock.value].inside
      && s.cpus[s.wlock.value].proc.value < |s.procs|
      && HoldsWait(s.procs[s.cpus[s.wlock.value].proc.value].pc)
  }

  ghost predicate HoldOk(s: State, p: nat)
    requires Well(s) && p < |s.procs|
  {
    HoldsWait(s.procs[p].pc) ==> s.on[p].Some? && s.wlock == s.on[p]
  }

  predicate Alive(r: Process) {
    r.state.RUNNABLE? || r.state.RUNNING? || r.state.SLEEPING?
  }

  // A parent is alive; every process that has started has one, except init.
  ghost predicate ParentOk(s: State, p: nat)
    requires Well(s) && p < |s.procs|
  {
    var r := s.procs[p];
    && (r.parent.Some? ==>
          p != INIT && r.parent.value != p && r.parent.value < |s.procs| && Alive(s.procs[r.parent.value]))
    && (p != INIT && (Alive(r) || r.state.ZOMBIE?) ==> r.parent.Some?)
    && (r.state.UNUSED? ==> r.parent.None?)
    && (p == INIT ==> Alive(r))
  }

  // Children below n have been handed over.
  ghost predicate Childless(s: State, p: nat, n: nat) {
    forall x :: 0 <= x < |s.procs| && x < n ==> s.procs[x].parent != Some(p)
  }

  predicate SleepsInWait(s: State, q: nat) {
    q < |s.procs| && s.procs[q].state.SLEEPING? && s.procs[q].chan == Self(q)
  }

  ghost predicate ExitOk(s: State, p: nat)
    requires Well(s) && p < |s.procs|
  {
    var pc := s.procs[p].pc;
    && (pc.ExitReparent? ==> Childless(s, p, pc.i))
    && (pc.ExitWakeInit? ==> Childless(s, p, pc.i + 1))
    && (pc.ExitWakeParent? ==> Childless(s, p, |s.procs|))
    && (pc.ExitReparent? || pc.ExitWakeInit? || pc.ExitWakeParent? ==> p != INIT)
    && (pc.ExitWakeParent? && s.procs[p].parent.Some? && s.procs[p].parent.value < pc.j ==>
          !SleepsInWait(s, s.procs[p].parent.value))
  }

  // An exiting process that has yet to wake init.
  ghost predicate WillWakeInit(s: State) {
    && s.wlock.Some? && s.wlock.value < |s.cpus| && s.cpus[s.wlock.value].proc.Some?
    && s.cpus[s.wlock.value].proc.value < |s.procs|
    && var pc := s.procs[s.cpus[s.wlock.value].proc.value].pc;
       pc.ExitWakeInit? && pc.j <= INIT
  }

  // No sleeper in wait() has a zombie child, except init while it is being told.
  ghost predicate ZombieOk(s: State, p: nat)
    requires Well(s) && p < |s.procs|
  {
    s.procs[p].state.ZOMBIE? && s.procs[p].parent.Some? && SleepsInWait(s, s.procs[p].parent.value) ==>
      s.procs[p].parent.value == INIT && WillWakeInit(s)
  }

  ghost predicate ScanOk(s: State, p: nat)
    requires Well(s) && p < |s.procs|
  {
    s.procs[p].pc.WaitScan? ==>
      forall x :: 0 <= x < |s.procs| && x < s.procs[p].pc.i && s.procs[x].parent == Some(p) ==>
          !s.procs[x].state.ZOMBIE?
  }

  ghost predicate Placement(s: State)
    requires Well(s)
  {
    && (forall p {:trigger ProcOk(s, p)} :: 0 <= p < |s.procs| ==> ProcOk(s, p))
    && (forall c {:trigger CpuOk(s, c)} :: 0 <= c < |s.cpus| ==> CpuOk(s, c))
  }

  ghost predicate Forks(s: State)
    requires Well(s)
  {
    && (forall p {:trigger ForkOk(s, p)} :: 0 <= p < |s.procs| ==> ForkOk(s, p))
    && (forall p {:trigger UsedOk(s, p)} :: 0 <= p < |s.procs| ==> UsedOk(s, p))
  }

  ghost predicate WaitLock(s: State)
    requires Well(s)
  {
    WaitOk(s) && forall p {:trigger HoldOk(s, p)} :: 0 <= p < |s.procs| ==> HoldOk(s, p)
  }

  ghost predicate Family(s: State)
    requires Well(s)
  {
    && (forall p {:trigger ParentOk(s, p)} :: 0 <= p < |s.procs| ==> ParentOk(s, p))
    && (forall p {:trigger ExitOk(s, p)} :: 0 <= p < |s.procs| ==> ExitOk(s, p))
    && (forall p {:trigger ZombieOk(s, p)} :: 0 <= p < |s.procs| ==> ZombieOk(s, p))
    && (forall p {:trigger ScanOk(s, p)} :: 0 <= p < |s.procs| ==> ScanOk(s, p))
  }

  ghost predicate Inv(s: State) {
    Well(s) && Placement(s) && Forks(s) && WaitLock(s) && Family(s)
  }

  // ---- placement: which process is on which CPU

  lemma {:induction false} CpuProc(s: State, l: Label, t: State, x: nat)
    requires Well(s) && Placement(s) && Enabled(s, l) && CpuStep(l) && t == NextCpu(s, l) && Well(t) && x < |t.procs|
    ensures ProcOk(t, x)
  {
    assert ProcOk(s, x) && CpuOk(s, l.c);
    if s.cpus[l.c].proc.Some? {
      assert ProcOk(s, s.cpus[l.c].proc.value);
    }
  }

  lemma {:induction false} CpuCpu(s: State, l: Label, t: State, x: nat)
    requires Well(s) && Placement(s) && Enabled(s, l) && CpuStep(l) && t == NextCpu(s, l) && Well(t) && x < |t.cpus|
    ensures CpuOk(t, x)
  {
    assert CpuOk(s, x) && CpuOk(s, l.c);
    if l.Pick? {
      assert ProcOk(s, l.p);
    }
  }

  // The process besides p that a step changes.
  ghost function Target(s: State, l: Label): (q: nat)
    requires Enabled(s, l) && !CpuStep(l)
  {
    var pc := s.procs[l.p].pc;
    match l
    case WakeOne(_, _, q) => q
    case Kill(_, _, q) => q
    case ForkAlloc(_, _, np) => np
    case ForkFail(_, _) => pc.np
    case ForkDone(_, _) => pc.np
    case ForkAdopt(_, _) => pc.np
    case ForkReady(_, _) => pc.np
    case ExitChild(_, _) => pc.i
    case ExitWake(_, _) => pc.j
    case ExitNotify(_, _) => pc.j
    case WaitLook(_, _, _) => pc.i
    case _ => l.p
  }

  lemma {:induction false} OwnOnly(s: State, l: Label, t: State, x: nat)
    requires Enabled(s, l) && OwnStep(l) && t == NextOwn(s, l)
    ensures Well(t) && t.cpus == s.cpus && t.on == s.on && |t.procs| == |s.procs|
    ensures x < |s.procs| && x != l.p ==> t.procs[x] == s.procs[x]
  {
  }

  lemma {:induction false} ForkOnly(s: State, l: Label, t: State, x: nat)
    requires Enabled(s, l) && ForkStep(l) && t == NextFork(s, l)
    ensures Well(t) && t.cpus == s.cpus && t.on == s.on && |t.procs| == |s.procs| && t.wlock == s.wlock
    ensures x < |s.procs| && x != l.p && x != Target(s, l) ==> t.procs[x] == s.procs[x] && t.forker[x] == s.forker[x]
  {
  }

  lemma {:induction false} OtherOnly(s: State, l: Label, t: State, x: nat)
    requires Enabled(s, l) && OtherStep(l) && t == NextOther(s, l)
    ensures Well(t) && t.cpus == s.cpus && t.on == s.on && |t.procs| == |s.procs| && t.forker == s.forker
    ensures x < |s.procs| && x != l.p && x != Target(s, l) ==> t.procs[x] == s.procs[x]
  {
  }

  lemma {:induction false} OnlyTwo(s: State, l: Label, t: State, x: nat)
    requires Enabled(s, l) && !CpuStep(l) && t == Next(s, l)
    ensures Well(t) && t.cpus == s.cpus && t.on == s.on && |t.procs| == |s.procs|
    ensures x < |s.procs| && x != l.p && x != Target(s, l) ==> t.procs[x] == s.procs[x]
  {
    hide NextOwn, NextFork, NextOther, Enabled;
    if OwnStep(l) {
      OwnOnly(s, l, t, x);
    } else if ForkStep(l) {
      ForkOnly(s, l, t, x);
    } else {
      OtherOnly(s, l, t, x);
    }
  }

  lemma {:induction false} OwnEffect(s: State, l: Label, t: State)
    requires Enabled(s, l) && OwnStep(l) && t == NextOwn(s, l) && Executing(l.p, s.procs[l.p], Some(l.c))
    requires s.procs[l.p].pc.YieldBack? ==> Preemptible(s.procs[l.p].pc.ret)
    ensures Executing(l.p, t.procs[l.p], Some(l.c))
    ensures t.procs[l.p].pc.YieldSched? ==> Preemptible(t.procs[l.p].pc.ret)
    ensures !t.procs[l.p].pc.YieldBack?
    ensures t.procs[l.p].parent == s.procs[l.p].parent && t.forker == s.forker
    ensures Forking(Goal(t.procs[l.p].pc)) || Forking(Goal(s.procs[l.p].pc)) ==>
              Goal(t.procs[l.p].pc) == Goal(s.procs[l.p].pc)
  {
  }

  lemma {:induction false} OwnSelf(s: State, l: Label, t: State)
    requires Well(s) && Placement(s) && Enabled(s, l) && OwnStep(l) && t == NextOwn(s, l) && Well(t)
    ensures ProcOk(t, l.p)
  {
    EnabledP(s, l);
    OwnOnly(s, l, t, 0);
    assert ProcOk(s, l.p) && CpuOk(s, l.c);
    OwnEffect(s, l, t);
    hide Placement, Resting, Switched, NextOwn, Enabled, OwnStep;
  }

  lemma {:induction false} ForkEffect(s: State, l: Label, t: State)
    requires Enabled(s, l) && ForkStep(l) && t == NextFork(s, l)
    requires Executing(l.p, s.procs[l.p], Some(l.c)) && Target(s, l) != l.p
    ensures t.on == s.on && t.cpus == s.cpus && l.p < |t.procs|
    ensures t.procs[l.p] == s.procs[l.p].(pc := t.procs[l.p].pc) && s.procs[l.p].state.RUNNING?
    ensures Executing(l.p, t.procs[l.p], Some(l.c)) && t.procs[l.p].lock.None?
    ensures !t.procs[l.p].pc.YieldSched? && !t.procs[l.p].pc.YieldBack?
  {
  }

  lemma {:induction false} ForkApart(s: State, l: Label)
    requires Well(s) && Enabled(s, l) && ForkStep(l) && ProcOk(s, l.p) && CpuOk(s, l.c) && ForkOk(s, l.p)
    ensures Executing(l.p, s.procs[l.p], Some(l.c)) && Target(s, l) != l.p
    ensures s.on[l.p] == Some(l.c) && s.cpus[l.c].inside
  {
  }

  lemma {:induction false} ForkSelf(s: State, l: Label, t: State)
    requires Well(s) && Enabled(s, l) && ForkStep(l) && t == NextFork(s, l) && Well(t)
    requires ProcOk(s, l.p) && CpuOk(s, l.c) && ForkOk(s, l.p)
    ensures l.p < |t.procs| && ProcOk(t, l.p)
  {
    hide NextFork, Enabled, ForkStep, Executing, Resting, Switched, ForkOk;
    ForkApart(s, l);
    ForkEffect(s, l, t);
  }

  lemma {:induction false} ForkChild(s: State, l: Label, t: State, x: nat)
    requires Well(s) && Enabled(s, l) && ForkStep(l) && t == NextFork(s, l) && Well(t)
    requires x == Target(s, l) < |s.procs| && x != l.p && ProcOk(s, x) && ForkOk(s, l.p)
    ensures x < |t.procs| && ProcOk(t, x)
  {
  }

  lemma {:induction false} ForkProc(s: State, l: Label, t: State, x: nat)
    requires Well(s) && Placement(s) && Forks(s) && Enabled(s, l) && ForkStep(l) && t == NextFork(s, l) && Well(t)
    requires x < |t.procs|
    requires x == l.p || x == Target(s, l)
    ensures ProcOk(t, x)
  {
    hide NextFork, ProcOk, CpuOk, ForkOk;
    assert ProcOk(s, l.p) && CpuOk(s, l.c) && ForkOk(s, l.p);
    if x == l.p {
      ForkSelf(s, l, t);
    } else {
      ForkChild(s, l, t, x);
    }
  }

  // The process taking such a step goes on holding no process lock (or, by kill(), marks itself).
  lemma {:induction false} ExitSelfEffect(s: State, l: Label, t: State)
    requires Enabled(s, l) && (l.ExitChild? || l.ExitWake? || l.ExitNotify?) && t == NextOther(s, l)
    requires Executing(l.p, s.procs[l.p], Some(l.c))
    ensures l.p < |t.procs| && Executing(l.p, t.procs[l.p], Some(l.c)) && t.procs[l.p].lock.None?
    ensures !t.procs[l.p].pc.YieldSched? && !t.procs[l.p].pc.YieldBack?
    ensures !Forking(t.procs[l.p].pc) && !Forking(s.procs[l.p].pc)
  {
  }

  lemma {:induction false} WaitSelfEffect(s: State, l: Label, t: State)
    requires Enabled(s, l) && (l.WakeOne? || l.Kill? || l.WaitLook?) && t == NextOther(s, l)
    requires Executing(l.p, s.procs[l.p], Some(l.c))
    ensures l.p < |t.procs| && Executing(l.p, t.procs[l.p], Some(l.c)) && t.procs[l.p].lock.None?
    ensures !t.procs[l.p].pc.YieldSched? && !t.procs[l.p].pc.YieldBack?
    ensures !Forking(t.procs[l.p].pc) && !Forking(s.procs[l.p].pc)
  {
  }

  lemma {:induction false} OtherSelfEffect(s: State, l: Label, t: State)
    requires Enabled(s, l) && OtherStep(l) && t == NextOther(s, l) && Executing(l.p, s.procs[l.p], Some(l.c))
    ensures l.p < |t.procs| && Executing(l.p, t.procs[l.p], Some(l.c)) && t.procs[l.p].lock.None?
    ensures !t.procs[l.p].pc.YieldSched? && !t.procs[l.p].pc.YieldBack?
    ensures !Forking(t.procs[l.p].pc) && !Forking(s.procs[l.p].pc)
  {
    hide NextOther, Enabled, Executing, Forking;
    if l.ExitChild? || l.ExitWake? || l.ExitNotify? {
      ExitSelfEffect(s, l, t);
    } else {
      WaitSelfEffect(s, l, t);
    }
  }

  lemma {:induction false} OtherSelf(s: State, l: Label, t: State)
    requires Well(s) && Placement(s) && Enabled(s, l) && OtherStep(l) && t == NextOther(s, l) && Well(t)
    ensures ProcOk(t, l.p)
  {
    EnabledP(s, l);
    OtherOnly(s, l, t, 0);
    assert CpuOk(s, l.c) && ProcOk(s, l.p);
    OtherSelfEffect(s, l, t);
    hide Placement, Resting, Switched, NextOther, Enabled, OtherStep;
  }

  // What becomes of the other one: woken, marked killed, given to init, or freed.
  ghost predicate Touched(r: Process, r': Process) {
    || (r.lock.None? && r.state.SLEEPING? && r' == r.(state := RUNNABLE))
    || (r.lock.None? && r' == r.(killed := true, state := if r.state.SLEEPING? then RUNNABLE else r.state))
    || r' == r
    || (r.parent.Some? && r' == r.(parent := Some(INIT)))
    || (r.lock.None? && r.state.ZOMBIE? && r' == FreeProc(r))
  }

  lemma {:induction false} OtherTargetEffect(s: State, l: Label, t: State, x: nat)
    requires Enabled(s, l) && OtherStep(l) && t == NextOther(s, l) && x == Target(s, l) < |s.procs| && x != l.p
    ensures Touched(s.procs[x], t.procs[x])
  {
  }

  lemma {:induction false} OtherTarget(s: State, l: Label, t: State, x: nat)
    requires Well(s) && Placement(s) && Enabled(s, l) && OtherStep(l) && t == NextOther(s, l) && Well(t)
    requires x == Target(s, l) < |s.procs| && x != l.p
    ensures ProcOk(t, x)
  {
    OtherOnly(s, l, t, x);
    OtherTargetEffect(s, l, t, x);
    assert ProcOk(s, x);
    hide Placement, NextOther, Enabled, OtherStep;
  }

  lemma {:induction false} StepProc(s: State, l: Label, t: State, x: nat)
    requires Well(s) && Placement(s) && Forks(s) && Enabled(s, l) && t == Next(s, l) && Well(t) && x < |t.procs|
    ensures ProcOk(t, x)
  {
    hide NextCpu, NextOwn, NextFork, NextOther, Enabled, CpuOk, Forks;
    if CpuStep(l) {
      CpuProc(s, l, t, x);
    } else {
      OnlyTwo(s, l, t, x);
      EnabledP(s, l);
      if OwnStep(l) && x == l.p {
        OwnSelf(s, l, t);
      } else if ForkStep(l) && (x == l.p || x == Target(s, l)) {
        ForkProc(s, l, t, x);
      } else if OtherStep(l) && x == l.p {
        OtherSelf(s, l, t);
      } else if OtherStep(l) && x == Target(s, l) {
        OtherTarget(s, l, t, x);
      } else {
        if OwnStep(l) {
          OwnTarget(s, l);
        }
        assert ProcOk(s, x) && t.procs[x] == s.procs[x];
      }
    }
  }

  lemma {:induction false} OwnTarget(s: State, l: Label)
    requires Enabled(s, l) && OwnStep(l)
    ensures Target(s, l) == l.p
  {
  }

  lemma {:induction false} EnabledP(s: State, l: Label)
    requires Enabled(s, l) && !CpuStep(l)
    ensures l.p < |s.procs| && Exec(s, l.c, l.p)
  {
  }

  lemma {:induction false} StepPlacement(s: State, l: Label, t: State)
    requires Well(s) && Placement(s) && Forks(s) && Enabled(s, l) && t == Next(s, l)
    ensures Well(t) && Placement(t)
  {
    hide NextCpu, NextOwn, NextFork, NextOther, Enabled, CpuOk, Forks, ProcOk;
    if CpuStep(l) {
      CpuWell(s, l, t);
      forall x | 0 <= x < |t.cpus|
        ensures CpuOk(t, x)
      {
        CpuCpu(s, l, t, x);
      }
    } else {
      OnlyTwo(s, l, t, 0);
      forall x | 0 <= x < |t.cpus|
        ensures CpuOk(t, x)
      {
        assert CpuOk(s, x);
        SameCpu(s, t, x);
      }
    }
    forall x | 0 <= x < |t.procs|
      ensures ProcOk(t, x)
    {
      StepProc(s, l, t, x);
    }
  }

  lemma {:induction false} CpuWell(s: State, l: Label, t: State)
    requires Enabled(s, l) && CpuStep(l) && t == NextCpu(s, l)
    ensures Well(t)
  {
  }

  lemma {:induction false} SameCpu(s: State, t: State, x: nat)
    requires Well(s) && Well(t) && t.cpus == s.cpus && t.on == s.on && |t.procs| == |s.procs| && x < |s.cpus|
    requires CpuOk(s, x)
    ensures CpuOk(t, x)
  {
  }

  // ---- forks in progress

  lemma {:induction false} ForksCpu(s: State, l: Label, t: State, f: nat)
    requires Well(s) && Placement(s) && Forks(s) && Enabled(s, l) && CpuStep(l) && t == NextCpu(s, l) && f < |s.procs|
    ensures Well(t) && ForkOk(t, f) && UsedOk(t, f)
  {
    assert CpuOk(s, l.c) && ForkOk(s, f) && UsedOk(s, f) && ProcOk(s, f);
    if s.procs[f].state.USED? {
      assert ForkOk(s, s.forker[f]);
    }
    if s.cpus[l.c].proc.Some? {
      assert ProcOk(s, s.cpus[l.c].proc.value);
    }
    hide Placement, Forks;
  }

  // What a process's own step leaves alone, as far as forks go.
  ghost predicate OwnForks(s: State, p: nat, t: State)
    requires Well(s) && Well(t) && p < |s.procs| == |t.procs|
  {
    && t.on == s.on && t.forker == s.forker && s.on[p].Some?
    && t.procs[p].parent == s.procs[p].parent && !s.procs[p].state.USED? && !t.procs[p].state.USED?
    && (Forking(Goal(t.procs[p].pc)) || Forking(Goal(s.procs[p].pc)) ==> Goal(t.procs[p].pc) == Goal(s.procs[p].pc))
    && (forall x :: 0 <= x < |s.procs| && x != p ==> t.procs[x] == s.procs[x])
  }

  lemma {:induction false} OwnForksHold(s: State, l: Label, t: State)
    requires Well(s) && Placement(s) && Enabled(s, l) && OwnStep(l) && t == NextOwn(s, l)
    ensures Well(t) && l.p < |s.procs| == |t.procs| && OwnForks(s, l.p, t)
  {
    hide NextOwn, Enabled, Resting, Switched;
    EnabledP(s, l);
    assert CpuOk(s, l.c) && ProcOk(s, l.p);
    OwnEffect(s, l, t);
    OwnOnly(s, l, t, l.p);
    forall x | 0 <= x < |s.procs| && x != l.p
      ensures t.procs[x] == s.procs[x]
    {
      OwnOnly(s, l, t, x);
    }
  }

  lemma {:induction false} ForksOwn(s: State, l: Label, t: State, f: nat)
    requires Well(s) && Placement(s) && Forks(s) && Enabled(s, l) && OwnStep(l) && t == NextOwn(s, l) && f < |s.procs|
    ensures Well(t) && ForkOk(t, f) && UsedOk(t, f)
  {
    hide NextOwn, Enabled, OwnStep, Placement;
    OwnForksHold(s, l, t);
    assert ForkOk(s, f) && UsedOk(s, f);
  }

  lemma {:induction false} ForksAlloc(s: State, l: Label, t: State, f: nat)
    requires Well(s) && Placement(s) && Forks(s) && Enabled(s, l) && l.ForkAlloc? && t == NextFork(s, l)
    requires f < |s.procs|
    ensures Well(t) && ForkOk(t, f) && UsedOk(t, f)
  {
    assert CpuOk(s, l.c) && ForkOk(s, f) && UsedOk(s, f) && ProcOk(s, l.p) && ProcOk(s, l.np);
    hide Placement, Forks;
  }

  lemma {:induction false} ForksForkSelf(s: State, l: Label, t: State)
    requires Well(s) && Placement(s) && Forks(s) && Enabled(s, l) && ForkStep(l) && !l.ForkAlloc? && t == NextFork(s, l)
    ensures Well(t) && ForkOk(t, l.p)
  {
    assert CpuOk(s, l.c) && ForkOk(s, l.p) && ProcOk(s, l.p);
    hide Placement, Forks, Resting, Switched, Executing;
  }

  lemma {:induction false} ForksFork(s: State, l: Label, t: State, f: nat)
    requires Well(s) && Placement(s) && Forks(s) && Enabled(s, l) && ForkStep(l) && !l.ForkAlloc?
    requires t == NextFork(s, l) && f < |s.procs|
    ensures Well(t) && ForkOk(t, f)
  {
    EnabledP(s, l);
    if f == l.p {
      ForksForkSelf(s, l, t);
    } else {
      var np := Target(s, l);
      assert ForkOk(s, f) && ForkOk(s, l.p) && s.forker[np] == l.p;
      ForkOnly(s, l, t, f);
      if f == np {
        assert ProcOk(s, f);
        ForkTargetPc(s, l, t);
      } else if Forking(Goal(s.procs[f].pc)) {
        ForkOnly(s, l, t, Goal(s.procs[f].pc).np);
      }
      hide NextFork, Enabled, Placement, Forks, ForkStep;
    }
  }

  lemma {:induction false} ForkTargetPc(s: State, l: Label, t: State)
    requires Enabled(s, l) && ForkStep(l) && !l.ForkAlloc? && t == NextFork(s, l) && l.p != Target(s, l)
    ensures Target(s, l) < |s.procs| == |t.procs| && t.procs[Target(s, l)].pc == s.procs[Target(s, l)].pc
  {
  }

  lemma {:induction false} ForksUsed(s: State, l: Label, t: State, f: nat)
    requires Well(s) && Placement(s) && Forks(s) && Enabled(s, l) && ForkStep(l) && !l.ForkAlloc?
    requires t == NextFork(s, l) && f < |s.procs|
    ensures Well(t) && UsedOk(t, f)
  {
    assert UsedOk(s, f) && ForkOk(s, l.p);
    hide Placement, Forks;
  }

  lemma {:induction false} ForksOther(s: State, l: Label, t: State, f: nat)
    requires Well(s) && Placement(s) && Forks(s) && Enabled(s, l) && OtherStep(l) && t == NextOther(s, l)
    requires f < |s.procs|
    ensures Well(t) && ForkOk(t, f) && UsedOk(t, f)
  {
    EnabledP(s, l);
    assert CpuOk(s, l.c) && ForkOk(s, f) && UsedOk(s, f) && ProcOk(s, l.p);
    OtherSelfEffect(s, l, t);
    OtherAt(s, l, t, f);
    OtherAt(s, l, t, s.forker[f]);
    var g := Goal(s.procs[f].pc);
    if Forking(g) {
      OtherAt(s, l, t, g.np);
    }
    hide Placement, Forks, NextOther, Enabled, OtherStep, Touched, Resting, Switched;
  }

  // Any process but the one taking the step.
  lemma {:induction false} OtherAt(s: State, l: Label, t: State, x: nat)
    requires Enabled(s, l) && OtherStep(l) && t == NextOther(s, l)
    ensures Well(t) && t.cpus == s.cpus && t.on == s.on && |t.procs| == |s.procs| && t.forker == s.forker
    ensures x < |s.procs| && x != l.p ==> Touched(s.procs[x], t.procs[x])
    ensures x < |s.procs| && x != l.p ==>
              && t.procs[x].pc == s.procs[x].pc && t.procs[x].lock == s.procs[x].lock
              && t.procs[x].state.USED? == s.procs[x].state.USED?
              && (s.procs[x].state.USED? ==> t.procs[x].parent.Some? == s.procs[x].parent.Some?)
  {
    OtherOnly(s, l, t, x);
    if x < |s.procs| && x != l.p && x == Target(s, l) {
      OtherTargetEffect(s, l, t, x);
    }
    hide NextOther, Enabled, OtherStep;
  }

  lemma {:induction false} StepForks(s: State, l: Label, t: State)
    requires Well(s) && Placement(s) && Forks(s) && Enabled(s, l) && t == Next(s, l)
    ensures Well(t) && Forks(t)
  {
    hide NextCpu, NextOwn, NextFork, NextOther, Enabled, Placement, ForkOk, UsedOk;
    StepPlacement(s, l, t);
    SameCount(s, l, t);
    forall f | 0 <= f < |t.procs|
      ensures ForkOk(t, f) && UsedOk(t, f)
    {
      if CpuStep(l) {
        ForksCpu(s, l, t, f);
      } else if OwnStep(l) {
        ForksOwn(s, l, t, f);
      } else if l.ForkAlloc? {
        ForksAlloc(s, l, t, f);
      } else if ForkStep(l) {
        ForksFork(s, l, t, f);
        ForksUsed(s, l, t, f);
      } else {
        ForksOther(s, l, t, f);
      }
    }
  }

  lemma {:induction false} SameCount(s: State, l: Label, t: State)
    requires Enabled(s, l) && t == Next(s, l)
    ensures |t.procs| == |s.procs|
  {
    if !CpuStep(l) {
      OnlyTwo(s, l, t, 0);
    }
  }

  // ---- wait_lock

  /** wait_lock has one holder. */
  lemma {:induction false} SoleHolder(s: State, p: nat, q: nat)
    requires Well(s) && Placement(s) && WaitLock(s) && p < |s.procs| && q < |s.procs|
    requires HoldsWait(s.procs[p].pc) && HoldsWait(s.procs[q].pc)
    ensures p == q
  {
    assert HoldOk(s, p) && HoldOk(s, q) && ProcOk(s, p) && ProcOk(s, q);
  }

  lemma {:induction false} WaitCpu(s: State, l: Label, t: State)
    requires Well(s) && Placement(s) && WaitLock(s) && Enabled(s, l) && CpuStep(l) && t == NextCpu(s, l) && Well(t)
    ensures WaitLock(t)
  {
    assert CpuOk(s, l.c);
    if s.wlock.Some? {
      assert CpuOk(s, s.wlock.value) && ProcOk(s, s.cpus[s.wlock.value].proc.value);
    }
    if s.cpus[l.c].proc.Some? {
      assert ProcOk(s, s.cpus[l.c].proc.value);
    }
    if l.Pick? {
      assert ProcOk(s, l.p);
    }
    forall x | 0 <= x < |t.procs|
      ensures HoldOk(t, x)
    {
      assert HoldOk(s, x) && ProcOk(s, x);
    }
  }

  // Steps of a process that neither holds, takes nor gives up wait_lock.
  lemma {:induction false} WaitUnmoved(s: State, p: nat, t: State)
    requires Well(s) && Placement(s) && WaitLock(s) && Well(t) && p < |s.procs| == |t.procs|
    requires t.cpus == s.cpus && t.on == s.on && t.wlock == s.wlock
    requires forall x :: 0 <= x < |s.procs| ==>
               t.procs[x].pc == s.procs[x].pc || HoldsWait(t.procs[x].pc) == HoldsWait(s.procs[x].pc)
    ensures WaitLock(t)
  {
    forall x | 0 <= x < |t.procs|
      ensures HoldOk(t, x)
    {
      assert HoldOk(s, x);
    }
  }

  // A process takes wait_lock.
  lemma {:induction false} WaitTaken(s: State, c: nat, p: nat, t: State)
    requires Well(s) && Placement(s) && WaitLock(s) && Exec(s, c, p) && s.wlock.None?
    requires Well(t) && |t.procs| == |s.procs| && t.cpus == s.cpus && t.on == s.on && t.wlock == Some(c)
    requires HoldsWait(t.procs[p].pc)
    requires forall x :: 0 <= x < |s.procs| && x != p ==> t.procs[x].pc == s.procs[x].pc
    ensures WaitLock(t)
  {
    assert CpuOk(s, c);
    forall x | 0 <= x < |t.procs|
      ensures HoldOk(t, x)
    {
      assert HoldOk(s, x);
    }
  }

  // The holder gives wait_lock up.
  lemma {:induction false} WaitGiven(s: State, c: nat, p: nat, t: State)
    requires Well(s) && Placement(s) && WaitLock(s) && Exec(s, c, p) && HoldsWait(s.procs[p].pc)
    requires Well(t) && |t.procs| == |s.procs| && t.cpus == s.cpus && t.on == s.on && t.wlock.None?
    requires !HoldsWait(t.procs[p].pc)
    requires forall x :: 0 <= x < |s.procs| && x != p ==> t.procs[x].pc == s.procs[x].pc
    ensures WaitLock(t)
  {
    forall x | 0 <= x < |t.procs|
      ensures HoldOk(t, x)
    {
      if HoldsWait(s.procs[x].pc) {
        SoleHolder(s, p, x);
      }
    }
  }

  lemma {:induction false} WaitOwn(s: State, l: Label, t: State)
    requires Well(s) && Placement(s) && WaitLock(s) && Enabled(s, l) && OwnStep(l) && t == NextOwn(s, l) && Well(t)
    ensures WaitLock(t)
  {
    EnabledP(s, l);
    forall x | 0 <= x < |s.procs| && x != l.p
      ensures t.procs[x].pc == s.procs[x].pc
    {
      OwnOnly(s, l, t, x);
    }
    OwnOnly(s, l, t, 0);
    assert ProcOk(s, l.p);
    hide Placement, WaitLock;
    if l.ExitBegin? || l.WaitBegin? {
      WaitTaken(s, l.c, l.p, t);
    } else if l.ExitZombie? || l.WaitEnd? {
      WaitGiven(s, l.c, l.p, t);
    } else {
      WaitUnmoved(s, l.p, t);
    }
  }

  lemma {:induction false} ForkTarget(s: State, l: Label)
    requires Well(s) && Enabled(s, l) && ForkStep(l)
    ensures Target(s, l) < |s.procs|
  {
  }

  // Neither the forking process nor the new one holds wait_lock.
  lemma {:induction false} ForkWaits(s: State, l: Label, t: State)
    requires Well(s) && Enabled(s, l) && ForkStep(l) && t == NextFork(s, l) && Well(t) && |t.procs| == |s.procs|
    requires Target(s, l) < |s.procs| && ForkOk(s, l.p) && ProcOk(s, Target(s, l))
    ensures !HoldsWait(s.procs[Target(s, l)].pc) && !HoldsWait(t.procs[Target(s, l)].pc)
    ensures HoldsWait(t.procs[l.p].pc) == HoldsWait(s.procs[l.p].pc)
  {
  }

  lemma {:induction false} WaitFork(s: State, l: Label, t: State)
    requires Well(s) && Placement(s) && Forks(s) && WaitLock(s) && Enabled(s, l) && ForkStep(l) && t == NextFork(s, l)
    requires Well(t)
    ensures WaitLock(t)
  {
    hide NextFork, Enabled, WaitLock, ProcOk, CpuOk, ForkOk, HoldsWait;
    EnabledP(s, l);
    var np := Target(s, l);
    assert ForkOk(s, l.p);
    ForkTarget(s, l);
    assert ProcOk(s, np);
    ForkOnly(s, l, t, 0);
    ForkWaits(s, l, t);
    forall x | 0 <= x < |s.procs| && x != l.p && x != np
      ensures t.procs[x].pc == s.procs[x].pc
    {
      ForkOnly(s, l, t, x);
    }
    WaitUnmoved(s, l.p, t);
  }

  lemma {:induction false} WaitOther(s: State, l: Label, t: State)
    requires Well(s) && Placement(s) && WaitLock(s) && Enabled(s, l) && OtherStep(l) && t == NextOther(s, l) && Well(t)
    ensures WaitLock(t)
  {
    EnabledP(s, l);
    forall x | 0 <= x < |s.procs| && x != l.p
      ensures t.procs[x].pc == s.procs[x].pc
    {
      OtherAt(s, l, t, x);
    }
    OtherOnly(s, l, t, 0);
    assert HoldOk(s, l.p);
    hide Placement, WaitLock;
    OtherWlock(s, l, t);
    hide NextOther, Enabled, OtherStep;
    if t.wlock == s.wlock {
      WaitUnmoved(s, l.p, t);
    } else {
      WaitGiven(s, l.c, l.p, t);
    }
  }

  lemma {:induction false} OtherWlock(s: State, l: Label, t: State)
    requires Enabled(s, l) && OtherStep(l) && t == NextOther(s, l)
    ensures t.wlock == s.wlock ==> HoldsWait(t.procs[l.p].pc) == HoldsWait(s.procs[l.p].pc) || s.wlock.None?
    ensures HoldsWait(t.procs[l.p].pc) ==> HoldsWait(s.procs[l.p].pc)
    ensures t.wlock != s.wlock ==> t.wlock.None? && HoldsWait(s.procs[l.p].pc) && !HoldsWait(t.procs[l.p].pc)
  {
  }

  lemma {:induction false} StepWaitLock(s: State, l: Label, t: State)
    requires Well(s) && Placement(s) && Forks(s) && WaitLock(s) && Enabled(s, l) && t == Next(s, l)
    ensures Well(t) && WaitLock(t)
  {
    hide NextCpu, NextOwn, NextFork, NextOther, Enabled, Placement, Forks, WaitLock;
    StepPlacement(s, l, t);
    if CpuStep(l) {
      WaitCpu(s, l, t);
    } else if OwnStep(l) {
      WaitOwn(s, l, t);
    } else if ForkStep(l) {
      WaitFork(s, l, t);
    } else {
      WaitOther(s, l, t);
    }
  }

  // ---- parents and children

  // One process over a step that moves no parent, ends no life and puts nobody to sleep in wait().
  ghost predicate QuietAt(s: State, t: State, x: nat)
    requires Well(s) && Well(t) && x < |s.procs| == |t.procs|
  {
    var r, r' := s.procs[x], t.procs[x];
    && r'.parent == r.parent && (Alive(r) ==> Alive(r')) && (Alive(r') ==> Alive(r) || r.parent.Some?)
    && r'.state.ZOMBIE? == r.state.ZOMBIE? && (r'.state.UNUSED? ==> r.parent.None?)
    && (SleepsInWait(t, x) ==> SleepsInWait(s, x))
    && (HoldsWait(r'.pc) && r'.pc != r.pc ==> (r'.pc == ExitReparent(0) && x != INIT) || r'.pc == WaitScan(0, false))
  }

  lemma {:induction false} QuietFamily(s: State, t: State)
    requires Well(s) && Well(t) && |t.procs| == |s.procs| && Family(s)
    requires forall x {:trigger QuietAt(s, t, x)} :: 0 <= x < |s.procs| ==> QuietAt(s, t, x)
    requires WillWakeInit(s) ==> WillWakeInit(t)
    ensures Family(t)
  {
    forall x | 0 <= x < |t.procs|
      ensures ParentOk(t, x) && ZombieOk(t, x)
    {
      assert QuietAt(s, t, x) && ParentOk(s, x) && ZombieOk(s, x);
      if s.procs[x].parent.Some? {
        assert QuietAt(s, t, s.procs[x].parent.value);
      }
    }
    hide WillWakeInit, ParentOk, ZombieOk;
    forall x | 0 <= x < |t.procs|
      ensures ExitOk(t, x) && ScanOk(t, x)
    {
      QuietExit(s, t, x);
    }
  }

  lemma {:induction false} QuietExit(s: State, t: State, x: nat)
    requires Well(s) && Well(t) && x < |t.procs| == |s.procs| && Family(s)
    requires forall x {:trigger QuietAt(s, t, x)} :: 0 <= x < |s.procs| ==> QuietAt(s, t, x)
    ensures ExitOk(t, x) && ScanOk(t, x)
  {
    assert QuietAt(s, t, x) && ExitOk(s, x) && ScanOk(s, x) && ParentOk(s, x);
    if s.procs[x].parent.Some? {
      assert QuietAt(s, t, s.procs[x].parent.value);
    }
    forall y | 0 <= y < |s.procs|
      ensures t.procs[y].parent == s.procs[y].parent && t.procs[y].state.ZOMBIE? == s.procs[y].state.ZOMBIE?
    {
      assert QuietAt(s, t, y);
    }
    hide Family, QuietAt, WillWakeInit;
  }

  predicate QuietStep(l: Label) {
    || CpuStep(l) || l.Resume? || l.Preempt? || l.SleepOn? || l.ExitBegin? || l.WaitBegin?
    || l.ForkAlloc? || l.ForkFail? || l.ForkDone? || l.ForkReady? || l.WakeOne? || l.Kill?
  }

  lemma {:induction false} CpuQuiet(s: State, l: Label, t: State, x: nat)
    requires Well(s) && Placement(s) && Enabled(s, l) && CpuStep(l) && t == NextCpu(s, l) && Well(t)
    requires x < |s.procs| == |t.procs|
    ensures QuietAt(s, t, x) && (WillWakeInit(s) ==> WillWakeInit(t))
  {
    assert CpuOk(s, l.c) && ProcOk(s, x);
    if l.Pick? {
      assert ProcOk(s, l.p);
    } else {
      assert ProcOk(s, s.cpus[l.c].proc.value);
    }
    hide Placement;
  }

  lemma {:induction false} OwnQuiet(s: State, l: Label, t: State, x: nat)
    requires Well(s) && Placement(s) && Enabled(s, l) && OwnStep(l) && QuietStep(l) && t == NextOwn(s, l) && Well(t)
    requires x < |s.procs| == |t.procs|
    ensures QuietAt(s, t, x) && (WillWakeInit(s) ==> WillWakeInit(t))
  {
    EnabledP(s, l);
    assert CpuOk(s, l.c) && ProcOk(s, l.p) && ProcOk(s, x);
    OwnQuietSelf(s, l, t);
    OwnOnly(s, l, t, x);
    if WillWakeInit(s) {
      OwnOnly(s, l, t, s.cpus[s.wlock.value].proc.value);
    }
    hide Placement, Resting, Switched, NextOwn, Enabled, OwnStep;
  }

  lemma {:induction false} OwnQuietSelf(s: State, l: Label, t: State)
    requires Well(s) && Enabled(s, l) && OwnStep(l) && QuietStep(l) && t == NextOwn(s, l) && Well(t)
    requires |s.procs| == |t.procs|
    requires Executing(l.p, s.procs[l.p], Some(l.c)) && !s.procs[l.p].state.UNUSED?
    requires s.procs[l.p].pc.YieldBack? ==> Preemptible(s.procs[l.p].pc.ret)
    ensures QuietAt(s, t, l.p) && (s.wlock.Some? ==> t.wlock == s.wlock) && !s.procs[l.p].pc.ExitWakeInit?
  {
  }

  lemma {:induction false} ForkQuietSelf(s: State, l: Label, t: State)
    requires Well(s) && Placement(s) && Forks(s) && Enabled(s, l) && ForkStep(l) && QuietStep(l) && t == NextFork(s, l)
    requires Well(t)
    requires l.p < |s.procs| == |t.procs|
    ensures QuietAt(s, t, l.p)
  {
    assert CpuOk(s, l.c) && ProcOk(s, l.p) && ForkOk(s, l.p);
    hide Placement, Forks, Switched;
  }

  lemma {:induction false} ForkQuietTarget(s: State, l: Label, t: State)
    requires Well(s) && Placement(s) && Forks(s) && Enabled(s, l) && ForkStep(l) && QuietStep(l) && t == NextFork(s, l)
    requires Well(t)
    requires Target(s, l) < |s.procs| == |t.procs|
    ensures QuietAt(s, t, Target(s, l))
  {
    assert CpuOk(s, l.c) && ProcOk(s, l.p) && ForkOk(s, l.p) && ProcOk(s, Target(s, l));
    hide Placement, Forks, Switched;
  }

  lemma {:induction false} ForkQuiet(s: State, l: Label, t: State, x: nat)
    requires Well(s) && Placement(s) && Forks(s) && Enabled(s, l) && ForkStep(l) && QuietStep(l) && t == NextFork(s, l)
    requires Well(t)
    requires x < |s.procs| == |t.procs|
    ensures QuietAt(s, t, x) && (WillWakeInit(s) ==> WillWakeInit(t))
  {
    EnabledP(s, l);
    assert ForkOk(s, l.p) && ProcOk(s, Target(s, l)) && ProcOk(s, x);
    assert !HoldsWait(s.procs[l.p].pc) && !HoldsWait(s.procs[Target(s, l)].pc);
    if WillWakeInit(s) {
      ForkOnly(s, l, t, s.cpus[s.wlock.value].proc.value);
    }
    if x == l.p {
      ForkQuietSelf(s, l, t);
    } else if x == Target(s, l) {
      ForkQuietTarget(s, l, t);
    } else {
      ForkOnly(s, l, t, x);
    }
    hide Placement, Forks, Switched, NextFork, Enabled, ForkStep, Target;
  }

  lemma {:induction false} OtherQuiet(s: State, l: Label, t: State, x: nat)
    requires Well(s) && Placement(s) && Enabled(s, l) && (l.WakeOne? || l.Kill?) && t == NextOther(s, l) && Well(t)
    requires x < |s.procs| == |t.procs|
    ensures QuietAt(s, t, x) && (WillWakeInit(s) ==> WillWakeInit(t))
  {
    assert ProcOk(s, x);
    hide Placement, Resting, Switched, Executing;
  }

  lemma {:induction false} FamilyQuiet(s: State, l: Label, t: State)
    requires Well(s) && Placement(s) && Forks(s) && Family(s) && Enabled(s, l) && QuietStep(l) && t == Next(s, l)
    requires Well(t)
    ensures Family(t)
  {
    SameCount(s, l, t);
    hide NextCpu, NextOwn, NextFork, NextOther, Enabled, Placement, Forks, Family, QuietAt, WillWakeInit;
    forall x | 0 <= x < |s.procs|
      ensures QuietAt(s, t, x) && (WillWakeInit(s) ==> WillWakeInit(t))
    {
      if CpuStep(l) {
        CpuQuiet(s, l, t, x);
      } else if OwnStep(l) {
        OwnQuiet(s, l, t, x);
      } else if ForkStep(l) {
        ForkQuiet(s, l, t, x);
      } else {
        OtherQuiet(s, l, t, x);
      }
    }
    assert QuietAt(s, t, INIT);
    QuietFamily(s, t);
  }

  // fork() sets the child's parent.
  lemma {:induction false} FamilyAdopt(s: State, l: Label, t: State)
    requires Well(s) && Placement(s) && Forks(s) && WaitLock(s) && Family(s) && Enabled(s, l) && l.ForkAdopt?
    requires t == NextFork(s, l)
    ensures Well(t) && Family(t)
  {
    EnabledP(s, l);
    var np := s.procs[l.p].pc.np;
    assert ProcOk(s, l.p) && ForkOk(s, l.p) && CpuOk(s, l.c) && ParentOk(s, INIT);
    forall x | 0 <= x < |t.procs|
      ensures ParentOk(t, x) && ExitOk(t, x) && ZombieOk(t, x) && ScanOk(t, x)
    {
      assert ParentOk(s, x) && ExitOk(s, x) && ZombieOk(s, x) && ScanOk(s, x) && HoldOk(s, x);
      hide Placement, Forks, Family, WaitLock;
    }
  }

  // exit() hands a child to init.
  lemma {:induction false} ChildKin(s: State, l: Label, t: State)
    requires Well(s) && Placement(s) && WaitLock(s) && Family(s) && Enabled(s, l) && l.ExitChild?
    requires t == NextOther(s, l)
    ensures Well(t)
    ensures forall x {:trigger ParentOk(t, x)} :: 0 <= x < |t.procs| ==> ParentOk(t, x)
    ensures forall x {:trigger ZombieOk(t, x)} :: 0 <= x < |t.procs| ==> ZombieOk(t, x)
  {
    EnabledP(s, l);
    assert ProcOk(s, l.p) && CpuOk(s, l.c) && ParentOk(s, INIT) && ExitOk(s, l.p) && HoldOk(s, l.p);
    forall x | 0 <= x < |t.procs|
      ensures ParentOk(t, x) && ZombieOk(t, x)
    {
      assert ParentOk(s, x) && ZombieOk(s, x);
      hide Placement, Family, WaitLock;
    }
  }

  lemma {:induction false} ChildScans(s: State, l: Label, t: State)
    requires Well(s) && Placement(s) && WaitLock(s) && Family(s) && Enabled(s, l) && l.ExitChild?
    requires t == NextOther(s, l)
    ensures Well(t)
    ensures forall x {:trigger ExitOk(t, x)} :: 0 <= x < |t.procs| ==> ExitOk(t, x)
    ensures forall x {:trigger ScanOk(t, x)} :: 0 <= x < |t.procs| ==> ScanOk(t, x)
  {
    hide ZombieOk, WillWakeInit;
    EnabledP(s, l);
    assert ProcOk(s, l.p) && CpuOk(s, l.c) && ParentOk(s, INIT) && ExitOk(s, l.p) && HoldOk(s, l.p);
    forall x | 0 <= x < |t.procs|
      ensures ExitOk(t, x) && ScanOk(t, x)
    {
      assert ExitOk(s, x) && ScanOk(s, x) && ParentOk(s, x);
      if HoldsWait(s.procs[x].pc) {
        SoleHolder(s, l.p, x);
      }
      hide Placement, Family, WaitLock;
    }
  }

  lemma {:induction false} FamilyChild(s: State, l: Label, t: State)
    requires Well(s) && Placement(s) && WaitLock(s) && Family(s) && Enabled(s, l) && l.ExitChild?
    requires t == NextOther(s, l)
    ensures Well(t) && Family(t)
  {
    hide NextOther, Enabled, Placement, WaitLock, ParentOk, ZombieOk, ExitOk, ScanOk;
    ChildKin(s, l, t);
    ChildScans(s, l, t);
  }

  // exit() wakes init.
  lemma {:induction false} WakeKin(s: State, l: Label, t: State)
    requires Well(s) && Placement(s) && WaitLock(s) && Family(s) && Enabled(s, l) && l.ExitWake? && t == NextOther(s, l)
    ensures Well(t)
    ensures forall x {:trigger ParentOk(t, x)} :: 0 <= x < |t.procs| ==> ParentOk(t, x)
    ensures forall x {:trigger ZombieOk(t, x)} :: 0 <= x < |t.procs| ==> ZombieOk(t, x)
  {
    EnabledP(s, l);
    assert ProcOk(s, l.p) && CpuOk(s, l.c) && ExitOk(s, l.p) && HoldOk(s, l.p);
    forall x | 0 <= x < |t.procs|
      ensures ParentOk(t, x) && ZombieOk(t, x)
    {
      assert ParentOk(s, x) && ZombieOk(s, x);
      hide Placement, Family, WaitLock;
    }
  }

  lemma {:induction false} WakeScans(s: State, l: Label, t: State)
    requires Well(s) && Placement(s) && WaitLock(s) && Family(s) && Enabled(s, l) && l.ExitWake? && t == NextOther(s, l)
    ensures Well(t)
    ensures forall x {:trigger ExitOk(t, x)} :: 0 <= x < |t.procs| ==> ExitOk(t, x)
    ensures forall x {:trigger ScanOk(t, x)} :: 0 <= x < |t.procs| ==> ScanOk(t, x)
  {
    hide ZombieOk, WillWakeInit;
    EnabledP(s, l);
    assert ProcOk(s, l.p) && CpuOk(s, l.c) && ExitOk(s, l.p) && HoldOk(s, l.p);
    forall x | 0 <= x < |t.procs|
      ensures ExitOk(t, x) && ScanOk(t, x)
    {
      assert ExitOk(s, x) && ScanOk(s, x);
      if HoldsWait(s.procs[x].pc) {
        SoleHolder(s, l.p, x);
      }
      hide Placement, Family, WaitLock;
    }
  }

  lemma {:induction false} FamilyWake(s: State, l: Label, t: State)
    requires Well(s) && Placement(s) && WaitLock(s) && Family(s) && Enabled(s, l) && l.ExitWake? && t == NextOther(s, l)
    ensures Well(t) && Family(t)
  {
    hide NextOther, Enabled, Placement, WaitLock, ParentOk, ZombieOk, ExitOk, ScanOk;
    WakeKin(s, l, t);
    WakeScans(s, l, t);
  }

  // exit() wakes its parent.
  lemma {:induction false} NotifyKin(s: State, l: Label, t: State)
    requires Well(s) && Placement(s) && WaitLock(s) && Family(s) && Enabled(s, l) && l.ExitNotify?
    requires t == NextOther(s, l)
    ensures Well(t)
    ensures forall x {:trigger ParentOk(t, x)} :: 0 <= x < |t.procs| ==> ParentOk(t, x)
    ensures forall x {:trigger ZombieOk(t, x)} :: 0 <= x < |t.procs| ==> ZombieOk(t, x)
  {
    EnabledP(s, l);
    assert ProcOk(s, l.p) && CpuOk(s, l.c) && ExitOk(s, l.p) && HoldOk(s, l.p) && ParentOk(s, l.p);
    forall x | 0 <= x < |t.procs|
      ensures ParentOk(t, x) && ZombieOk(t, x)
    {
      assert ParentOk(s, x) && ZombieOk(s, x);
      hide Placement, Family, WaitLock;
    }
  }

  lemma {:induction false} NotifyScans(s: State, l: Label, t: State)
    requires Well(s) && Placement(s) && WaitLock(s) && Family(s) && Enabled(s, l) && l.ExitNotify?
    requires t == NextOther(s, l)
    ensures Well(t)
    ensures forall x {:trigger ExitOk(t, x)} :: 0 <= x < |t.procs| ==> ExitOk(t, x)
    ensures forall x {:trigger ScanOk(t, x)} :: 0 <= x < |t.procs| ==> ScanOk(t, x)
  {
    hide ZombieOk, WillWakeInit;
    EnabledP(s, l);
    assert ProcOk(s, l.p) && CpuOk(s, l.c) && ExitOk(s, l.p) && HoldOk(s, l.p) && ParentOk(s, l.p);
    forall x | 0 <= x < |t.procs|
      ensures ExitOk(t, x) && ScanOk(t, x)
    {
      assert ExitOk(s, x) && ScanOk(s, x);
      if HoldsWait(s.procs[x].pc) {
        SoleHolder(s, l.p, x);
      }
      hide Placement, Family, WaitLock;
    }
  }

  lemma {:induction false} FamilyNotify(s: State, l: Label, t: State)
    requires Well(s) && Placement(s) && WaitLock(s) && Family(s) && Enabled(s, l) && l.ExitNotify?
    requires t == NextOther(s, l)
    ensures Well(t) && Family(t)
  {
    hide NextOther, Enabled, Placement, WaitLock, ParentOk, ZombieOk, ExitOk, ScanOk;
    NotifyKin(s, l, t);
    NotifyScans(s, l, t);
  }

  // exit() becomes a zombie.
  lemma {:induction false} FamilyZombie(s: State, l: Label, t: State)
    requires Well(s) && Placement(s) && WaitLock(s) && Family(s) && Enabled(s, l) && l.ExitZombie? && t == NextOwn(s, l)
    ensures Well(t) && Family(t)
  {
    EnabledP(s, l);
    assert ProcOk(s, l.p) && CpuOk(s, l.c) && ExitOk(s, l.p) && HoldOk(s, l.p) && ParentOk(s, l.p);
    forall x | 0 <= x < |t.procs|
      ensures ParentOk(t, x) && ZombieOk(t, x)
    {
      assert ParentOk(s, x) && ZombieOk(s, x);
      hide Placement, Family, WaitLock;
    }
    hide ZombieOk, WillWakeInit;
    forall x | 0 <= x < |t.procs|
      ensures ExitOk(t, x) && ScanOk(t, x)
    {
      assert ExitOk(s, x) && ScanOk(s, x);
      if HoldsWait(s.procs[x].pc) {
        SoleHolder(s, l.p, x);
      }
      hide Placement, Family, WaitLock;
    }
  }

  // wait() looks at one process.
  lemma {:induction false} LookParents(s: State, l: Label, t: State, x: nat)
    requires Well(s) && Placement(s) && WaitLock(s) && Family(s) && Enabled(s, l) && l.WaitLook? && t == NextOther(s, l)
    requires x < |s.procs|
    ensures Well(t) && x < |t.procs| && ParentOk(t, x) && ZombieOk(t, x)
  {
    assert CpuOk(s, l.c) && HoldOk(s, l.p) && ProcOk(s, l.p) && ParentOk(s, s.procs[l.p].pc.i);
    assert ParentOk(s, x) && ZombieOk(s, x);
    hide Placement, Family, WaitLock, Resting, Switched;
  }

  lemma {:induction false} FamilyLook(s: State, l: Label, t: State)
    requires Well(s) && Placement(s) && WaitLock(s) && Family(s) && Enabled(s, l) && l.WaitLook? && t == NextOther(s, l)
    ensures Well(t) && Family(t)
  {
    EnabledP(s, l);
    OtherOnly(s, l, t, 0);
    assert ProcOk(s, l.p) && CpuOk(s, l.c) && ScanOk(s, l.p) && HoldOk(s, l.p);
    hide ZombieOk, WillWakeInit, ParentOk;
    forall x | 0 <= x < |t.procs|
      ensures ParentOk(t, x) && ZombieOk(t, x)
    {
      LookParents(s, l, t, x);
    }
    forall x | 0 <= x < |t.procs|
      ensures ExitOk(t, x) && ScanOk(t, x)
    {
      assert ExitOk(s, x) && ScanOk(s, x);
      if HoldsWait(s.procs[x].pc) {
        SoleHolder(s, l.p, x);
      }
      hide Placement, Family, WaitLock;
    }
  }

  // wait() returns or goes to sleep.
  lemma {:induction false} FamilyEnd(s: State, l: Label, t: State)
    requires Well(s) && Placement(s) && WaitLock(s) && Family(s) && Enabled(s, l) && l.WaitEnd? && t == NextOwn(s, l)
    ensures Well(t) && Family(t)
  {
    EnabledP(s, l);
    assert ProcOk(s, l.p) && CpuOk(s, l.c) && ScanOk(s, l.p) && HoldOk(s, l.p);
    forall x | 0 <= x < |t.procs|
      ensures ParentOk(t, x) && ZombieOk(t, x)
    {
      assert ParentOk(s, x) && ZombieOk(s, x);
      hide Placement, Family, WaitLock;
    }
    hide ZombieOk, WillWakeInit;
    forall x | 0 <= x < |t.procs|
      ensures ExitOk(t, x) && ScanOk(t, x)
    {
      assert ExitOk(s, x) && ScanOk(s, x);
      if HoldsWait(s.procs[x].pc) {
        SoleHolder(s, l.p, x);
      }
      hide Placement, Family, WaitLock;
    }
  }

  lemma {:induction false} StepFamily(s: State, l: Label, t: State)
    requires Inv(s) && Enabled(s, l) && t == Next(s, l) && Well(t)
    ensures Family(t)
  {
    hide NextCpu, NextOwn, NextFork, NextOther, Enabled, Placement, Forks, WaitLock, Family;
    match l
    case ForkAdopt(_, _) => FamilyAdopt(s, l, t);
    case ExitChild(_, _) => FamilyChild(s, l, t);
    case ExitWake(_, _) => FamilyWake(s, l, t);
    case ExitNotify(_, _) => FamilyNotify(s, l, t);
    case ExitZombie(_, _) => FamilyZombie(s, l, t);
    case WaitLook(_, _, _) => FamilyLook(s, l, t);
    case WaitEnd(_, _) => FamilyEnd(s, l, t);
    case _ => FamilyQuiet(s, l, t);
  }

  lemma {:induction false} StepKeepsInv(s: State, l: Label, t: State)
    requires Inv(s) && Follows(s, l, t)
    ensures Inv(t)
  {
    hide Next, Enabled, Placement, Forks, WaitLock, Family;
    StepPlacement(s, l, t);
    StepForks(s, l, t);
    StepWaitLock(s, l, t);
    StepFamily(s, l, t);
  }

  lemma {:induction false} InitInv(s: State)
    requires Init(s)
    ensures Inv(s)
  {
  }

  lemma {:induction false} RunKeepsInv(ss: seq<State>, ls: seq<Label>, n: nat)
    requires IsRun(ss, ls) && n < |ss|
    ensures Inv(ss[n])
  {
    hide Inv, Init;
    if n == 0 {
      InitInv(ss[0]);
    } else {
      RunKeepsInv(ss, ls, n - 1);
      assert Follows(ss[n - 1], ls[n - 1], ss[n]);
      hide Follows;
      StepKeepsInv(ss[n - 1], ls[n - 1], ss[n]);
    }
  }

  // ---- what the runs guarantee

  /** In every run, whenever p->lock is free: p is RUNNING if and only if exactly one CPU has it as c->proc. */
  lemma {:induction false} RunningMeansOneCpu(ss: seq<State>, ls: seq<Label>, n: nat, p: nat)
    requires IsRun(ss, ls) && n < |ss| && p < |ss[n].procs| && ss[n].procs[p].lock.None?
    ensures ss[n].procs[p].state.RUNNING? <==> exists c :: 0 <= c < |ss[n].cpus| && ss[n].cpus[c].proc == Some(p)
    ensures forall c, d ::
              (&& 0 <= c < |ss[n].cpus| && 0 <= d < |ss[n].cpus|
               && ss[n].cpus[c].proc == Some(p) == ss[n].cpus[d].proc) ==> c == d
  {
    RunKeepsInv(ss, ls, n);
    var s := ss[n];
    assert ProcOk(s, p);
    forall c | 0 <= c < |s.cpus| && s.cpus[c].proc == Some(p)
      ensures s.on[p] == Some(c)
    {
      assert CpuOk(s, c);
    }
  }

  /** In every run, at every point (so also when wait_lock is free): every process that has started, except init, has a
      parent, and no process's parent is a zombie or an unused slot. */
  lemma {:induction false} ParentsAlive(ss: seq<State>, ls: seq<Label>, n: nat, p: nat)
    requires IsRun(ss, ls) && n < |ss| && p < |ss[n].procs|
    ensures var s := ss[n];
            var r := s.procs[p];
            && (p != INIT && (Alive(r) || r.state.ZOMBIE?) ==> r.parent.Some?)
            && (r.parent.Some? ==> r.parent.value < |s.procs| && Alive(s.procs[r.parent.value]))
  {
    RunKeepsInv(ss, ls, n);
    assert ParentOk(ss[n], p);
  }

  /** In every run, whenever wait_lock is free: nobody sleeps in wait() with a zombie child. */
  lemma {:induction false} NoLostChild(ss: seq<State>, ls: seq<Label>, n: nat, p: nat, q: nat)
    requires IsRun(ss, ls) && n < |ss| && p < |ss[n].procs| && ss[n].wlock.None?
    requires ss[n].procs[p].state.ZOMBIE? && ss[n].procs[p].parent == Some(q)
    ensures !SleepsInWait(ss[n], q)
  {
    RunKeepsInv(ss, ls, n);
    assert ZombieOk(ss[n], p);
  }

  /** In every run sched() finds what it tests for: its caller holds p->lock, holds no other lock of the table and not
      wait_lock, and is no longer RUNNING. */
  lemma {:induction false} SchedSafe(ss: seq<State>, ls: seq<Label>, n: nat, q: nat)
    requires IsRun(ss, ls) && n < |ls| && ls[n].Swtch? && q < |ss[n].procs|
    ensures var s, c, p := ss[n], ls[n].c, ls[n].p;
            && p < |s.procs| && s.procs[p].lock == Some(c) && !s.procs[p].state.RUNNING?
            && s.wlock != Some(c) && (s.procs[q].lock == Some(c) ==> q == p)
  {
    RunKeepsInv(ss, ls, n);
    var s, c, p := ss[n], ls[n].c, ls[n].p;
    assert Follows(s, ls[n], ss[n + 1]);
    assert CpuOk(s, c) && ProcOk(s, p) && ProcOk(s, q) && UsedOk(s, q);
    if s.procs[q].state.USED? {
      assert ForkOk(s, s.forker[q]) && ProcOk(s, s.forker[q]);
    }
  }

  /** In every run, at every point: no CPU executes a process that has come back from exit()'s sched(), so its "zombie
      exit" panic is unreachable, and a zombie that is executing is still on its way into that sched(). */
  lemma {:induction false} ZombieStays(ss: seq<State>, ls: seq<Label>, n: nat, c: nat, p: nat)
    requires IsRun(ss, ls) && n < |ss| && Exec(ss[n], c, p)
    ensures !ss[n].procs[p].pc.Dead?
    ensures ss[n].procs[p].state.ZOMBIE? ==> ss[n].procs[p].pc.ExitSched?
  {
    RunKeepsInv(ss, ls, n);
    assert CpuOk(ss[n], c) && ProcOk(ss[n], p);
  }
}
