/** kernel/log.c under concurrency: every interleaving of begin_op, log_write and end_op, with each disk
    write of commit() and of recovery a step of its own and a crash possible between any two steps. Callers of
    log_write() that have not called begin_op() are steps too. */
module GroupCommit {
  import opened Disk
  import opened Log

  datatype Config = Config(lay: Layout, init: Image, budget: nat)

  // What the file-system operations did, in order. Operation ids are never reused.
  datatype Event =
    | Begin(op: nat)
    | Update(op: nat, at: nat, value: Block)
    | End(op: nat)

  datatype Phase =
    | Running
    | Committing(before: Image, plan: seq<Write>, done: nat)
    | Recovering(before: Image, plan: seq<Write>, done: nat)

  datatype Panic = NoPanic | LogCommitting | TooBigTransaction | OutsideTransaction

  // mem is what bread() returns; disk is durable. hist and cut describe the run: the first cut events are
  // those whose effects have been committed. used counts the new log blocks of each operation in progress.
  datatype State = State(
    outstanding: int, committing: bool, lh: seq<nat>,
    mem: Image, disk: Image, phase: Phase,
    used: map<nat, nat>, hist: seq<Event>, cut: nat, panic: Panic)

  datatype Label =
    | BeginOp(op: nat)
    | LogWrite(op: nat, at: nat, value: Block)
    | Outside(op: nat, at: nat, value: Block)
    | EndOp(op: nat)
    | CommitWrite
    | CommitDone
    | Crash
    | RecoverWrite
    | RecoverDone

  // begin_op() leaves its loop exactly when this holds; otherwise it sleeps.
  predicate Admits(s: State) {
    !s.committing && |s.lh| + (s.outstanding + 1) * MAXOPBLOCKS <= LOGSIZE
  }

  predicate TooBig(c: Config, s: State) {
    |s.lh| >= LOGSIZE || |s.lh| >= c.lay.size - 1
  }

  ghost predicate Shaped(c: Config, s: State) {
    && LogArea(c.lay, c.init)
    && |s.mem| == |s.disk| == |c.init|
    && GoodHead(c.lay, |c.init|, s.lh)
    && |s.disk[c.lay.start].words| == WORDS
    && s.cut <= |s.hist|
  }

  ghost predicate Enabled(c: Config, s: State, l: Label) {
    match l
    case BeginOp(op) =>
      s.panic.NoPanic? && !s.phase.Recovering? && Admits(s) && forall i :: 0 <= i < |s.hist| ==> s.hist[i].op != op
    case LogWrite(op, at, _) =>
      && s.panic.NoPanic? && !s.phase.Recovering? && op in s.used
      && at < |s.mem| && IsHome(c.lay, at) && (at !in s.lh ==> s.used[op] < c.budget)
    case Outside(op, at, _) =>
      && s.panic.NoPanic? && !s.phase.Recovering? && at < |s.mem| && IsHome(c.lay, at)
      && forall i :: 0 <= i < |s.hist| ==> s.hist[i].op != op
    case EndOp(op) => s.panic.NoPanic? && !s.phase.Recovering? && op in s.used
    case CommitWrite => s.panic.NoPanic? && s.phase.Committing? && s.phase.done < |s.phase.plan|
    case CommitDone => s.panic.NoPanic? && s.phase.Committing? && s.phase.done == |s.phase.plan|
    case Crash => true
    case RecoverWrite => s.phase.Recovering? && s.phase.done < |s.phase.plan|
    case RecoverDone => s.phase.Recovering? && s.phase.done == |s.phase.plan|
  }

  ghost function DoBegin(s: State, op: nat): State {
    s.(outstanding := s.outstanding + 1, used := s.used[op := 0], hist := s.hist + [Begin(op)])
  }

  // The caller changed the buffer to value under its lock and calls log_write().
  ghost function DoLogWrite(c: Config, s: State, op: nat, at: nat, value: Block): State
    requires op in s.used && at < |s.mem|
  {
    if TooBig(c, s) then s.(panic := TooBigTransaction)
    else if s.outstanding < 1 then s.(panic := OutsideTransaction)
    else s.(lh := Absorb(s.lh, at), mem := s.mem[at := value],
            used := if at in s.lh then s.used else s.used[op := s.used[op] + 1],
            hist := s.hist + [Update(op, at, value)])
  }

  // The same from a caller that has not called begin_op(): if it does not panic, its one update joins the open group as
  // an operation of its own.
  ghost function DoOutside(c: Config, s: State, op: nat, at: nat, value: Block): State
    requires at < |s.mem|
  {
    if TooBig(c, s) then s.(panic := TooBigTransaction)
    else if s.outstanding < 1 then s.(panic := OutsideTransaction)
    else s.(lh := Absorb(s.lh, at), mem := s.mem[at := value],
            hist := s.hist + [Begin(op)] + [Update(op, at, value)] + [End(op)])
  }

  ghost function DoEnd(c: Config, s: State, op: nat): State
    requires Shaped(c, s)
  {
    var t := s.(outstanding := s.outstanding - 1, used := s.used - {op}, hist := s.hist + [End(op)]);
    if s.committing then t.(panic := LogCommitting)
    else if t.outstanding == 0 then
      var plan := CommitWrites(c.lay, s.disk[c.lay.start], s.lh, Cached(s.mem, s.lh));
      t.(committing := true, phase := Committing(s.disk, plan, 0))
    else t
  }

  // One bwrite of commit(). The header write, after the |lh| log writes, is the one that commits.
  ghost function DoCommitWrite(s: State): State
    requires s.phase.Committing? && s.phase.done < |s.phase.plan|
    requires s.phase.plan[s.phase.done].at < |s.disk|
  {
    var w := s.phase.plan[s.phase.done];
    s.(disk := s.disk[w.at := w.value], phase := Committing(s.phase.before, s.phase.plan, s.phase.done + 1),
       cut := if s.phase.done == |s.lh| then |s.hist| else s.cut)
  }

  ghost function DoCommitDone(s: State): State {
    s.(lh := [], committing := false, phase := Running, cut := |s.hist|)
  }

  // Power is lost: memory is gone, and with it everything the operations did after the cut.
  ghost function DoCrash(c: Config, s: State): State
    requires Shaped(c, s)
  {
    var head := s.disk[c.lay.start];
    var lh := if ValidHead(head) && |ReadHead(head)| < c.lay.size then ReadHead(head) else [];
    s.(outstanding := 0, committing := false, lh := [], mem := s.disk, used := map[], hist := s.hist[..s.cut],
       phase := Recovering(s.disk, RecoveryWrites(c.lay, s.disk, lh), 0), panic := NoPanic)
  }

  ghost function DoRecoverWrite(s: State): State
    requires s.phase.Recovering? && s.phase.done < |s.phase.plan|
    requires s.phase.plan[s.phase.done].at < |s.disk|
  {
    var w := s.phase.plan[s.phase.done];
    s.(disk := s.disk[w.at := w.value], phase := Recovering(s.phase.before, s.phase.plan, s.phase.done + 1))
  }

  ghost function DoRecoverDone(s: State): State {
    s.(mem := s.disk, lh := [], phase := Running)
  }

  ghost predicate Ready(c: Config, s: State) {
    && Shaped(c, s)
    && (s.phase.Committing? || s.phase.Recovering? ==> Fits(s.disk, s.phase.plan))
  }

  ghost function Next(c: Config, s: State, l: Label): State
    requires Ready(c, s) && Enabled(c, s, l)
  {
    match l
    case BeginOp(op) => DoBegin(s, op)
    case LogWrite(op, at, value) => DoLogWrite(c, s, op, at, value)
    case Outside(op, at, value) => DoOutside(c, s, op, at, value)
    case EndOp(op) => DoEnd(c, s, op)
    case CommitWrite => DoCommitWrite(s)
    case CommitDone => DoCommitDone(s)
    case Crash => DoCrash(c, s)
    case RecoverWrite => DoRecoverWrite(s)
    case RecoverDone => DoRecoverDone(s)
  }

  // The home blocks after the updates of h, in order.
  ghost function Replay(init: Image, h: seq<Event>): (r: Image)
    ensures |r| == |init|
  {
    if h == [] then init
    else
      var e := h[|h| - 1];
      var r := Replay(init, h[..|h| - 1]);
      if e.Update? && e.at < |init| then r[e.at := e.value] else r
  }

  lemma ReplayOne(init: Image, h: seq<Event>, e: Event)
    ensures Replay(init, h + [e])
         == if e.Update? && e.at < |init| then Replay(init, h)[e.at := e.value] else Replay(init, h)
  {
    assert (h + [e])[..|h|] == h;
  }

  // Every operation with an event among the first cut events ended among them...
  ghost predicate Closed(h: seq<Event>, cut: nat)
    requires cut <= |h|
  {
    forall i :: 0 <= i < cut ==> End(h[i].op) in h[..cut]
  }

  // ...and no operation does anything after its end.
  ghost predicate EndsLast(h: seq<Event>) {
    forall i, j :: 0 <= i < j < |h| && h[i].End? ==> h[j].op != h[i].op
  }

  // The operations in progress are exactly those that began and have not ended.
  ghost predicate TracksOps(s: State) {
    && s.outstanding == |s.used|
    && (forall op :: op in s.used ==> Begin(op) in s.hist && End(op) !in s.hist)
    && (forall i :: 0 <= i < |s.hist| ==> s.hist[i].op in s.used || End(s.hist[i].op) in s.hist)
  }

  ghost predicate InvHistory(s: State)
    requires s.cut <= |s.hist|
  {
    Closed(s.hist, s.cut) && EndsLast(s.hist) && TracksOps(s)
  }

  // Memory holds the effect of everything done so far, and differs from disk only where the log says.
  ghost predicate InvMemory(c: Config, s: State)
    requires Shaped(c, s)
  {
    && SameHome(c.lay, s.mem, Replay(c.init, s.hist))
    && (!s.phase.Committing? ==>
          forall b {:trigger IsHome(c.lay, b)} :: 0 <= b < |s.mem| && IsHome(c.lay, b) && b !in s.lh ==>
              s.mem[b] == s.disk[b])
  }

  ghost predicate InvPhase(c: Config, s: State)
    requires Ready(c, s)
  {
    var durable := Replay(c.init, s.hist[..s.cut]);
    match s.phase
    case Running =>
      && !s.committing
      && (s.outstanding == 0 ==> s.lh == [] && s.cut == |s.hist|)
      && SameHome(c.lay, s.disk, durable) && HeadIs(s.disk[c.lay.start], [])
    case Committing(before, plan, done) =>
      && s.committing && s.outstanding == 0 && done <= |plan|
      && |before| == |s.disk| && Recoverable(c.lay, before, before, [])
      && plan == CommitWrites(c.lay, before[c.lay.start], s.lh, Cached(s.mem, s.lh))
      && s.disk == Apply(before, plan[..done])
      && (done <= |s.lh| ==> SameHome(c.lay, before, durable))
      && (done > |s.lh| ==> s.cut == |s.hist|)
      && (forall b {:trigger IsHome(c.lay, b)} :: 0 <= b < |s.mem| && IsHome(c.lay, b) && b !in s.lh ==>
            s.mem[b] == before[b])
    case Recovering(before, plan, done) =>
      && !s.committing && s.outstanding == 0 && s.cut == |s.hist| && done <= |plan| && s.lh == []
      && |before| == |s.disk| && ValidHead(before[c.lay.start])
      && var head := ReadHead(before[c.lay.start]);
         && Recoverable(c.lay, durable, before, head)
         && plan == RecoveryWrites(c.lay, before, head)
         && s.disk == Apply(before, plan[..done])
  }

  ghost predicate Inv(c: Config, s: State) {
    && Ready(c, s)
    && InvHistory(s)
    && (!s.phase.Recovering? ==> InvMemory(c, s))
    && InvPhase(c, s)
    && s.panic != LogCommitting
  }

  ghost function Booted(c: Config): State {
    State(0, false, [], c.init, c.init, Running, map[], [], 0, NoPanic)
  }

  ghost predicate GoodConfig(c: Config) {
    LogArea(c.lay, c.init) && HeadIs(c.init[c.lay.start], [])
  }

  // Ready is no restriction: it is part of the invariant, so no run is ever stopped by it.
  ghost predicate Follows(c: Config, s: State, l: Label, t: State) {
    Ready(c, s) && Enabled(c, s, l) && t == Next(c, s, l)
  }

  ghost predicate IsRun(c: Config, ss: seq<State>, ls: seq<Label>) {
    && |ss| == |ls| + 1
    && ss[0] == Booted(c)
    && forall i :: 0 <= i < |ls| ==> Follows(c, ss[i], ls[i], ss[i + 1])
  }

  // An event of an operation in progress keeps the history well formed.
  lemma {:induction false} HistoryGrows(s: State, t: State, e: Event)
    requires s.cut <= |s.hist| && InvHistory(s)
    requires e.op in s.used && !e.End?
    requires t.hist == s.hist + [e] && t.cut == s.cut
    requires t.used.Keys == s.used.Keys && t.outstanding == s.outstanding
    ensures InvHistory(t)
  {
    assert t.hist[..s.cut] == s.hist[..s.cut];
    assert |s.used| == |s.used.Keys| == |t.used|;
  }

  lemma {:induction false} HistoryBegins(s: State, op: nat)
    requires s.cut <= |s.hist| && InvHistory(s)
    requires forall i :: 0 <= i < |s.hist| ==> s.hist[i].op != op
    ensures InvHistory(DoBegin(s, op))
  {
    var t := DoBegin(s, op);
    assert Closed(t.hist, t.cut) by {
      assert t.hist[..s.cut] == s.hist[..s.cut];
    }
    BeginTracks(s, op);
  }

  lemma {:induction false} BeginTracks(s: State, op: nat)
    requires TracksOps(s)
    requires forall i :: 0 <= i < |s.hist| ==> s.hist[i].op != op
    ensures TracksOps(DoBegin(s, op))
  {
    var t := DoBegin(s, op);
    assert t.used.Keys == s.used.Keys + {op};
    assert |t.used| == |t.used.Keys| && |s.used| == |s.used.Keys|;
  }

  lemma {:induction false} BeginPreserves(c: Config, s: State, op: nat)
    requires Inv(c, s) && Enabled(c, s, BeginOp(op))
    ensures Inv(c, DoBegin(s, op))
  {
    var t := DoBegin(s, op);
    ReplayOne(c.init, s.hist, Begin(op));
    assert t.hist[..s.cut] == s.hist[..s.cut];
    HistoryBegins(s, op);
    assert s.phase.Running?;
    assert InvMemory(c, t);
    assert t.outstanding > 0;
    assert InvPhase(c, t);
  }

  // log_write() changes one home block, which is in the log from then on.
  lemma {:induction false} LogWriteMemory(c: Config, s: State, op: nat, at: nat, value: Block)
    requires Ready(c, s) && InvMemory(c, s) && s.phase.Running?
    requires Enabled(c, s, LogWrite(op, at, value)) && !TooBig(c, s) && s.outstanding >= 1
    ensures Ready(c, DoLogWrite(c, s, op, at, value)) && InvMemory(c, DoLogWrite(c, s, op, at, value))
  {
    ReplayOne(c.init, s.hist, Update(op, at, value));
    AbsorbGood(c.lay, |c.init|, s.lh, at);
  }

  lemma {:induction false} LogWritePhase(c: Config, s: State, op: nat, at: nat, value: Block)
    requires Ready(c, s) && InvPhase(c, s) && s.phase.Running? && s.outstanding >= 1
    requires Enabled(c, s, LogWrite(op, at, value)) && !TooBig(c, s)
    requires Ready(c, DoLogWrite(c, s, op, at, value))
    ensures InvPhase(c, DoLogWrite(c, s, op, at, value))
  {
    var t := DoLogWrite(c, s, op, at, value);
    assert t.hist[..s.cut] == s.hist[..s.cut];
  }

  lemma {:induction false} LogWritePreserves(c: Config, s: State, op: nat, at: nat, value: Block)
    requires Inv(c, s) && Enabled(c, s, LogWrite(op, at, value))
    ensures Inv(c, DoLogWrite(c, s, op, at, value))
  {
    assert |s.used| > 0 by {
      assert s.used != map[];
    }
    if !TooBig(c, s) {
      LogWriteMemory(c, s, op, at, value);
      HistoryGrows(s, DoLogWrite(c, s, op, at, value), Update(op, at, value));
      LogWritePhase(c, s, op, at, value);
    }
  }

  lemma {:induction false} HistoryEnds(s: State, t: State, op: nat)
    requires s.cut <= |s.hist| && InvHistory(s) && op in s.used
    requires t.hist == s.hist + [End(op)] && t.cut == s.cut
    requires t.used == s.used - {op} && t.outstanding == s.outstanding - 1
    ensures InvHistory(t)
  {
    assert t.hist[..s.cut] == s.hist[..s.cut];
    assert t.used.Keys == s.used.Keys - {op};
    assert |t.used| == |t.used.Keys| == |s.used.Keys| - 1;
    assert forall i :: 0 <= i < |s.hist| ==> t.hist[i] == s.hist[i];
    assert t.hist[|s.hist|] == End(op);
  }

  lemma {:induction false} FreshUnused(s: State, op: nat)
    requires s.cut <= |s.hist| && InvHistory(s) && forall i :: 0 <= i < |s.hist| ==> s.hist[i].op != op
    ensures op !in s.used
  {
    assert op in s.used ==> Begin(op) in s.hist;
  }

  // An outside update begins, updates and ends.
  lemma {:induction false} OutsideHistory(s: State, t: State, op: nat, at: nat, value: Block)
    requires s.cut <= |s.hist| && InvHistory(s) && forall i :: 0 <= i < |s.hist| ==> s.hist[i].op != op
    requires t.hist == s.hist + [Begin(op)] + [Update(op, at, value)] + [End(op)]
    requires t.cut == s.cut && t.used == s.used && t.outstanding == s.outstanding
    ensures InvHistory(t)
  {
    hide InvHistory;
    FreshUnused(s, op);
    var s1 := DoBegin(s, op);
    HistoryBegins(s, op);
    var s2 := s1.(hist := s1.hist + [Update(op, at, value)]);
    HistoryGrows(s1, s2, Update(op, at, value));
    assert t.used == s2.used - {op};
    HistoryEnds(s2, t, op);
  }

  lemma {:induction false} OutsideMemory(c: Config, s: State, op: nat, at: nat, value: Block)
    requires Ready(c, s) && InvMemory(c, s) && s.phase.Running?
    requires Enabled(c, s, Outside(op, at, value)) && !TooBig(c, s) && s.outstanding >= 1
    ensures Ready(c, DoOutside(c, s, op, at, value)) && InvMemory(c, DoOutside(c, s, op, at, value))
  {
    ReplayOne(c.init, s.hist, Begin(op));
    ReplayOne(c.init, s.hist + [Begin(op)], Update(op, at, value));
    ReplayOne(c.init, s.hist + [Begin(op)] + [Update(op, at, value)], End(op));
    AbsorbGood(c.lay, |c.init|, s.lh, at);
  }

  lemma {:induction false} OutsidePhase(c: Config, s: State, op: nat, at: nat, value: Block)
    requires Ready(c, s) && InvPhase(c, s) && Enabled(c, s, Outside(op, at, value)) && !TooBig(c, s)
    requires s.outstanding >= 1
    requires Ready(c, DoOutside(c, s, op, at, value))
    ensures InvPhase(c, DoOutside(c, s, op, at, value))
  {
    hide Replay, Apply, CommitWrites, RecoveryWrites;
    var t := DoOutside(c, s, op, at, value);
    assert t.hist[..s.cut] == s.hist[..s.cut];
  }

  lemma {:induction false} OutsidePreserves(c: Config, s: State, op: nat, at: nat, value: Block)
    requires Inv(c, s) && Enabled(c, s, Outside(op, at, value))
    ensures Inv(c, DoOutside(c, s, op, at, value))
  {
    hide InvHistory, InvMemory;
    if !TooBig(c, s) && s.outstanding >= 1 {
      OutsideHistory(s, DoOutside(c, s, op, at, value), op, at, value);
      OutsideMemory(c, s, op, at, value);
      OutsidePhase(c, s, op, at, value);
    } else {
      StillInv(c, s, DoOutside(c, s, op, at, value));
    }
  }

  // A panic changes nothing else.
  lemma {:induction false} StillInv(c: Config, s: State, t: State)
    requires Inv(c, s) && t == s.(panic := t.panic) && t.panic != LogCommitting
    ensures Inv(c, t)
  {
  }

  lemma {:induction false} EndPhase(c: Config, s: State, op: nat)
    requires Inv(c, s) && Enabled(c, s, EndOp(op)) && s.phase.Running?
    ensures Ready(c, DoEnd(c, s, op)) && InvPhase(c, DoEnd(c, s, op))
  {
    var t := DoEnd(c, s, op);
    assert t.hist[..s.cut] == s.hist[..s.cut];
    if t.outstanding == 0 {
      CommitFits(c.lay, s.disk, s.lh, Cached(s.mem, s.lh));
      assert t.phase.plan[..0] == [];
    }
  }

  lemma {:induction false} EndPreserves(c: Config, s: State, op: nat)
    requires Inv(c, s) && Enabled(c, s, EndOp(op))
    ensures Inv(c, DoEnd(c, s, op))
  {
    assert |s.used| > 0 by {
      assert s.used != map[];
    }
    HistoryEnds(s, DoEnd(c, s, op), op);
    EndPhase(c, s, op);
    ReplayOne(c.init, s.hist, End(op));
  }

  lemma {:induction false} RecoverableSameHome(lay: Layout, a: Image, b: Image, d: Image, lh: seq<nat>)
    requires Recoverable(lay, a, d, lh) && SameHome(lay, a, b)
    ensures Recoverable(lay, b, d, lh)
  {
  }

  // Laying the cached copies of the logged blocks over the old image gives the home blocks of memory.
  lemma {:induction false} InstalledIsMemory(c: Config, s: State)
    requires Ready(c, s) && InvPhase(c, s) && s.phase.Committing?
    ensures Fits(s.phase.before, HomeCopies(s.lh, Cached(s.mem, s.lh)))
    ensures SameHome(c.lay, Apply(s.phase.before, HomeCopies(s.lh, Cached(s.mem, s.lh))), s.mem)
  {
    var d := s.phase.before;
    var ws := HomeCopies(s.lh, Cached(s.mem, s.lh));
    forall b | 0 <= b < |d| && IsHome(c.lay, b)
      ensures Apply(d, ws)[b] == s.mem[b]
    {
      if b in s.lh {
        var t :| 0 <= t < |s.lh| && s.lh[t] == b;
        ApplyDistinct(d, ws, t);
      } else {
        ApplyUntouched(d, ws, b);
      }
    }
  }

  // At every moment the disk recovers to the effect of the first cut events.
  lemma {:induction false} DurableRecovers(c: Config, s: State) returns (head: seq<nat>)
    requires Inv(c, s)
    ensures Recoverable(c.lay, Replay(c.init, s.hist[..s.cut]), s.disk, head)
    ensures s.phase.Committing? && s.phase.done == |s.phase.plan| ==> head == []
  {
    var durable := Replay(c.init, s.hist[..s.cut]);
    match s.phase
    case Running =>
      head := [];
    case Committing(before, plan, done) =>
      var vs := Cached(s.mem, s.lh);
      head := CommitPrefix(c.lay, before, s.lh, vs, done);
      if done <= |s.lh| {
        RecoverableSameHome(c.lay, before, durable, s.disk, head);
      } else {
        assert s.hist[..s.cut] == s.hist;
        InstalledIsMemory(c, s);
        RecoverableSameHome(c.lay, Apply(before, HomeCopies(s.lh, vs)), durable, s.disk, head);
      }
    case Recovering(before, plan, done) =>
      head := RecoveryPrefix(c.lay, durable, before, ReadHead(before[c.lay.start]), done);
  }

  // With no operation in progress the whole history is closed.
  lemma {:induction false} QuietIsClosed(s: State)
    requires s.cut <= |s.hist| && InvHistory(s) && s.outstanding == 0
    ensures Closed(s.hist, |s.hist|)
  {
    assert s.used == map[];
    assert s.hist[..|s.hist|] == s.hist;
  }

  lemma {:induction false} CommitWriteDisk(c: Config, s: State)
    requires Ready(c, s) && InvPhase(c, s) && Enabled(c, s, CommitWrite)
    ensures Fits(s.phase.before, s.phase.plan[..s.phase.done + 1])
    ensures DoCommitWrite(s).disk == Apply(s.phase.before, s.phase.plan[..s.phase.done + 1])
    ensures |DoCommitWrite(s).disk[c.lay.start].words| == WORDS
  {
    hide Apply, CommitWrites;
    ApplyNext(s.phase.before, s.phase.plan, s.phase.done);
    var head := CommitPrefix(c.lay, s.phase.before, s.lh, Cached(s.mem, s.lh), s.phase.done + 1);
  }

  lemma {:induction false} CommitWritePhase(c: Config, s: State)
    requires Ready(c, s) && InvPhase(c, s) && Enabled(c, s, CommitWrite)
    ensures Ready(c, DoCommitWrite(s)) && InvPhase(c, DoCommitWrite(s))
  {
    CommitWriteDisk(c, s);
  }

  lemma {:induction false} CommitWritePreserves(c: Config, s: State)
    requires Inv(c, s) && Enabled(c, s, CommitWrite)
    ensures Inv(c, DoCommitWrite(s))
  {
    CommitWritePhase(c, s);
    QuietIsClosed(s);
  }

  lemma {:induction false} CommitDonePreserves(c: Config, s: State)
    requires Inv(c, s) && Enabled(c, s, CommitDone)
    ensures Inv(c, DoCommitDone(s))
  {
    var t := DoCommitDone(s);
    var head := DurableRecovers(c, s);
    QuietIsClosed(s);
    assert t.hist[..|t.hist|] == t.hist;
    assert SameHome(c.lay, s.disk, s.mem) by {
      if s.lh == [] {
        assert s.phase.plan[..0] == [];
      } else {
        assert s.hist[..s.cut] == s.hist;
      }
    }
  }

  // What a crash keeps of the history is closed on its own.
  lemma {:induction false} HistoryCrashes(s: State, t: State)
    requires s.cut <= |s.hist| && InvHistory(s)
    requires t.hist == s.hist[..s.cut] && t.cut == s.cut && t.used == map[] && t.outstanding == 0
    ensures InvHistory(t)
  {
    assert t.hist[..t.cut] == t.hist;
  }

  lemma {:induction false} CrashPhase(c: Config, s: State)
    requires Inv(c, s)
    ensures Ready(c, DoCrash(c, s)) && InvPhase(c, DoCrash(c, s))
  {
    var t := DoCrash(c, s);
    var head := DurableRecovers(c, s);
    ReadHeadIs(s.disk[c.lay.start], head);
    RecoveryFits(c.lay, Replay(c.init, s.hist[..s.cut]), s.disk, head);
    assert t.hist[..t.cut] == s.hist[..s.cut];
    assert t.phase.plan[..0] == [];
  }

  lemma {:induction false} CrashPreserves(c: Config, s: State)
    requires Inv(c, s)
    ensures Inv(c, DoCrash(c, s))
  {
    HistoryCrashes(s, DoCrash(c, s));
    CrashPhase(c, s);
  }

  lemma {:induction false} RecoverWritePhase(c: Config, s: State)
    requires Ready(c, s) && InvPhase(c, s) && Enabled(c, s, RecoverWrite)
    ensures Ready(c, DoRecoverWrite(s)) && InvPhase(c, DoRecoverWrite(s))
  {
    ApplyNext(s.phase.before, s.phase.plan, s.phase.done);
    var head := RecoveryPrefix(c.lay, Replay(c.init, s.hist[..s.cut]), s.phase.before,
                               ReadHead(s.phase.before[c.lay.start]), s.phase.done + 1);
  }

  lemma {:induction false} RecoverWritePreserves(c: Config, s: State)
    requires Inv(c, s) && Enabled(c, s, RecoverWrite)
    ensures Inv(c, DoRecoverWrite(s))
  {
    RecoverWritePhase(c, s);
  }

  lemma {:induction false} RecoverDonePreserves(c: Config, s: State)
    requires Inv(c, s) && Enabled(c, s, RecoverDone)
    ensures Inv(c, DoRecoverDone(s))
  {
    var plan := s.phase.plan;
    assert plan[..|plan|] == plan;
    RecoveryCompletes(c.lay, Replay(c.init, s.hist[..s.cut]), s.phase.before, ReadHead(s.phase.before[c.lay.start]));
    assert s.hist[..s.cut] == s.hist;
  }

  lemma {:induction false} StepPreserves(c: Config, s: State, l: Label)
    requires Inv(c, s) && Enabled(c, s, l)
    ensures Inv(c, Next(c, s, l))
  {
    match l
    case BeginOp(op) => BeginPreserves(c, s, op);
    case LogWrite(op, at, value) => LogWritePreserves(c, s, op, at, value);
    case Outside(op, at, value) => OutsidePreserves(c, s, op, at, value);
    case EndOp(op) => EndPreserves(c, s, op);
    case CommitWrite => CommitWritePreserves(c, s);
    case CommitDone => CommitDonePreserves(c, s);
    case Crash => CrashPreserves(c, s);
    case RecoverWrite => RecoverWritePreserves(c, s);
    case RecoverDone => RecoverDonePreserves(c, s);
  }

  lemma {:induction false} RunKeepsInv(c: Config, ss: seq<State>, ls: seq<Label>, k: nat)
    requires GoodConfig(c) && IsRun(c, ss, ls) && k < |ss|
    ensures Inv(c, ss[k])
  {
    if k > 0 {
      RunKeepsInv(c, ss, ls, k - 1);
      StepPreserves(c, ss[k - 1], ls[k - 1]);
    }
  }

  // A recovery from s gives the effect of the first cut events, and these cut no operation in two.
  ghost predicate RecoversWholeOperations(c: Config, s: State, crashes: seq<nat>) {
    && LogArea(c.lay, s.disk) && s.cut <= |s.hist|
    && SameHome(c.lay, Recover(c.lay, CrashedRecoveries(c.lay, s.disk, crashes)), Replay(c.init, s.hist[..s.cut]))
    && (forall i :: 0 <= i < s.cut ==> End(s.hist[i].op) in s.hist[..s.cut])
    && (forall i, j :: 0 <= i < s.cut <= j < |s.hist| ==> s.hist[i].op != s.hist[j].op)
  }

  lemma {:induction false} InvRecovers(c: Config, s: State, crashes: seq<nat>)
    requires Inv(c, s)
    ensures RecoversWholeOperations(c, s, crashes)
  {
    var head := DurableRecovers(c, s);
    RecoversTo(c.lay, Replay(c.init, s.hist[..s.cut]), s.disk, head, crashes);
    forall i, j | 0 <= i < s.cut <= j < |s.hist|
      ensures s.hist[i].op != s.hist[j].op
    {
      var e :| 0 <= e < s.cut && s.hist[..s.cut][e] == End(s.hist[i].op);
      assert s.hist[e].End?;
    }
  }

  /** Group commit. In every run, whatever the interleaving, the crashes and the crashes during recovery, a
      recovery started now and interrupted any number of times ends with the home blocks produced by a prefix
      of the operations' history that cuts no operation in two. */
  lemma {:induction false} RecoveredIsWholeOperations(
      c: Config, ss: seq<State>, ls: seq<Label>, k: nat, crashes: seq<nat>)
    requires GoodConfig(c) && IsRun(c, ss, ls) && k < |ss|
    ensures RecoversWholeOperations(c, ss[k], crashes)
  {
    RunKeepsInv(c, ss, ls, k);
    InvRecovers(c, ss[k], crashes);
  }

  // The committed prefix of t extends that of s.
  ghost predicate ExtendsCommitted(s: State, t: State) {
    && s.cut <= |s.hist| && s.cut <= t.cut <= |t.hist|
    && t.hist[..s.cut] == s.hist[..s.cut]
  }

  lemma {:induction false} StepExtendsCommitted(c: Config, s: State, l: Label, t: State)
    requires Follows(c, s, l, t)
    ensures ExtendsCommitted(s, t)
  {
  }

  lemma {:induction false} ExtendsTransitive(r: State, s: State, t: State)
    requires ExtendsCommitted(r, s) && ExtendsCommitted(s, t)
    ensures ExtendsCommitted(r, t)
  {
    assert t.hist[..r.cut] == t.hist[..s.cut][..r.cut];
    assert s.hist[..r.cut] == s.hist[..s.cut][..r.cut];
  }

  lemma {:induction false} RunExtendsCommitted(c: Config, ss: seq<State>, ls: seq<Label>, k: nat)
    requires IsRun(c, ss, ls) && 0 < k < |ss|
    ensures ExtendsCommitted(ss[k - 1], ss[k])
  {
    StepExtendsCommitted(c, ss[k - 1], ls[k - 1], ss[k]);
  }

  /** Durability: what is committed stays committed, unchanged, across crashes too. */
  lemma {:induction false} CommittedIsDurable(c: Config, ss: seq<State>, ls: seq<Label>, j: nat, k: nat)
    requires IsRun(c, ss, ls) && j < k < |ss|
    ensures ExtendsCommitted(ss[j], ss[k])
    decreases k - j
  {
    RunExtendsCommitted(c, ss, ls, k);
    if j < k - 1 {
      CommittedIsDurable(c, ss, ls, j, k - 1);
      ExtendsTransitive(ss[j], ss[k - 1], ss[k]);
    }
  }

  /** A commit runs only with no operation in progress; end_op()'s panic is unreachable; and when the log is idle
      everything done so far is committed. */
  lemma {:induction false} CommitsAlone(c: Config, ss: seq<State>, ls: seq<Label>, k: nat)
    requires GoodConfig(c) && IsRun(c, ss, ls) && k < |ss|
    ensures ss[k].committing ==> ss[k].outstanding == 0 && ss[k].used == map[]
    ensures ss[k].panic != LogCommitting
    ensures ss[k].phase.Running? && ss[k].outstanding == 0 ==> ss[k].cut == |ss[k].hist| && ss[k].lh == []
  {
    RunKeepsInv(c, ss, ls, k);
  }

  // log_write() called by somebody outside a transaction while nobody is inside one.
  ghost predicate Intrudes(c: Config, s: State, l: Label) {
    l.Outside? && s.outstanding < 1 && !TooBig(c, s)
  }

  lemma {:induction false} IntrudesStep(c: Config, s: State, l: Label, t: State)
    requires Inv(c, s) && Follows(c, s, l, t)
    ensures t.panic == OutsideTransaction <==> Intrudes(c, s, l) || (s.panic == OutsideTransaction && !l.Crash?)
  {
    if l.LogWrite? {
      assert s.used != map[];
      assert |s.used| > 0;
    }
  }

  // A run that comes to the panic took such a step.
  lemma {:induction false} IntruderBefore(c: Config, ss: seq<State>, ls: seq<Label>, k: nat) returns (n: nat)
    requires GoodConfig(c) && IsRun(c, ss, ls) && k < |ss| && ss[k].panic == OutsideTransaction
    ensures n < |ls| && Intrudes(c, ss[n], ls[n])
    decreases k
  {
    hide Inv, Intrudes;
    RunKeepsInv(c, ss, ls, k - 1);
    IntrudesStep(c, ss[k - 1], ls[k - 1], ss[k]);
    if Intrudes(c, ss[k - 1], ls[k - 1]) {
      n := k - 1;
    } else {
      n := IntruderBefore(c, ss, ls, k - 1);
    }
  }

  /** The exact condition: a run reaches log_write()'s "outside of trans" panic if and only if somebody that has not
      called begin_op() calls log_write() while no operation is outstanding. */
  lemma {:induction false} OutsideExact(c: Config, ss: seq<State>, ls: seq<Label>)
    requires GoodConfig(c) && IsRun(c, ss, ls)
    ensures (exists k :: 0 <= k < |ss| && ss[k].panic == OutsideTransaction)
       <==> (exists n :: 0 <= n < |ls| && Intrudes(c, ss[n], ls[n]))
  {
    hide Inv, Follows, Intrudes;
    if k :| 0 <= k < |ss| && ss[k].panic == OutsideTransaction {
      var n := IntruderBefore(c, ss, ls, k);
    }
    if n :| 0 <= n < |ls| && Intrudes(c, ss[n], ls[n]) {
      RunKeepsInv(c, ss, ls, n);
      assert Follows(c, ss[n], ls[n], ss[n + 1]);
      IntrudesStep(c, ss[n], ls[n], ss[n + 1]);
      assert ss[n + 1].panic == OutsideTransaction;
    }
  }
}
