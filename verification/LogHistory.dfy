/** The log's history (kernel/log.c) against the calls of a run: which updates count, and what the disk then holds, told
    from the steps alone. */
module LogHistory {
  import opened Disk
  import opened Log
  import opened GroupCommit

  // A log_write() by anybody, at step k of the run, that did not panic.
  ghost predicate Writes(ss: seq<State>, ls: seq<Label>, k: nat, b: nat)
    requires k < |ls| < |ss|
  {
    (ls[k].LogWrite? || ls[k].Outside?) && ls[k].at == b && ss[k + 1].panic.NoPanic?
  }

  // What the operations of the first n steps did, less what crashes discarded. A crash discards what is not committed.
  ghost function Recorded(ss: seq<State>, ls: seq<Label>, n: nat): (r: seq<Event>)
    requires n <= |ls| < |ss|
  {
    if n == 0 then []
    else
      var before := Recorded(ss, ls, n - 1);
      var l := ls[n - 1];
      match l
      case BeginOp(op) => before + [Begin(op)]
      case LogWrite(op, at, value) => if ss[n].panic.NoPanic? then before + [Update(op, at, value)] else before
      case Outside(op, at, value) =>
        if ss[n].panic.NoPanic? then before + [Begin(op), Update(op, at, value), End(op)] else before
      case EndOp(op) => before + [End(op)]
      case Crash => if ss[n - 1].cut <= |before| then before[..ss[n - 1].cut] else before
      case _ => before
  }

  lemma {:induction false} StepRecords(c: Config, s: State, l: Label, t: State)
    requires Inv(c, s) && Follows(c, s, l, t)
    ensures match l
            case BeginOp(op) => t.hist == s.hist + [Begin(op)]
            case LogWrite(op, at, value) =>
              t.hist == if t.panic.NoPanic? then s.hist + [Update(op, at, value)] else s.hist
            case Outside(op, at, value) =>
              t.hist == if t.panic.NoPanic? then s.hist + [Begin(op), Update(op, at, value), End(op)] else s.hist
            case EndOp(op) => t.hist == s.hist + [End(op)]
            case Crash => s.cut <= |s.hist| && t.hist == s.hist[..s.cut]
            case _ => t.hist == s.hist
  {
    hide CommitWrites, RecoveryWrites, Fits, LogArea, InvMemory, InvPhase, InvHistory, TooBig;
  }

  /** In every run, at every point, the history is exactly what the steps say: every begin_op(), end_op() and
      log_write() that did not panic, in order, less what was not committed at a crash. */
  lemma {:induction false} HistoryIsSteps(c: Config, ss: seq<State>, ls: seq<Label>, n: nat)
    requires GoodConfig(c) && IsRun(c, ss, ls) && n < |ss|
    ensures ss[n].hist == Recorded(ss, ls, n)
  {
    hide Follows, Inv;
    if n > 0 {
      HistoryIsSteps(c, ss, ls, n - 1);
      RunKeepsInv(c, ss, ls, n - 1);
      assert Follows(c, ss[n - 1], ls[n - 1], ss[n]);
      StepRecords(c, ss[n - 1], ls[n - 1], ss[n]);
    }
  }

  // The last update of block b in h, or what it was.
  ghost function Last(was: Block, h: seq<Event>, b: nat): (r: Block) {
    if h == [] then was
    else
      var e := h[|h| - 1];
      if e.Update? && e.at == b then e.value else Last(was, h[..|h| - 1], b)
  }

  lemma {:induction false} ReplayLast(init: Image, h: seq<Event>, b: nat)
    requires b < |init|
    ensures Replay(init, h)[b] == Last(init[b], h, b)
  {
    if h != [] {
      ReplayLast(init, h[..|h| - 1], b);
    }
  }

  lemma {:induction false} MemoryHolds(c: Config, s: State, b: nat)
    requires Inv(c, s) && b < |s.mem| && IsHome(c.lay, b)
    ensures b < |c.init| && !s.phase.Recovering? ==> s.mem[b] == Replay(c.init, s.hist)[b]
    ensures s.phase.Running? && s.outstanding == 0 ==>
              b < |s.disk| && b < |c.init| && s.disk[b] == Replay(c.init, s.hist)[b]
  {
    hide Replay, CommitWrites, RecoveryWrites, Recoverable, Apply;
    if s.phase.Running? && s.outstanding == 0 {
      assert s.hist[..s.cut] == s.hist;
    }
  }

  /** In every run bread() returns the last value written to a home block by a log_write() that did not panic and that
      no crash discarded; and whenever the log is idle, after a commit or a recovery, the disk holds it. */
  lemma {:induction false} BlocksHoldLast(c: Config, ss: seq<State>, ls: seq<Label>, n: nat, b: nat)
    requires GoodConfig(c) && IsRun(c, ss, ls) && n < |ss| && b < |c.init| && IsHome(c.lay, b)
    ensures |ss[n].mem| == |ss[n].disk| == |c.init|
    ensures !ss[n].phase.Recovering? ==> ss[n].mem[b] == Last(c.init[b], Recorded(ss, ls, n), b)
    ensures ss[n].phase.Running? && ss[n].outstanding == 0 ==> ss[n].disk[b] == Last(c.init[b], Recorded(ss, ls, n), b)
  {
    hide InvHistory, InvMemory, InvPhase, Follows;
    RunKeepsInv(c, ss, ls, n);
    HistoryIsSteps(c, ss, ls, n);
    ReplayLast(c.init, ss[n].hist, b);
    MemoryHolds(c, ss[n], b);
  }

  lemma {:induction false} LastKept(c: Config, ss: seq<State>, ls: seq<Label>, k: nat, n: nat, was: Block)
    requires IsRun(c, ss, ls) && k < n <= |ls| && (ls[k].LogWrite? || ls[k].Outside?) && ss[k + 1].panic.NoPanic?
    requires forall j :: k < j < n ==> !Writes(ss, ls, j, ls[k].at) && !ls[j].Crash?
    ensures Last(was, Recorded(ss, ls, n), ls[k].at) == ls[k].value
    decreases n
  {
    hide Follows;
    var h, l := Recorded(ss, ls, n - 1), ls[n - 1];
    if n == k + 1 {
      if l.Outside? {
        var r := h + [Begin(l.op), Update(l.op, l.at, l.value), End(l.op)];
        assert r[..|r| - 1] == h + [Begin(l.op), Update(l.op, l.at, l.value)];
      }
    } else {
      LastKept(c, ss, ls, k, n - 1, was);
      LastSkips(was, h, ls[k].at, l);
      assert !Writes(ss, ls, n - 1, ls[k].at);
    }
  }

  lemma {:induction false} LastSkips(was: Block, h: seq<Event>, b: nat, l: Label)
    ensures forall e: Event :: !(e.Update? && e.at == b) ==> Last(was, h + [e], b) == Last(was, h, b)
    ensures l.Outside? && l.at != b ==>
              Last(was, h + [Begin(l.op), Update(l.op, l.at, l.value), End(l.op)], b) == Last(was, h, b)
  {
    forall e: Event | !(e.Update? && e.at == b)
      ensures Last(was, h + [e], b) == Last(was, h, b)
    {
      assert (h + [e])[..|h|] == h;
    }
    if l.Outside? && l.at != b {
      var r := h + [Begin(l.op), Update(l.op, l.at, l.value), End(l.op)];
      assert r[..|r| - 1] == h + [Begin(l.op), Update(l.op, l.at, l.value)];
      assert r[..|r| - 1][..|r| - 2] == h + [Begin(l.op)];
      assert r[..|r| - 1][..|r| - 2][..|r| - 3] == h;
    }
  }

  /** The last write wins: if log_write() of a block at step k did not panic, and neither a crash nor another such write
      of that block followed before step n, bread() returns its value at n; and so does the disk, if the commit ended at
      that step. */
  lemma {:induction false} LastWriteWins(c: Config, ss: seq<State>, ls: seq<Label>, k: nat, n: nat)
    requires GoodConfig(c) && IsRun(c, ss, ls) && k < n <= |ls|
    requires (ls[k].LogWrite? || ls[k].Outside?) && ss[k + 1].panic.NoPanic?
    requires forall j :: k < j < n ==> !Writes(ss, ls, j, ls[k].at) && !ls[j].Crash?
    ensures ls[k].at < |ss[n].mem| == |ss[n].disk| && ss[n].mem[ls[k].at] == ls[k].value
    ensures ls[n - 1].CommitDone? ==> ss[n].disk[ls[k].at] == ls[k].value
  {
    hide Follows, Inv;
    assert Follows(c, ss[k], ls[k], ss[k + 1]);
    WritesHome(c, ss, ls, k);
    LastKept(c, ss, ls, k, n, c.init[ls[k].at]);
    BlocksHoldLast(c, ss, ls, n, ls[k].at);
    StaysUp(c, ss, ls, k, n);
  }

  lemma {:induction false} WritesHome(c: Config, ss: seq<State>, ls: seq<Label>, k: nat)
    requires GoodConfig(c) && IsRun(c, ss, ls) && k < |ls| && (ls[k].LogWrite? || ls[k].Outside?)
    ensures ls[k].at < |c.init| && IsHome(c.lay, ls[k].at) && !ss[k].phase.Recovering? && !ss[k + 1].phase.Recovering?
  {
    hide InvHistory, InvMemory, InvPhase, Next;
    RunKeepsInv(c, ss, ls, k);
    assert Follows(c, ss[k], ls[k], ss[k + 1]);
    PhaseKept(c, ss[k], ls[k], ss[k + 1]);
  }

  lemma {:induction false} PhaseKept(c: Config, s: State, l: Label, t: State)
    requires Follows(c, s, l, t)
    ensures !s.phase.Recovering? && !l.Crash? ==> !t.phase.Recovering?
    ensures l.CommitDone? ==> t.phase.Running? && t.outstanding == s.outstanding && s.phase.Committing?
  {
    hide Ready, CommitWrites, RecoveryWrites, TooBig;
  }

  lemma {:induction false} StaysUp(c: Config, ss: seq<State>, ls: seq<Label>, k: nat, n: nat)
    requires GoodConfig(c) && IsRun(c, ss, ls) && k < n <= |ls| && !ss[k + 1].phase.Recovering?
    requires forall j :: k < j < n ==> !ls[j].Crash?
    ensures !ss[n].phase.Recovering?
    ensures ls[n - 1].CommitDone? ==> ss[n].phase.Running? && ss[n].outstanding == 0
    decreases n
  {
    hide Follows, Inv;
    assert Follows(c, ss[n - 1], ls[n - 1], ss[n]);
    PhaseKept(c, ss[n - 1], ls[n - 1], ss[n]);
    RunKeepsInv(c, ss, ls, n - 1);
    if ls[n - 1].CommitDone? {
      NoneOutstanding(c, ss[n - 1]);
    }
    if n > k + 1 {
      StaysUp(c, ss, ls, k, n - 1);
    }
  }

  lemma {:induction false} NoneOutstanding(c: Config, s: State)
    requires Inv(c, s) && s.phase.Committing?
    ensures s.outstanding == 0
  {
    hide Ready, InvMemory, InvHistory, CommitWrites;
  }
}
