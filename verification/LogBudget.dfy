/** The kernel's transactions (kernel/file.c, kernel/sysfile.c) against the log's space (kernel/log.c). */
module LogBudget {
  import opened Bytes
  import opened Options
  import opened Disk
  import opened Log
  import opened GroupCommit
  import opened LogSpace
  import FileBlocks
  import FileBytes
  import FileSystem
  import FileWrite

  // ---- Budgets read off the blocks ----

  // Every block an operation updates lies in its set of blocks.
  ghost predicate UpdatesWithin(ls: seq<Label>, blocks: nat -> set<nat>) {
    forall k :: 0 <= k < |ls| && ls[k].LogWrite? ==> ls[k].at in blocks(ls[k].op)
  }

  ghost predicate SetsWithin(ls: seq<Label>, blocks: nat -> set<nat>, m: nat) {
    forall k :: 0 <= k < |ls| && ls[k].LogWrite? ==> |blocks(ls[k].op)| <= m
  }

  // The new log blocks of an operation are among its blocks that are in the log.
  ghost predicate Spent(s: State, blocks: nat -> set<nat>) {
    forall op :: op in s.used ==> s.used[op] <= |blocks(op) * (set b | b in s.lh)|
  }

  lemma {:induction false} SpentMono(bs: set<nat>, lh: seq<nat>, at: nat)
    ensures |bs * (set b | b in lh)| <= |bs * (set b | b in Absorb(lh, at))|
    ensures at in bs && at !in lh ==>
              && |bs * (set b | b in lh)| < |bs * (set b | b in Absorb(lh, at))|
              && |bs * (set b | b in lh)| < |bs|
  {
    var xs, ys := bs * (set b | b in lh), bs * (set b | b in Absorb(lh, at));
    FileWrite.SubsetSize(xs, ys);
    if at in bs && at !in lh {
      FileWrite.SubsetSize(xs + {at}, ys);
      FileWrite.SubsetSize(xs + {at}, bs);
    }
  }

  lemma {:induction false} SpentWrite(c: Config, s: State, op: nat, at: nat, value: Block, blocks: nat -> set<nat>)
    requires Spent(s, blocks) && op in s.used && at < |s.mem| && at in blocks(op)
    ensures Spent(DoLogWrite(c, s, op, at, value), blocks)
  {
    var t := DoLogWrite(c, s, op, at, value);
    forall o | o in t.used ensures t.used[o] <= |blocks(o) * (set b | b in t.lh)| {
      SpentMono(blocks(o), s.lh, at);
    }
  }

  lemma {:induction false} SpentStep(c: Config, s: State, l: Label, t: State, blocks: nat -> set<nat>)
    requires Inv(c, s) && Follows(c, s, l, t) && Spent(s, blocks) && !l.Outside?
    requires l.LogWrite? ==> l.at in blocks(l.op)
    ensures Spent(t, blocks)
  {
    hide Ready, Inv, DoLogWrite, CommitWrites, RecoveryWrites;
    match l
    case LogWrite(op, at, _) =>
      SpentWrite(c, s, op, at, l.value, blocks);
    case CommitDone => NoneLeft(c, s);
    case RecoverDone => NoneLeft(c, s);
    case _ =>
  }

  lemma {:induction false} NoneLeft(c: Config, s: State)
    requires Inv(c, s) && (s.phase.Committing? || s.phase.Recovering?)
    ensures s.used == map[]
  {
    hide Ready, Replay, SameHome, InvMemory, CommitWrites, RecoveryWrites;
    assert |s.used| == 0;
  }

  lemma {:induction false} RunSpent(
      c: Config, ss: seq<State>, ls: seq<Label>, k: nat, blocks: nat -> set<nat>)
    requires GoodConfig(c) && IsRun(c, ss, ls) && Inside(ls) && k < |ss| && UpdatesWithin(ls, blocks)
    ensures Spent(ss[k], blocks)
  {
    hide Follows, Inv;
    if k > 0 {
      RunSpent(c, ss, ls, k - 1, blocks);
      RunKeepsInv(c, ss, ls, k - 1);
      SpentStep(c, ss[k - 1], ls[k - 1], ss[k], blocks);
    }
  }

  // A step of an operation whose blocks number at most m is a step under a budget of m.
  lemma {:induction false} StepRebudget(c: Config, s: State, l: Label, t: State, blocks: nat -> set<nat>, m: nat)
    requires Follows(c, s, l, t) && Spent(s, blocks)
    requires l.LogWrite? ==> l.at in blocks(l.op) && |blocks(l.op)| <= m
    ensures Follows(c.(budget := m), s, l, t)
  {
    hide Shaped, Fits, DoLogWrite, DoEnd, DoCrash;
    SameShape(c, s, m);
    if l.LogWrite? {
      SpentMono(blocks(l.op), s.lh, l.at);
      assert DoLogWrite(c.(budget := m), s, l.op, l.at, l.value) == DoLogWrite(c, s, l.op, l.at, l.value) by {
        SameWrite(c, s, l.op, l.at, l.value, m);
      }
    }
  }

  // The budget bounds what operations do; nothing else depends on it.
  lemma {:induction false} SameShape(c: Config, s: State, m: nat)
    requires Shaped(c, s)
    ensures Shaped(c.(budget := m), s)
    ensures DoCrash(c.(budget := m), s) == DoCrash(c, s)
    ensures forall op :: DoEnd(c.(budget := m), s, op) == DoEnd(c, s, op)
  {
    hide CommitWrites, RecoveryWrites, LogArea, GoodHead;
  }

  lemma {:induction false} SameWrite(c: Config, s: State, op: nat, at: nat, value: Block, m: nat)
    requires op in s.used && at < |s.mem|
    ensures DoLogWrite(c.(budget := m), s, op, at, value) == DoLogWrite(c, s, op, at, value)
  {
  }

  /** A run in which every operation keeps to a set of at most m blocks is a run under the budget m, whatever budget it
      was given: the number of distinct blocks an operation updates bounds what it appends to the log. */
  lemma {:induction false} Rebudget(c: Config, ss: seq<State>, ls: seq<Label>, blocks: nat -> set<nat>, m: nat)
    requires GoodConfig(c) && IsRun(c, ss, ls) && Inside(ls) && UpdatesWithin(ls, blocks) && SetsWithin(ls, blocks, m)
    ensures GoodConfig(c.(budget := m)) && IsRun(c.(budget := m), ss, ls)
  {
    hide Follows, Spent;
    forall i | 0 <= i < |ls| ensures Follows(c.(budget := m), ss[i], ls[i], ss[i + 1]) {
      RunSpent(c, ss, ls, i, blocks);
      StepRebudget(c, ss[i], ls[i], ss[i + 1], blocks, m);
    }
  }

  // ---- What the kernel's calls log ----

  // A directory entry written by writei(). fs is the file system it finds.
  datatype Entry = Entry(fs: FileBlocks.Fs, off: nat, src: seq<byte>)

  // The calls between begin_op() and end_op(). ip is the file, dp the directory. Write is one transaction of
  // filewrite(); Create is open(), mkdir() or mknod(); Put is an iput() on its own.
  datatype Call =
    | Write(fs: FileBlocks.Fs, ip: nat, off: nat, src: seq<byte>)
    | Create(ip: nat, dp: nat, dot: Entry, dotdot: Entry, name: Entry)
    | Link(ip: nat, dp: nat, name: Entry)
    | Unlink(ip: nat, dp: nat, name: Entry)
    | Put(ip: nat)

  // On a disk of n blocks.
  ghost predicate GoodEntry(lay: FileBlocks.Layout, n: nat, i: nat, e: Entry) {
    && FileBlocks.Shape(lay, e.fs) && |e.fs.bits| == n && i < |e.fs.inodes|
    && e.off % 16 == 0 && |e.src| == 16 && e.off + 16 <= FileBytes.MAXFILE * 1024
    && exists own :: FileBlocks.Owned(lay, e.fs, own)
  }

  ghost predicate GoodCall(lay: FileBlocks.Layout, n: nat, call: Call) {
    match call
    case Write(fs, ip, off, src) =>
      && FileBlocks.Shape(lay, fs) && |fs.bits| == n && ip < |fs.inodes| && FileBytes.Solid(fs, ip)
      && off <= fs.inodes[ip].size && 0 < |src| <= FileWrite.MAX && off + |src| <= FileBytes.MAXFILE * 1024
      && exists own :: FileBlocks.Owned(lay, fs, own)
    case Create(ip, dp, dot, dotdot, name) =>
      GoodEntry(lay, n, ip, dot) && GoodEntry(lay, n, ip, dotdot) && GoodEntry(lay, n, dp, name)
    case Link(_, dp, name) => GoodEntry(lay, n, dp, name)
    case Unlink(_, dp, name) => GoodEntry(lay, n, dp, name)
    case Put(_) => true
  }

  // iupdate(), ialloc().
  function InodeLogs(lay: FileBlocks.Layout, i: nat): (r: set<nat>) {
    {FileSystem.IBlock(lay, i)}
  }

  // iput() of a file nobody names any more: itrunc() and iupdate().
  function PutLogs(lay: FileBlocks.Layout, n: nat, i: nat): (r: set<nat>) {
    FileSystem.BitmapBlocks(lay, n) + {FileSystem.IBlock(lay, i)}
  }

  ghost function EntryLogs(lay: FileBlocks.Layout, n: nat, i: nat, e: Entry): (r: set<nat>)
    requires GoodEntry(lay, n, i, e)
  {
    FileSystem.WriteLogs(lay, e.fs, i, e.off, e.src) + {FileSystem.IBlock(lay, i)}
  }

  // Everything a call may log on any of its paths, the clean-up after a failure and the iput()s at its end included.
  ghost function CallLogs(lay: FileBlocks.Layout, n: nat, call: Call): (r: set<nat>)
    requires GoodCall(lay, n, call)
  {
    match call
    case Write(fs, ip, off, src) => FileSystem.WriteLogs(lay, fs, ip, off, src) + {FileSystem.IBlock(lay, ip)}
    case Create(ip, dp, dot, dotdot, name) =>
      InodeLogs(lay, ip) + EntryLogs(lay, n, ip, dot) + EntryLogs(lay, n, ip, dotdot) + EntryLogs(lay, n, dp, name)
      + InodeLogs(lay, dp) + PutLogs(lay, n, ip) + PutLogs(lay, n, dp)
    case Link(ip, dp, name) =>
      InodeLogs(lay, ip) + EntryLogs(lay, n, dp, name) + PutLogs(lay, n, ip) + PutLogs(lay, n, dp)
    case Unlink(ip, dp, name) =>
      EntryLogs(lay, n, dp, name) + InodeLogs(lay, dp) + InodeLogs(lay, ip) + PutLogs(lay, n, dp) + PutLogs(lay, n, ip)
    case Put(ip) => PutLogs(lay, n, ip)
  }

  // A directory entry lies in one block, so besides the bitmap block and the inode only that block and the indirect
  // block are logged.
  lemma {:induction false} EntryFits(lay: FileBlocks.Layout, n: nat, i: nat, e: Entry) returns (es: set<nat>)
    requires n <= FileSystem.BPB && GoodEntry(lay, n, i, e)
    ensures |es| <= 2 && EntryLogs(lay, n, i, e) <= {lay.bmapstart, FileSystem.IBlock(lay, i)} + es
  {
    hide FileBlocks.Owned, FileSystem.WriteLogs;
    var own :| FileBlocks.Owned(lay, e.fs, own);
    var ds, bs, zs := FileWrite.WriteKinds(lay, e.fs, own, i, e.off, e.src);
    FileWrite.SpanAtMost(e.off, 16, 1);
    FileWrite.SetSizes(ds, zs);
    es := ds + zs;
    assert forall x :: x in bs ==> x == lay.bmapstart;
  }

  lemma {:induction false} PutFits(lay: FileBlocks.Layout, n: nat, i: nat)
    requires n <= FileSystem.BPB
    ensures PutLogs(lay, n, i) <= {lay.bmapstart, FileSystem.IBlock(lay, i)}
  {
  }

  // At most k blocks besides the bitmap block and the inodes x and y.
  lemma {:induction false} CountLogs(lay: FileBlocks.Layout, x: nat, y: nat, logs: set<nat>, es: set<nat>)
    requires logs <= {lay.bmapstart, FileSystem.IBlock(lay, x), FileSystem.IBlock(lay, y)} + es
    ensures |logs| <= 3 + |es|
  {
    var fixed := {lay.bmapstart, FileSystem.IBlock(lay, x), FileSystem.IBlock(lay, y)};
    FileWrite.SetSizes(fixed, es);
    FileWrite.SubsetSize(logs, fixed + es);
  }

  lemma {:induction false} CreateFits(lay: FileBlocks.Layout, n: nat, call: Call)
    requires n <= FileSystem.BPB && GoodCall(lay, n, call) && call.Create?
    ensures |CallLogs(lay, n, call)| <= 9
  {
    hide GoodEntry, EntryLogs, PutLogs;
    var es := EntryFits(lay, n, call.ip, call.dot);
    var es' := EntryFits(lay, n, call.ip, call.dotdot);
    var es'' := EntryFits(lay, n, call.dp, call.name);
    FileWrite.SetSizes(es, es');
    FileWrite.SetSizes(es + es', es'');
    PutFits(lay, n, call.ip);
    PutFits(lay, n, call.dp);
    CountLogs(lay, call.ip, call.dp, CallLogs(lay, n, call), es + es' + es'');
  }

  lemma {:induction false} NameFits(lay: FileBlocks.Layout, n: nat, call: Call)
    requires n <= FileSystem.BPB && GoodCall(lay, n, call) && (call.Link? || call.Unlink?)
    ensures |CallLogs(lay, n, call)| <= 5
  {
    hide GoodEntry, EntryLogs, PutLogs;
    var es := EntryFits(lay, n, call.dp, call.name);
    PutFits(lay, n, call.ip);
    PutFits(lay, n, call.dp);
    CountLogs(lay, call.ip, call.dp, CallLogs(lay, n, call), es);
  }

  /** On a disk with one bitmap block every call of the kernel logs fewer than MAXOPBLOCKS = 10 distinct blocks: a
      transaction of filewrite() at most 7, create() at most 9, link() and unlink() at most 5 and iput() at most 2. */
  lemma {:induction false} CallFits(lay: FileBlocks.Layout, n: nat, call: Call)
    requires n <= FileSystem.BPB && GoodCall(lay, n, call)
    ensures |CallLogs(lay, n, call)|
         <= match call case Write(_, _, _, _) => 7 case Create(_, _, _, _, _) => 9 case Put(_) => 2 case _ => 5
  {
    hide FileSystem.WriteLogs, FileBlocks.Owned;
    match call
    case Write(fs, ip, off, src) =>
      var own :| FileBlocks.Owned(lay, fs, own);
      FileWrite.TransactionFits(lay, fs, own, ip, off, src);
    case Create(_, _, _, _, _) => CreateFits(lay, n, call);
    case Put(ip) =>
      PutFits(lay, n, ip);
      FileWrite.SubsetSize(PutLogs(lay, n, ip), {lay.bmapstart, FileSystem.IBlock(lay, ip)});
    case _ => NameFits(lay, n, call);
  }

  // ---- The kernel on mkfs's disk ----

  // What the operation logs, if it is one of calls.
  ghost function OpLogs(lay: FileBlocks.Layout, n: nat, calls: map<nat, Call>, op: nat): (r: set<nat>)
    requires forall o :: o in calls ==> GoodCall(lay, n, calls[o])
  {
    if op in calls then CallLogs(lay, n, calls[op]) else {}
  }

  // Every operation of the run is one of calls and updates only blocks that call logs.
  ghost predicate RunsCalls(lay: FileBlocks.Layout, n: nat, calls: map<nat, Call>, ls: seq<Label>)
    requires forall o :: o in calls ==> GoodCall(lay, n, calls[o])
  {
    forall k :: 0 <= k < |ls| && ls[k].LogWrite? ==> ls[k].at in OpLogs(lay, n, calls, ls[k].op)
  }

  /** On a disk with one bitmap block and the log that mkfs makes, the kernel's calls never make log_write() panic "too
      big a transaction", however many run, however they interleave and wherever the machine crashes. */
  lemma {:induction false} CallsNeverPanic(
      lay: FileBlocks.Layout, n: nat, calls: map<nat, Call>, c: Config, ss: seq<State>, ls: seq<Label>, k: nat)
    requires n <= FileSystem.BPB && forall o :: o in calls ==> GoodCall(lay, n, calls[o])
    requires GoodConfig(c) && c.lay.size == LOGSIZE && IsRun(c, ss, ls) && k < |ss|
    requires Inside(ls) && RunsCalls(lay, n, calls, ls)
    ensures ss[k].panic != TooBigTransaction
  {
    hide GoodCall, CallLogs, Follows;
    var blocks := (op: nat) => OpLogs(lay, n, calls, op);
    forall o | o in calls ensures |CallLogs(lay, n, calls[o])| <= 9 {
      CallFits(lay, n, calls[o]);
    }
    Rebudget(c, ss, ls, blocks, 9);
    GuardSilent(c.(budget := 9), ss, ls, k);
  }

  /** With four bitmap blocks the bound on a transaction of filewrite() is MAXOPBLOCKS itself, and that budget fails the
      exact condition on every log. */
  lemma {:induction false} FullBudgetFails(c: Config, homes: seq<nat>) returns (ss: seq<State>, ls: seq<Label>)
    requires GoodConfig(c) && Homes(c, homes) && LOGSIZE <= |homes|
    requires c.budget == MAXOPBLOCKS
    ensures IsRun(c, ss, ls) && ss[|ls|].panic == TooBigTransaction
  {
    ss, ls := GuardFires(c, homes);
  }
}
