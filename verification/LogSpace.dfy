/** Log-space reservation in kernel/log.c: what begin_op()'s test buys, and exactly when log_write()'s
    "too big a transaction" panic cannot fire. */
module LogSpace {
  import opened Disk
  import opened Log
  import opened GroupCommit

  // New log blocks the operations in progress may still append, if each may append at most m in all.
  ghost function Unspent(used: map<nat, nat>, m: nat): int
    decreases |used|
  {
    if used == map[] then 0
    else
      var op :| op in used;
      ShrinkKeys(used, op);
      m - used[op] + Unspent(used - {op}, m)
  }

  lemma ShrinkKeys(used: map<nat, nat>, op: nat)
    requires op in used
    ensures |used - {op}| == |used| - 1
  {
    assert (used - {op}).Keys == used.Keys - {op};
    assert |used| == |used.Keys| && |used - {op}| == |(used - {op}).Keys|;
  }

  // The sum does not depend on the order in which operations are counted.
  lemma {:induction false} UnspentSplit(used: map<nat, nat>, m: nat, op: nat)
    requires op in used
    ensures Unspent(used, m) == m - used[op] + Unspent(used - {op}, m)
    decreases |used|
  {
    var first :| first in used && Unspent(used, m) == m - used[first] + Unspent(used - {first}, m);
    if first != op {
      ShrinkKeys(used, op);
      ShrinkKeys(used, first);
      UnspentSplit(used - {first}, m, op);
      UnspentSplit(used - {op}, m, first);
      assert used - {first} - {op} == used - {op} - {first};
    }
  }

  // n operations' worth of budget.
  ghost function Times(n: nat, m: nat): nat {
    if n == 0 then 0 else m + Times(n - 1, m)
  }

  lemma {:induction false} UnspentAtMost(used: map<nat, nat>, m: nat)
    requires forall op :: op in used ==> used[op] <= m
    ensures 0 <= Unspent(used, m) <= Times(|used|, m)
    decreases |used|
  {
    if used != map[] {
      var op :| op in used;
      ShrinkKeys(used, op);
      UnspentSplit(used, m, op);
      UnspentAtMost(used - {op}, m);
    }
  }

  ghost predicate SpaceInv(c: Config, s: State) {
    && (forall op :: op in s.used ==> s.used[op] <= c.budget)
    && |s.lh| + Unspent(s.used, c.budget) <= MAXOPBLOCKS + 2 * c.budget
  }

  // What begin_op() finds when it admits an operation.
  lemma {:induction false} BeginFinds(c: Config, s: State, l: Label)
    requires Inv(c, s) && Enabled(c, s, l) && l.BeginOp?
    ensures l.op !in s.used && s.outstanding == |s.used|
    ensures s.used == map[] ==> s.lh == []
  {
  }

  lemma {:induction false} BeginSpace(lh: seq<nat>, used: map<nat, nat>, m: nat, op: nat)
    requires op !in used && (used == map[] ==> lh == [])
    requires forall o :: o in used ==> used[o] <= m
    requires |lh| + (|used| + 1) * MAXOPBLOCKS <= LOGSIZE && m <= MAXOPBLOCKS
    ensures |lh| + Unspent(used[op := 0], m) <= MAXOPBLOCKS + 2 * m
  {
    assert used[op := 0] - {op} == used;
    UnspentSplit(used[op := 0], m, op);
    UnspentAtMost(used, m);
    assert (|used| + 1) * MAXOPBLOCKS == 10 * |used| + 10;
    if |used| == 1 {
      assert Times(1, m) == m + Times(0, m);
    } else if |used| == 2 {
      assert Times(2, m) == m + Times(1, m) == m + (m + Times(0, m));
    }
  }

  lemma {:induction false} AppendSpace(used: map<nat, nat>, m: nat, op: nat)
    requires op in used
    ensures Unspent(used[op := used[op] + 1], m) == Unspent(used, m) - 1
  {
    var more := used[op := used[op] + 1];
    UnspentSplit(used, m, op);
    UnspentSplit(more, m, op);
    assert more - {op} == used - {op};
  }

  // Every log_write() is made between its caller's begin_op() and end_op().
  ghost predicate Inside(ls: seq<Label>) {
    forall i :: 0 <= i < |ls| ==> !ls[i].Outside?
  }

  lemma {:induction false} WriteSpace(c: Config, s: State, op: nat, at: nat, value: Block)
    requires SpaceInv(c, s) && op in s.used && at < |s.mem| && (at !in s.lh ==> s.used[op] < c.budget)
    ensures SpaceInv(c, DoLogWrite(c, s, op, at, value))
  {
    hide TooBig, Unspent;
    if at !in s.lh {
      AppendSpace(s.used, c.budget, op);
    }
  }

  lemma {:induction false} EndSpace(c: Config, s: State, op: nat, t: State)
    requires SpaceInv(c, s) && op in s.used && t.used == s.used - {op} && t.lh == s.lh
    ensures SpaceInv(c, t)
  {
    UnspentSplit(s.used, c.budget, op);
  }

  lemma {:induction false} ClearSpace(c: Config, s: State, t: State)
    requires SpaceInv(c, s) && (t.used == s.used || t.used == map[]) && (t.lh == s.lh || t.lh == [])
    ensures SpaceInv(c, t)
  {
    UnspentAtMost(s.used, c.budget);
  }

  lemma {:induction false} StepSpace(c: Config, s: State, l: Label, t: State)
    requires SpaceInv(c, s) && c.budget <= MAXOPBLOCKS && Follows(c, s, l, t) && !l.Outside?
    requires l.BeginOp? ==> l.op !in s.used && s.outstanding == |s.used| && (s.used == map[] ==> s.lh == [])
    ensures SpaceInv(c, t)
  {
    hide Ready, Unspent, CommitWrites, RecoveryWrites, DoLogWrite;
    match l
    case BeginOp(op) =>
      BeginSpace(s.lh, s.used, c.budget, op);
    case LogWrite(op, at, value) =>
      WriteSpace(c, s, op, at, value);
    case EndOp(op) =>
      EndSpace(c, s, op, t);
    case _ =>
      ClearSpace(c, s, t);
  }

  lemma {:induction false} StepSpaceInv(c: Config, s: State, l: Label, t: State)
    requires Inv(c, s) && SpaceInv(c, s) && c.budget <= MAXOPBLOCKS && Follows(c, s, l, t) && !l.Outside?
    ensures SpaceInv(c, t)
  {
    if l.BeginOp? {
      BeginFinds(c, s, l);
    }
    StepSpace(c, s, l, t);
  }

  lemma {:induction false} RunSpace(c: Config, ss: seq<State>, ls: seq<Label>, k: nat)
    requires GoodConfig(c) && IsRun(c, ss, ls) && Inside(ls) && k < |ss| && c.budget <= MAXOPBLOCKS
    ensures SpaceInv(c, ss[k])
  {
    hide Follows, Inv;
    if k > 0 {
      RunSpace(c, ss, ls, k - 1);
      RunKeepsInv(c, ss, ls, k - 1);
      StepSpaceInv(c, ss[k - 1], ls[k - 1], ss[k]);
    }
  }

  /** Reservation: if every log_write() is made inside an operation and every operation appends at most MAXOPBLOCKS new
      blocks, the blocks in the log plus all that is still reserved never exceed LOGSIZE. */
  lemma {:induction false} ReservationHolds(c: Config, ss: seq<State>, ls: seq<Label>, k: nat)
    requires GoodConfig(c) && IsRun(c, ss, ls) && Inside(ls) && k < |ss| && c.budget == MAXOPBLOCKS
    ensures |ss[k].lh| + Unspent(ss[k].used, MAXOPBLOCKS) <= LOGSIZE
    ensures forall op :: op in ss[k].used ==> ss[k].used[op] <= MAXOPBLOCKS
  {
    RunSpace(c, ss, ls, k);
  }

  // The number of blocks at which log_write() panics.
  function Cap(c: Config): (r: int) {
    if c.lay.size - 1 < LOGSIZE then c.lay.size - 1 else LOGSIZE
  }

  lemma {:induction false} GuardSilent(c: Config, ss: seq<State>, ls: seq<Label>, k: nat)
    requires GoodConfig(c) && IsRun(c, ss, ls) && Inside(ls) && k < |ss|
    requires MAXOPBLOCKS + 2 * c.budget < Cap(c)
    ensures ss[k].panic != TooBigTransaction
  {
    if k > 0 {
      GuardSilent(c, ss, ls, k - 1);
      RunSpace(c, ss, ls, k - 1);
      UnspentAtMost(ss[k - 1].used, c.budget);
      SilentStep(c, ss[k - 1], ls[k - 1], ss[k]);
    }
  }

  lemma {:induction false} SilentStep(c: Config, s: State, l: Label, t: State)
    requires Follows(c, s, l, t) && s.panic != TooBigTransaction && |s.lh| < Cap(c)
    ensures t.panic != TooBigTransaction
  {
  }

  // A run that has come to rest between operations' steps with the given log header and operations; ids from
  // next on are unused.
  ghost predicate Sits(c: Config, ss: seq<State>, ls: seq<Label>, lh: seq<nat>, used: map<nat, nat>, next: nat) {
    && IsRun(c, ss, ls) && Inside(ls)
    && RestsAt(ss[|ls|], lh, used, next)
  }

  ghost predicate RestsAt(s: State, lh: seq<nat>, used: map<nat, nat>, next: nat) {
    && s.phase.Running? && !s.committing && s.panic.NoPanic?
    && s.lh == lh && s.used == used && s.outstanding == |used|
    && forall i :: 0 <= i < |s.hist| ==> s.hist[i].op < next
  }

  lemma {:induction false} RunReady(c: Config, ss: seq<State>, ls: seq<Label>)
    requires GoodConfig(c) && IsRun(c, ss, ls)
    ensures Ready(c, ss[|ls|])
  {
    RunKeepsInv(c, ss, ls, |ls|);
  }

  lemma {:induction false} Extend(c: Config, ss: seq<State>, ls: seq<Label>, l: Label)
    returns (ss': seq<State>, ls': seq<Label>)
    requires GoodConfig(c) && IsRun(c, ss, ls) && Enabled(c, ss[|ls|], l)
    ensures IsRun(c, ss', ls') && ls' == ls + [l] && (Inside(ls) && !l.Outside? ==> Inside(ls'))
    ensures Ready(c, ss[|ls|]) && ss'[|ls'|] == Next(c, ss[|ls|], l)
  {
    hide Ready, Enabled, Next;
    RunReady(c, ss, ls);
    ss', ls' := ss + [Next(c, ss[|ls|], l)], ls + [l];
    forall i | 0 <= i < |ls'|
      ensures Follows(c, ss'[i], ls'[i], ss'[i + 1])
    {
      if i < |ls| {
        assert ss'[i] == ss[i] && ls'[i] == ls[i] && ss'[i + 1] == ss[i + 1];
      }
    }
  }

  ghost predicate Homes(c: Config, homes: seq<nat>) {
    Distinct(homes) && forall t :: 0 <= t < |homes| ==> homes[t] < |c.init| && IsHome(c.lay, homes[t])
  }

  lemma {:induction false} AddBegin(
      c: Config, ss: seq<State>, ls: seq<Label>, lh: seq<nat>, used: map<nat, nat>, next: nat)
    returns (ss': seq<State>, ls': seq<Label>)
    requires GoodConfig(c) && Sits(c, ss, ls, lh, used, next) && next !in used
    requires |lh| + (|used| + 1) * MAXOPBLOCKS <= LOGSIZE
    ensures Sits(c, ss', ls', lh, used[next := 0], next + 1)
  {
    ss', ls' := Extend(c, ss, ls, BeginOp(next));
    var more := used[next := 0];
    assert more.Keys == used.Keys + {next};
    assert |more| == |more.Keys| && |used| == |used.Keys|;
  }

  lemma {:induction false} AddEnd(
      c: Config, ss: seq<State>, ls: seq<Label>, lh: seq<nat>, used: map<nat, nat>, next: nat, op: nat)
    returns (ss': seq<State>, ls': seq<Label>)
    requires GoodConfig(c) && Sits(c, ss, ls, lh, used, next) && op in used && op < next && |used| >= 2
    ensures Sits(c, ss', ls', lh, used - {op}, next)
  {
    ShrinkKeys(used, op);
    ss', ls' := Extend(c, ss, ls, EndOp(op));
  }

  lemma {:induction false} AddWrite(
      c: Config, ss: seq<State>, ls: seq<Label>, lh: seq<nat>, used: map<nat, nat>, next: nat, op: nat, at: nat)
    returns (ss': seq<State>, ls': seq<Label>)
    requires GoodConfig(c) && Sits(c, ss, ls, lh, used, next) && op in used && op < next
    requires at !in lh && at < |c.init| && IsHome(c.lay, at) && used[op] < c.budget && |lh| < Cap(c)
    ensures Sits(c, ss', ls', lh + [at], used[op := used[op] + 1], next)
  {
    RunReady(c, ss, ls);
    ss', ls' := Extend(c, ss, ls, LogWrite(op, at, c.init[0]));
    var more := used[op := used[op] + 1];
    assert more.Keys == used.Keys;
    assert |more| == |more.Keys| && |used| == |used.Keys| && |used| > 0;
  }

  // One operation appends blocks homes[j..k].
  lemma {:induction false} Fill(
      c: Config, ss: seq<State>, ls: seq<Label>, homes: seq<nat>, used: map<nat, nat>, next: nat, op: nat, j: nat,
      k: nat)
    returns (ss': seq<State>, ls': seq<Label>)
    requires GoodConfig(c) && Homes(c, homes) && j <= k <= |homes| && k <= Cap(c)
    requires Sits(c, ss, ls, homes[..j], used, next) && op in used && op < next && used[op] + (k - j) <= c.budget
    ensures Sits(c, ss', ls', homes[..k], used[op := used[op] + (k - j)], next)
    decreases k - j
  {
    if j == k {
      ss', ls' := ss, ls;
      assert used[op := used[op]] == used;
    } else {
      assert homes[..j + 1] == homes[..j] + [homes[j]];
      var more := used[op := used[op] + 1];
      ss', ls' := AddWrite(c, ss, ls, homes[..j], used, next, op, homes[j]);
      ss', ls' := Fill(c, ss', ls', homes, more, next, op, j + 1, k);
      assert more[op := more[op] + (k - (j + 1))] == used[op := used[op] + (k - j)];
    }
  }

  // With operation 0 kept in progress, short operations of one block each fill the log to k <= MAXOPBLOCKS.
  lemma {:induction false} FillByMany(c: Config, homes: seq<nat>, k: nat) returns (ss: seq<State>, ls: seq<Label>)
    requires GoodConfig(c) && Homes(c, homes) && k <= |homes| && k <= MAXOPBLOCKS && k <= Cap(c) && 1 <= c.budget
    ensures Sits(c, ss, ls, homes[..k], map[0 := 0], k + 1)
  {
    if k == 0 {
      ss, ls := [Booted(c)], [];
      ss, ls := AddBegin(c, ss, ls, [], map[], 0);
      assert map[][0 := 0] == map[0 := 0];
    } else {
      ss, ls := FillByMany(c, homes, k - 1);
      ss, ls := AddBegin(c, ss, ls, homes[..k - 1], map[0 := 0], k);
      var two := map[0 := 0][k := 0];
      ss, ls := Fill(c, ss, ls, homes, two, k + 1, k, k - 1, k);
      var done := two[k := 1];
      assert done.Keys == {0, k};
      assert |done| == |done.Keys| == 2;
      ss, ls := AddEnd(c, ss, ls, homes[..k], done, k + 1, k);
      assert done - {k} == map[0 := 0];
    }
  }

  // The fullest log that operations of at most c.budget new blocks can build up, short of the panic.
  lemma {:induction false} FillToCap(
      c: Config, homes: seq<nat>)
    returns (ss: seq<State>, ls: seq<Label>, used: map<nat, nat>, next: nat)
    requires GoodConfig(c) && Homes(c, homes) && LOGSIZE <= |homes| && 1 <= c.budget
    requires 0 <= Cap(c) <= MAXOPBLOCKS + 2 * c.budget
    ensures Sits(c, ss, ls, homes[..Cap(c)], used, next) && 0 in used && (Cap(c) == 0 ==> used[0] == 0)
  {
    var cap := Cap(c);
    if cap <= MAXOPBLOCKS {
      ss, ls := FillByMany(c, homes, cap);
      used, next := map[0 := 0], cap + 1;
    } else {
      ss, ls := FillByMany(c, homes, MAXOPBLOCKS);
      ss, ls := AddBegin(c, ss, ls, homes[..MAXOPBLOCKS], map[0 := 0], MAXOPBLOCKS + 1);
      used, next := map[0 := 0][MAXOPBLOCKS + 1 := 0], MAXOPBLOCKS + 2;
      var mid := if cap - MAXOPBLOCKS <= c.budget then cap else MAXOPBLOCKS + c.budget;
      ss, ls := Fill(c, ss, ls, homes, used, next, MAXOPBLOCKS + 1, MAXOPBLOCKS, mid);
      used := used[MAXOPBLOCKS + 1 := mid - MAXOPBLOCKS];
      ss, ls := Fill(c, ss, ls, homes, used, next, 0, mid, cap);
      used := used[0 := cap - mid];
    }
  }

  lemma {:induction false} GuardFires(c: Config, homes: seq<nat>) returns (ss: seq<State>, ls: seq<Label>)
    requires GoodConfig(c) && Homes(c, homes) && LOGSIZE <= |homes| && 1 <= c.budget
    requires Cap(c) <= MAXOPBLOCKS + 2 * c.budget
    ensures IsRun(c, ss, ls) && Inside(ls) && ss[|ls|].panic == TooBigTransaction
  {
    var used, next;
    ss, ls, used, next := FillToCap(c, homes);
    RunReady(c, ss, ls);
    assert Cap(c) > 0 ==> homes[..Cap(c)][0] == homes[0];
    ss, ls := Extend(c, ss, ls, LogWrite(0, homes[0], c.init[0]));
  }

  /** The exact condition. With every log_write() made inside an operation, and operations that append at most
      c.budget new blocks each, "too big a transaction" is unreachable if and only if MAXOPBLOCKS + 2 * budget is below
      both LOGSIZE and the number of data blocks of the on-disk log. A budget of MAXOPBLOCKS itself never satisfies it,
      and on the log that mkfs makes (nlog = LOGSIZE, one block of it the header) the largest safe budget is
      MAXOPBLOCKS - 1. */
  lemma {:induction false} GuardExact(c: Config, homes: seq<nat>)
    requires GoodConfig(c) && Homes(c, homes) && LOGSIZE <= |homes| && 1 <= c.budget
    ensures (forall ss: seq<State>, ls: seq<Label> :: IsRun(c, ss, ls) && Inside(ls) ==>
               ss[|ls|].panic != TooBigTransaction)
       <==> MAXOPBLOCKS + 2 * c.budget < Cap(c)
    ensures c.lay.size == LOGSIZE ==> (MAXOPBLOCKS + 2 * c.budget < Cap(c) <==> c.budget <= MAXOPBLOCKS - 1)
  {
    if MAXOPBLOCKS + 2 * c.budget < Cap(c) {
      forall ss: seq<State>, ls: seq<Label> | IsRun(c, ss, ls) && Inside(ls)
        ensures ss[|ls|].panic != TooBigTransaction
      {
        GuardSilent(c, ss, ls, |ls|);
      }
    } else {
      var ss, ls := GuardFires(c, homes);
    }
  }

  // ---- callers outside any operation

  ghost predicate Rests(c: Config, ss: seq<State>, ls: seq<Label>, lh: seq<nat>, next: nat) {
    IsRun(c, ss, ls) && RestsAt(ss[|ls|], lh, map[0 := 0], next)
  }

  // While operation 0 is in progress and writes nothing, others log k blocks that nobody reserved.
  lemma {:induction false} OutsideFill(c: Config, homes: seq<nat>, k: nat) returns (ss: seq<State>, ls: seq<Label>)
    requires GoodConfig(c) && Homes(c, homes) && k <= |homes| && k <= Cap(c)
    ensures Rests(c, ss, ls, homes[..k], k + 1)
  {
    if k == 0 {
      ss, ls := AddBegin(c, [Booted(c)], [], [], map[], 0);
      assert map[][0 := 0] == map[0 := 0];
    } else {
      ss, ls := OutsideFill(c, homes, k - 1);
      assert homes[..k] == homes[..k - 1] + [homes[k - 1]];
      RunReady(c, ss, ls);
      ss, ls := Extend(c, ss, ls, Outside(k, homes[k - 1], c.init[0]));
    }
  }

  /** With callers outside any operation no budget is safe: whatever operations may append, such callers fill the
      log. */
  lemma {:induction false} OutsideFires(c: Config, homes: seq<nat>) returns (ss: seq<State>, ls: seq<Label>)
    requires GoodConfig(c) && Homes(c, homes) && LOGSIZE <= |homes|
    ensures IsRun(c, ss, ls) && ss[|ls|].panic == TooBigTransaction
  {
    ss, ls := OutsideFill(c, homes, Cap(c));
    RunReady(c, ss, ls);
    ss, ls := Extend(c, ss, ls, Outside(Cap(c) + 1, homes[0], c.init[0]));
  }

  /** And one such caller with no operation outstanding is enough for "outside of trans". */
  lemma {:induction false} OutsidePanics(c: Config, at: nat) returns (ss: seq<State>, ls: seq<Label>)
    requires GoodConfig(c) && at < |c.init| && IsHome(c.lay, at) && 0 < Cap(c)
    ensures IsRun(c, ss, ls) && |ls| == 1 && ls[0].Outside? && ls[0].at == at && ss[1].panic == OutsideTransaction
  {
    ss, ls := Extend(c, [Booted(c)], [], Outside(0, at, c.init[0]));
    RunReady(c, [Booted(c)], []);
  }
}
