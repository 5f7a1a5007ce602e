/** The methods of kernel/log.c, as they run: each bwrite is recorded in trace, and every method's disk
    writes are exactly the ones the crash theorems of Log are about. */
module LogDevice {
  import opened Disk
  import opened Log

  lemma {:induction false} TakeNext<T>(done: seq<T>, s: seq<T>, k: nat)
    requires k < |s|
    ensures done + s[..k] + [s[k]] == done + s[..k + 1]
  {
    assert s[..k + 1] == s[..k] + [s[k]];
  }

  // One turn of write_log()'s loop: the cached block is still what it was when the loop began.
  lemma {:induction false} WriteLogTurn(lay: Layout, mem: Image, disk: Image, lh: seq<nat>, k: nat)
    requires LogArea(lay, mem) && |mem| == |disk| && GoodHead(lay, |mem|, lh) && k < |lh|
    ensures var ws := LogCopies(lay, Cached(mem, lh));
            && Fits(mem, ws) && Fits(disk, ws)
            && Apply(mem, ws[..k])[lh[k]] == ws[k].value && ws[k].at == lay.start + k + 1
            && Apply(mem, ws[..k + 1]) == Apply(mem, ws[..k])[ws[k].at := ws[k].value]
            && Apply(disk, ws[..k + 1]) == Apply(disk, ws[..k])[ws[k].at := ws[k].value]
  {
    var ws := LogCopies(lay, Cached(mem, lh));
    LogEffect(lay, mem, Cached(mem, lh), k);
    assert IsHome(lay, lh[k]);
    ApplyNext(mem, ws, k);
    ApplyNext(disk, ws, k);
  }

  // One turn of install_trans()'s loop: the log block is still what it was when the loop began.
  lemma {:induction false} InstallTurn(lay: Layout, mem: Image, disk: Image, lh: seq<nat>, k: nat)
    requires LogArea(lay, mem) && |mem| == |disk| && GoodHead(lay, |mem|, lh) && k < |lh|
    ensures var ws := HomeCopies(lh, Logged(lay, mem, |lh|));
            && Fits(mem, ws) && Fits(disk, ws)
            && Apply(mem, ws[..k])[lay.start + k + 1] == ws[k].value && ws[k].at == lh[k]
            && Apply(mem, ws[..k + 1]) == Apply(mem, ws[..k])[ws[k].at := ws[k].value]
            && Apply(disk, ws[..k + 1]) == Apply(disk, ws[..k])[ws[k].at := ws[k].value]
  {
    var ws := HomeCopies(lh, Logged(lay, mem, |lh|));
    InstallUntouched(lay, mem, lh, Logged(lay, mem, |lh|), k);
    ApplyNext(mem, ws, k);
    ApplyNext(disk, ws, k);
  }

  lemma {:induction false} WriteLogKeepsHead(lay: Layout, mem: Image, disk: Image, lh: seq<nat>)
    requires LogArea(lay, mem) && |mem| == |disk| && GoodHead(lay, |mem|, lh)
    ensures var ws := LogCopies(lay, Cached(mem, lh));
            Fits(disk, ws) && Fits(mem, ws) && ws[..|lh|] == ws && Apply(mem, ws)[lay.start] == mem[lay.start]
  {
    LogEffectAll(lay, mem, Cached(mem, lh));
  }

  lemma {:induction false} InstallKeepsHead(lay: Layout, mem: Image, disk: Image, lh: seq<nat>)
    requires LogArea(lay, mem) && |mem| == |disk| && GoodHead(lay, |mem|, lh)
    ensures var ws := HomeCopies(lh, Logged(lay, mem, |lh|));
            Fits(disk, ws) && Fits(mem, ws) && ws[..|lh|] == ws && Apply(mem, ws)[lay.start] == mem[lay.start]
  {
    assert lay.start !in lh;
    HomeEffectAll(mem, lh, Logged(lay, mem, |lh|));
  }

  // After write_log() and the header write the log holds the cached blocks and the home blocks are untouched.
  lemma {:induction false} LogStage(lay: Layout, m0: Image, lh: seq<nat>, m2: Image)
    requires LogArea(lay, m0) && GoodHead(lay, |m0|, lh)
    requires Fits(m0, LogCopies(lay, Cached(m0, lh))) && |m2| == |m0|
    requires m2 == Apply(m0, LogCopies(lay, Cached(m0, lh)))[lay.start := m2[lay.start]]
    ensures Logged(lay, m2, |lh|) == Cached(m0, lh) && SameHome(lay, m2, m0)
  {
    LogEffectAll(lay, m0, Cached(m0, lh));
  }

  // Installing what the cache already holds changes no home block of memory.
  lemma {:induction false} InstallStage(lay: Layout, m2: Image, lh: seq<nat>, vs: seq<Block>)
    requires LogArea(lay, m2) && GoodHead(lay, |m2|, lh) && |vs| == |lh|
    requires forall t :: 0 <= t < |lh| ==> vs[t] == m2[lh[t]]
    ensures Fits(m2, HomeCopies(lh, vs)) && SameHome(lay, Apply(m2, HomeCopies(lh, vs)), m2)
    ensures Apply(m2, HomeCopies(lh, vs))[lay.start] == m2[lay.start]
  {
    HomeEffectAll(m2, lh, vs);
    var e := Apply(m2, HomeCopies(lh, vs));
    forall b | 0 <= b < |m2| && (IsHome(lay, b) || b == lay.start)
      ensures e[b] == m2[b]
    {
      if b in lh {
        var t :| 0 <= t < |lh| && lh[t] == b;
      }
    }
  }

  // The two halves of commit() together perform CommitWrites.
  lemma {:induction false} CommitJoins(
      lay: Layout, lh: seq<nat>, vs: seq<Block>, d0: Image, d1: Image, t0: seq<Write>, t1: seq<Write>)
    requires LogArea(lay, d0) && GoodHead(lay, |d0|, lh) && |vs| == |lh| > 0 && |d0[lay.start].words| == WORDS
    requires Fits(d0, LogCopies(lay, vs)) && Fits(d0, HomeCopies(lh, vs))
    requires Fits(d0, CommitWrites(lay, d0[lay.start], lh, vs))
    requires var head := EncodeHead(d0[lay.start], lh);
             && t1 == t0 + (LogCopies(lay, vs) + [Write(lay.start, head)])
             && d1 == Apply(d0, LogCopies(lay, vs))[lay.start := head]
    ensures Fits(d1, HomeCopies(lh, vs))
    ensures var clear := EncodeHead(EncodeHead(d0[lay.start], lh), []);
            && t0 + CommitWrites(lay, d0[lay.start], lh, vs) == t1 + (HomeCopies(lh, vs) + [Write(lay.start, clear)])
            && Apply(d0, CommitWrites(lay, d0[lay.start], lh, vs)) == Apply(d1, HomeCopies(lh, vs))[lay.start := clear]
  {
    var logs, homes := LogCopies(lay, vs), HomeCopies(lh, vs);
    var head := EncodeHead(d0[lay.start], lh);
    var first := logs + [Write(lay.start, head)];
    var clear := Write(lay.start, EncodeHead(head, []));
    assert CommitWrites(lay, d0[lay.start], lh, vs) == first + (homes + [clear]);
    ApplyAppend(d0, first, homes + [clear]);
    assert first[..|logs|] == logs;
    assert (homes + [clear])[..|homes|] == homes;
  }

  lemma {:induction false} RecoverStages(lay: Layout, d0: Image, lh: seq<nat>)
    requires LogArea(lay, d0) && GoodHead(lay, |d0|, lh) && ValidHead(d0[lay.start]) && lh == ReadHead(d0[lay.start])
    ensures Fits(d0, HomeCopies(lh, Logged(lay, d0, |lh|)))
    ensures Recover(lay, d0)
         == Apply(d0, HomeCopies(lh, Logged(lay, d0, |lh|)))[lay.start := EncodeHead(d0[lay.start], [])]
  {
    var homes := HomeCopies(lh, Logged(lay, d0, |lh|));
    var clear := Write(lay.start, EncodeHead(d0[lay.start], []));
    assert RecoveryWrites(lay, d0, lh) == homes + [clear];
    assert (homes + [clear])[..|homes|] == homes;
  }

  class LogDev {
    const lay: Layout
    var disk: Image             // durable contents
    var mem: Image              // what bread() returns for each block
    var lh: seq<nat>            // log.lh
    var outstanding: int
    var committing: bool
    ghost var trace: seq<Write> // bwrites so far

    ghost predicate Valid()
      reads this
    {
      && LogArea(lay, disk) && |mem| == |disk|
      && GoodHead(lay, |disk|, lh)
      && |mem[lay.start].words| == WORDS
    }

    // initlog() on a device that recovery has already cleaned.
    constructor (lay: Layout, image: Image)
      requires LogArea(lay, image) && |image[lay.start].words| == WORDS
      ensures Valid() && this.lay == lay && disk == image && mem == image && lh == [] && trace == []
      ensures outstanding == 0 && !committing
    {
      this.lay := lay;
      disk, mem, lh, trace := image, image, [], [];
      outstanding, committing := 0, false;
    }

    method Bwrite(b: nat)
      requires b < |mem| == |disk|
      modifies this`disk, this`trace
      ensures disk == old(disk)[b := mem[b]] && trace == old(trace) + [Write(b, mem[b])]
    {
      disk := disk[b := mem[b]];
      trace := trace + [Write(b, mem[b])];
    }

    method WriteLog()
      requires Valid()
      modifies this`disk, this`mem, this`trace
      ensures Fits(old(disk), LogCopies(lay, Cached(old(mem), lh)))
      ensures trace == old(trace) + LogCopies(lay, Cached(old(mem), lh))
      ensures disk == Apply(old(disk), LogCopies(lay, Cached(old(mem), lh)))
      ensures mem == Apply(old(mem), LogCopies(lay, Cached(old(mem), lh)))
      ensures Valid()
    {
      hide Apply, LogCopies, Cached;
      ApplyNone(mem);
      ApplyNone(disk);
      ghost var mem0, disk0, trace0 := mem, disk, trace;
      ghost var ws := LogCopies(lay, Cached(mem, lh));
      WriteLogKeepsHead(lay, mem, disk, lh);
      var tail := 0;
      while tail < |lh|
        invariant 0 <= tail <= |lh|
        invariant mem == Apply(mem0, ws[..tail]) && disk == Apply(disk0, ws[..tail])
        invariant trace == trace0 + ws[..tail]
      {
        WriteLogTurn(lay, mem0, disk0, lh, tail);
        TakeNext(trace0, ws, tail);
        var to := lay.start + tail + 1;
        mem := mem[to := mem[lh[tail]]];
        Bwrite(to);
        tail := tail + 1;
      }
    }

    method InstallTrans()
      requires Valid()
      modifies this`disk, this`mem, this`trace
      ensures Fits(old(disk), HomeCopies(lh, Logged(lay, old(mem), |lh|)))
      ensures trace == old(trace) + HomeCopies(lh, Logged(lay, old(mem), |lh|))
      ensures disk == Apply(old(disk), HomeCopies(lh, Logged(lay, old(mem), |lh|)))
      ensures mem == Apply(old(mem), HomeCopies(lh, Logged(lay, old(mem), |lh|)))
      ensures Valid()
    {
      hide Apply, HomeCopies, Logged;
      ApplyNone(mem);
      ApplyNone(disk);
      ghost var mem0, disk0, trace0 := mem, disk, trace;
      ghost var ws := HomeCopies(lh, Logged(lay, mem, |lh|));
      InstallKeepsHead(lay, mem, disk, lh);
      var tail := 0;
      while tail < |lh|
        invariant 0 <= tail <= |lh|
        invariant mem == Apply(mem0, ws[..tail]) && disk == Apply(disk0, ws[..tail])
        invariant trace == trace0 + ws[..tail]
      {
        InstallTurn(lay, mem0, disk0, lh, tail);
        TakeNext(trace0, ws, tail);
        mem := mem[lh[tail] := mem[lay.start + tail + 1]];
        Bwrite(lh[tail]);
        tail := tail + 1;
      }
    }

    // The head is the part of the block that the header overlays; the rest of the block keeps its old words.
    method WriteHead()
      requires Valid()
      modifies this`disk, this`mem, this`trace
      ensures Valid()
      ensures mem == old(mem)[lay.start := EncodeHead(old(mem)[lay.start], lh)]
      ensures disk == old(disk)[lay.start := mem[lay.start]]
      ensures trace == old(trace) + [Write(lay.start, mem[lay.start])]
    {
      var words := mem[lay.start].words[0 := |lh|];
      var i := 0;
      while i < |lh|
        invariant 0 <= i <= |lh| && |words| == WORDS
        invariant words[0] == |lh|
        invariant forall t :: 0 <= t < i ==> words[1 + t] == lh[t]
        invariant words[1 + i..] == mem[lay.start].words[1 + i..]
      {
        words := words[1 + i := lh[i]];
        i := i + 1;
      }
      assert words == EncodeHead(mem[lay.start], lh).words;
      mem := mem[lay.start := Block(words)];
      Bwrite(lay.start);
    }

    method ReadHeader()
      requires LogArea(lay, disk) && |mem| == |disk|
      requires ValidHead(mem[lay.start])
      modifies this`lh
      ensures lh == ReadHead(mem[lay.start])
    {
      var b := mem[lay.start];
      lh := [];
      var i := 0;
      while i < b.words[0]
        invariant 0 <= i <= b.words[0]
        invariant lh == ReadHead(b)[..i]
      {
        lh := lh + [b.words[1 + i]];
        i := i + 1;
      }
    }

    // The half of commit() up to and including the header write that commits.
    method LogTransaction()
      requires Valid()
      modifies this`disk, this`mem, this`trace
      ensures Valid()
      ensures var ws := LogCopies(lay, Cached(old(mem), lh));
              && Fits(old(disk), ws)
              && trace == old(trace) + (ws + [Write(lay.start, mem[lay.start])])
              && disk == Apply(old(disk), ws)[lay.start := mem[lay.start]]
      ensures mem[lay.start] == EncodeHead(old(mem)[lay.start], lh)
      ensures Logged(lay, mem, |lh|) == Cached(old(mem), lh) && SameHome(lay, mem, old(mem))
    {
      ghost var mem0 := mem;
      WriteLogKeepsHead(lay, mem, disk, lh);
      WriteLog();
      WriteHead();
      LogStage(lay, mem0, lh, mem);
    }

    // install_trans(), log.lh.n = 0, write_head(): the tail of commit() and of recovery.
    method InstallAndClear()
      requires Valid()
      modifies this`disk, this`mem, this`trace, this`lh
      ensures var ws := HomeCopies(old(lh), Logged(lay, old(mem), |old(lh)|));
              var clear := EncodeHead(old(mem)[lay.start], []);
              && Fits(old(disk), ws)
              && trace == old(trace) + (ws + [Write(lay.start, clear)])
              && disk == Apply(old(disk), ws)[lay.start := clear]
              && mem == Apply(old(mem), ws)[lay.start := clear]
      ensures lh == [] && Valid()
    {
      InstallKeepsHead(lay, mem, disk, lh);
      InstallTrans();
      lh := [];
      WriteHead();
    }

    // commit(): its disk writes are CommitWrites, in order, and memory's home blocks are untouched.
    method Commit()
      requires Valid() && disk[lay.start] == mem[lay.start]
      modifies this`disk, this`mem, this`trace, this`lh
      ensures var ws := CommitWrites(lay, old(disk)[lay.start], old(lh), Cached(old(mem), old(lh)));
              Fits(old(disk), ws) && trace == old(trace) + ws && disk == Apply(old(disk), ws)
      ensures lh == [] && SameHome(lay, mem, old(mem)) && disk[lay.start] == mem[lay.start]
      ensures Valid()
    {
      ghost var disk0, trace0, vs := disk, trace, Cached(mem, lh);
      CommitFits(lay, disk, lh, vs);
      if |lh| > 0 {
        LogTransaction();
        InstallStage(lay, mem, lh, vs);
        CommitJoins(lay, lh, vs, disk0, disk, trace0, trace);
        InstallAndClear();
      }
    }

    // recover_from_log() on a cold cache.
    method RecoverFromLog()
      requires LogArea(lay, disk) && mem == disk
      requires ValidHead(disk[lay.start]) && GoodHead(lay, |disk|, ReadHead(disk[lay.start]))
      modifies this`disk, this`mem, this`trace, this`lh
      ensures trace == old(trace) + RecoveryWrites(lay, old(disk), ReadHead(old(disk)[lay.start]))
      ensures disk == Recover(lay, old(disk)) && mem == disk && lh == []
      ensures Valid()
    {
      ghost var disk0 := disk;
      ReadHeader();
      RecoverStages(lay, disk0, lh);
      InstallAndClear();
    }

    // One test of begin_op()'s loop; the caller sleeps and tests again when not admitted.
    method BeginOp() returns (admitted: bool)
      modifies this`outstanding
      ensures admitted <==> !committing && |lh| + (old(outstanding) + 1) * MAXOPBLOCKS <= LOGSIZE
      ensures outstanding == if admitted then old(outstanding) + 1 else old(outstanding)
    {
      if committing {
        admitted := false;
      } else if |lh| + (outstanding + 1) * MAXOPBLOCKS > LOGSIZE {
        admitted := false;
      } else {
        outstanding := outstanding + 1;
        admitted := true;
      }
    }

    // end_op() up to the commit: doCommit says whether this was the last operation; panic that one was committing.
    method EndOp() returns (doCommit: bool, panic: bool)
      modifies this`outstanding, this`committing
      ensures outstanding == old(outstanding) - 1
      ensures panic == old(committing)
      ensures doCommit <==> !panic && outstanding == 0
      ensures committing == (old(committing) || doCommit)
    {
      outstanding := outstanding - 1;
      doCommit, panic := false, committing;
      if !panic && outstanding == 0 {
        doCommit := true;
        committing := true;
      }
    }

    method LogWrite(b: nat) returns (panic: bool)
      requires Valid() && b < |mem| && IsHome(lay, b)
      modifies this`lh
      ensures panic <==> |old(lh)| >= LOGSIZE || |old(lh)| >= lay.size - 1 || outstanding < 1
      ensures lh == if panic then old(lh) else Absorb(old(lh), b)
      ensures Valid()
    {
      panic := |lh| >= LOGSIZE || |lh| >= lay.size - 1 || outstanding < 1;
      if !panic {
        var i := 0;
        while i < |lh| && lh[i] != b
          invariant 0 <= i <= |lh|
          invariant forall t :: 0 <= t < i ==> lh[t] != b
        {
          i := i + 1;
        }
        AbsorbGood(lay, |mem|, lh, b);
        if i == |lh| {
          assert b !in lh;
          lh := lh + [b];
        }
      }
    }
  }
}
