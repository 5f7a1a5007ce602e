/** kernel/log.c: the on-disk protocol of commit() and recover_from_log(). */
module Log {
  import opened Disk

  const MAXOPBLOCKS: nat := 10
  const LOGSIZE: nat := 3 * MAXOPBLOCKS

  // log.start and log.size as read from the superblock.
  datatype Layout = Layout(start: nat, size: nat)

  predicate IsHome(lay: Layout, b: nat) {
    b < lay.start || lay.start + lay.size <= b
  }

  predicate Distinct(lh: seq<nat>) {
    forall i, j :: 0 <= i < j < |lh| ==> lh[i] != lh[j]
  }

  // What the in-memory header may hold: distinct home blocks that fit both the header and the log area.
  predicate GoodHead(lay: Layout, size: nat, lh: seq<nat>) {
    && |lh| <= LOGSIZE
    && |lh| < lay.size
    && Distinct(lh)
    && forall t :: 0 <= t < |lh| ==> lh[t] < size && IsHome(lay, lh[t])
  }

  // struct logheader overlaid on a block: word 0 is n, words 1.. are block[].
  function EncodeHead(prior: Block, lh: seq<nat>): (r: Block)
    requires |lh| <= LOGSIZE && |prior.words| == WORDS
    ensures |r.words| == WORDS
  {
    Block([|lh| as int] + seq(|lh|, t requires 0 <= t < |lh| => lh[t] as int) + prior.words[1 + |lh|..])
  }

  ghost predicate HeadIs(b: Block, lh: seq<nat>) {
    && |lh| <= LOGSIZE
    && |b.words| == WORDS
    && b.words[0] == |lh|
    && forall t :: 0 <= t < |lh| ==> b.words[1 + t] == lh[t]
  }

  lemma EncodeDecodes(prior: Block, lh: seq<nat>)
    requires |lh| <= LOGSIZE && |prior.words| == WORDS
    ensures HeadIs(EncodeHead(prior, lh), lh)
    ensures forall l :: HeadIs(EncodeHead(prior, lh), l) ==> l == lh
  {
    forall l | HeadIs(EncodeHead(prior, lh), l)
      ensures l == lh
    {
      assert |l| == |lh|;
      assert forall t :: 0 <= t < |lh| ==> EncodeHead(prior, lh).words[1 + t] == l[t];
    }
  }

  // The log area, header block included, lies within the disk.
  ghost predicate LogArea(lay: Layout, d: Image) {
    1 <= lay.size && lay.start + lay.size <= |d|
  }

  ghost function HomeCopies(lh: seq<nat>, vs: seq<Block>): (r: seq<Write>)
    requires |vs| == |lh|
    ensures |r| == |lh|
    ensures forall t :: 0 <= t < |lh| ==> r[t] == Write(lh[t], vs[t])
  {
    seq(|lh|, t requires 0 <= t < |lh| => Write(lh[t], vs[t]))
  }

  ghost function LogCopies(lay: Layout, vs: seq<Block>): (r: seq<Write>)
    ensures |r| == |vs|
    ensures forall t :: 0 <= t < |vs| ==> r[t] == Write(lay.start + 1 + t, vs[t])
  {
    seq(|vs|, t requires 0 <= t < |vs| => Write(lay.start + 1 + t, vs[t]))
  }

  // The log data blocks, in log order.
  ghost function Logged(lay: Layout, d: Image, n: nat): (r: seq<Block>)
    requires LogArea(lay, d) && n < lay.size
    ensures |r| == n
    ensures forall t :: 0 <= t < n ==> r[t] == d[lay.start + 1 + t]
  {
    seq(n, t requires 0 <= t < n => d[lay.start + 1 + t])
  }

  // The buffer-cache contents of the logged blocks, in log order.
  ghost function Cached(mem: Image, lh: seq<nat>): (vs: seq<Block>)
    requires forall t :: 0 <= t < |lh| ==> lh[t] < |mem|
    ensures |vs| == |lh| && forall t :: 0 <= t < |lh| ==> vs[t] == mem[lh[t]]
  {
    seq(|lh|, t requires 0 <= t < |lh| => mem[lh[t]])
  }

  // log_write()'s search: a block already in the header is absorbed.
  function Absorb(lh: seq<nat>, b: nat): (r: seq<nat>) {
    if b in lh then lh else lh + [b]
  }

  lemma {:induction false} AbsorbGood(lay: Layout, size: nat, lh: seq<nat>, at: nat)
    requires GoodHead(lay, size, lh) && at < size && IsHome(lay, at)
    requires |lh| < LOGSIZE && |lh| < lay.size - 1
    ensures GoodHead(lay, size, Absorb(lh, at)) && at in Absorb(lh, at)
    ensures forall b :: b in Absorb(lh, at) <==> b in lh || b == at
  {
    var r := Absorb(lh, at);
    if at !in lh {
      assert r[|lh|] == at;
      assert forall i :: 0 <= i < |lh| ==> r[i] == lh[i];
    }
  }

  // The disk writes of commit() in order; vs are the cached contents of the logged blocks.
  ghost function CommitWrites(lay: Layout, head: Block, lh: seq<nat>, vs: seq<Block>): (r: seq<Write>)
    requires |vs| == |lh| <= LOGSIZE && |head.words| == WORDS
  {
    if lh == [] then []
    else
      var committed := EncodeHead(head, lh);
      LogCopies(lay, vs)
      + [Write(lay.start, committed)]
      + (HomeCopies(lh, vs) + [Write(lay.start, EncodeHead(committed, []))])
  }

  // The disk writes of recover_from_log() from image d whose header says lh.
  ghost function RecoveryWrites(lay: Layout, d: Image, lh: seq<nat>): (r: seq<Write>)
    requires LogArea(lay, d) && |lh| < lay.size && |lh| <= LOGSIZE && |d[lay.start].words| == WORDS
  {
    HomeCopies(lh, Logged(lay, d, |lh|)) + [Write(lay.start, EncodeHead(d[lay.start], []))]
  }

  ghost predicate SameHome(lay: Layout, d: Image, e: Image) {
    |d| == |e| && forall b {:trigger IsHome(lay, b)} :: 0 <= b < |d| && IsHome(lay, b) ==> d[b] == e[b]
  }

  // d recovers to target: its header lists blocks whose logged copies, laid over its home blocks, give target.
  ghost predicate Recoverable(lay: Layout, target: Image, d: Image, lh: seq<nat>) {
    && |target| == |d|
    && LogArea(lay, d)
    && GoodHead(lay, |d|, lh)
    && HeadIs(d[lay.start], lh)
    && (forall t :: 0 <= t < |lh| ==> target[lh[t]] == d[lay.start + 1 + t])
    && (forall b {:trigger IsHome(lay, b)} :: 0 <= b < |d| && IsHome(lay, b) && b !in lh ==> d[b] == target[b])
  }

  lemma {:induction false} RecoveryFits(lay: Layout, target: Image, d: Image, lh: seq<nat>)
    requires Recoverable(lay, target, d, lh)
    ensures Fits(d, RecoveryWrites(lay, d, lh))
    ensures forall k :: 0 <= k <= |lh| + 1 ==> Fits(d, RecoveryWrites(lay, d, lh)[..k])
  {
  }

  // The first j home copies: each of those blocks gets its value, nothing else changes.
  lemma {:induction false} HomeEffect(d: Image, lh: seq<nat>, vs: seq<Block>, j: nat)
    requires |vs| == |lh| && j <= |lh| && Distinct(lh)
    requires forall t :: 0 <= t < |lh| ==> lh[t] < |d|
    ensures Fits(d, HomeCopies(lh, vs)[..j])
    ensures forall t :: 0 <= t < j ==> Apply(d, HomeCopies(lh, vs)[..j])[lh[t]] == vs[t]
    ensures forall b {:trigger b in lh[..j]} :: 0 <= b < |d| && b !in lh[..j] ==>
              Apply(d, HomeCopies(lh, vs)[..j])[b] == d[b]
  {
    var ws := HomeCopies(lh, vs)[..j];
    forall t | 0 <= t < j
      ensures Apply(d, ws)[lh[t]] == vs[t]
    {
      ApplyDistinct(d, ws, t);
    }
    forall b | 0 <= b < |d| && b !in lh[..j]
      ensures Apply(d, ws)[b] == d[b]
    {
      assert forall i :: 0 <= i < |ws| ==> ws[i].at == lh[..j][i];
      ApplyUntouched(d, ws, b);
    }
  }

  // The first k log copies: each of those log blocks gets its value, nothing else changes.
  lemma {:induction false} LogEffect(lay: Layout, d: Image, vs: seq<Block>, k: nat)
    requires k <= |vs| && lay.start + 1 + |vs| <= |d|
    ensures Fits(d, LogCopies(lay, vs)[..k])
    ensures forall t :: 0 <= t < k ==> Apply(d, LogCopies(lay, vs)[..k])[lay.start + 1 + t] == vs[t]
    ensures forall b :: 0 <= b < |d| && (b <= lay.start || lay.start + 1 + |vs| <= b)
              ==> Apply(d, LogCopies(lay, vs)[..k])[b] == d[b]
  {
    var ws := LogCopies(lay, vs)[..k];
    forall t | 0 <= t < k
      ensures Apply(d, ws)[lay.start + 1 + t] == vs[t]
    {
      ApplyDistinct(d, ws, t);
    }
    forall b | 0 <= b < |d| && (b <= lay.start || lay.start + 1 + |vs| <= b)
      ensures Apply(d, ws)[b] == d[b]
    {
      ApplyUntouched(d, ws, b);
    }
  }

  lemma {:induction false} HomeEffectAll(d: Image, lh: seq<nat>, vs: seq<Block>)
    requires |vs| == |lh| && Distinct(lh)
    requires forall t :: 0 <= t < |lh| ==> lh[t] < |d|
    ensures Fits(d, HomeCopies(lh, vs))
    ensures forall t :: 0 <= t < |lh| ==> Apply(d, HomeCopies(lh, vs))[lh[t]] == vs[t]
    ensures forall b {:trigger b in lh} :: 0 <= b < |d| && b !in lh ==> Apply(d, HomeCopies(lh, vs))[b] == d[b]
  {
    assert HomeCopies(lh, vs)[..|lh|] == HomeCopies(lh, vs);
    assert lh[..|lh|] == lh;
    HomeEffect(d, lh, vs, |lh|);
  }

  lemma {:induction false} LogEffectAll(lay: Layout, d: Image, vs: seq<Block>)
    requires lay.start + 1 + |vs| <= |d|
    ensures Fits(d, LogCopies(lay, vs))
    ensures forall t :: 0 <= t < |vs| ==> Apply(d, LogCopies(lay, vs))[lay.start + 1 + t] == vs[t]
    ensures forall b :: 0 <= b < |d| && (b <= lay.start || lay.start + 1 + |vs| <= b)
              ==> Apply(d, LogCopies(lay, vs))[b] == d[b]
  {
    assert LogCopies(lay, vs)[..|vs|] == LogCopies(lay, vs);
    LogEffect(lay, d, vs, |vs|);
  }

  // Installing never touches the log area, nor any block that is not logged.
  lemma {:induction false} InstallUntouched(lay: Layout, d: Image, lh: seq<nat>, vs: seq<Block>, j: nat)
    requires |vs| == |lh| && j <= |lh| && GoodHead(lay, |d|, lh)
    ensures Fits(d, HomeCopies(lh, vs)[..j])
    ensures forall b :: lay.start <= b < lay.start + lay.size && b < |d| ==>
              Apply(d, HomeCopies(lh, vs)[..j])[b] == d[b]
    ensures forall b {:trigger b in lh} :: 0 <= b < |d| && b !in lh ==> Apply(d, HomeCopies(lh, vs)[..j])[b] == d[b]
  {
    HomeEffect(d, lh, vs, j);
    assert forall b :: b in lh[..j] ==> b in lh && IsHome(lay, b);
    forall b | lay.start <= b < lay.start + lay.size && b < |d|
      ensures Apply(d, HomeCopies(lh, vs)[..j])[b] == d[b]
    {
      assert b !in lh[..j];
    }
  }

  // A crash after j of the installs of recovery loses nothing: the same target is still recoverable.
  lemma {:induction false} InstallPrefix(lay: Layout, target: Image, d: Image, lh: seq<nat>, j: nat)
    requires Recoverable(lay, target, d, lh) && j <= |lh|
    ensures Fits(d, HomeCopies(lh, Logged(lay, d, |lh|))[..j])
    ensures Recoverable(lay, target, Apply(d, HomeCopies(lh, Logged(lay, d, |lh|))[..j]), lh)
  {
    InstallUntouched(lay, d, lh, Logged(lay, d, |lh|), j);
  }

  lemma {:induction false} InstallAll(lay: Layout, target: Image, d: Image, lh: seq<nat>)
    requires Recoverable(lay, target, d, lh)
    ensures Fits(d, HomeCopies(lh, Logged(lay, d, |lh|)))
    ensures SameHome(lay, Apply(d, HomeCopies(lh, Logged(lay, d, |lh|))), target)
    ensures Apply(d, HomeCopies(lh, Logged(lay, d, |lh|)))[lay.start] == d[lay.start]
  {
    HomeEffectAll(d, lh, Logged(lay, d, |lh|));
    assert lay.start !in lh;
    var e := Apply(d, HomeCopies(lh, Logged(lay, d, |lh|)));
    forall b | 0 <= b < |d| && IsHome(lay, b)
      ensures e[b] == target[b]
    {
      if b in lh {
        var t :| 0 <= t < |lh| && lh[t] == b;
      }
    }
  }

  // One recovery run to completion: exactly the target, and an empty header.
  lemma {:induction false} RecoveryCompletes(lay: Layout, target: Image, d: Image, lh: seq<nat>)
    requires Recoverable(lay, target, d, lh)
    ensures Fits(d, RecoveryWrites(lay, d, lh))
    ensures SameHome(lay, Apply(d, RecoveryWrites(lay, d, lh)), target)
    ensures Recoverable(lay, target, Apply(d, RecoveryWrites(lay, d, lh)), [])
  {
    RecoveryFits(lay, target, d, lh);
    InstallAll(lay, target, d, lh);
    var homes := HomeCopies(lh, Logged(lay, d, |lh|));
    var clear := Write(lay.start, EncodeHead(d[lay.start], []));
    assert (homes + [clear])[..|lh|] == homes;
    assert Apply(d, homes + [clear]) == Apply(d, homes)[lay.start := clear.value];
  }

  // Recovery cut off after any number of its writes still leaves the same target recoverable.
  lemma {:induction false} RecoveryPrefix(
      lay: Layout, target: Image, d: Image, lh: seq<nat>, k: nat)
    returns (rest: seq<nat>)
    requires Recoverable(lay, target, d, lh) && k <= |RecoveryWrites(lay, d, lh)|
    ensures Fits(d, RecoveryWrites(lay, d, lh)[..k])
    ensures Recoverable(lay, target, Apply(d, RecoveryWrites(lay, d, lh)[..k]), rest)
    ensures k == |RecoveryWrites(lay, d, lh)| ==> rest == []
  {
    var ws := RecoveryWrites(lay, d, lh);
    if k <= |lh| {
      assert ws[..k] == HomeCopies(lh, Logged(lay, d, |lh|))[..k];
      InstallPrefix(lay, target, d, lh, k);
      rest := lh;
    } else {
      assert ws[..k] == ws;
      RecoveryCompletes(lay, target, d, lh);
      rest := [];
    }
  }

  predicate ValidHead(b: Block) {
    |b.words| == WORDS && 0 <= b.words[0] <= LOGSIZE && forall i :: 1 <= i <= b.words[0] ==> 0 <= b.words[i]
  }

  function ReadHead(b: Block): (lh: seq<nat>)
    requires ValidHead(b)
  {
    seq(b.words[0], t requires 0 <= t < b.words[0] && ValidHead(b) => b.words[1 + t] as nat)
  }

  lemma ReadHeadIs(b: Block, lh: seq<nat>)
    requires HeadIs(b, lh)
    ensures ValidHead(b) && ReadHead(b) == lh
  {
    forall i | 1 <= i <= b.words[0]
      ensures 0 <= b.words[i]
    {
      assert b.words[1 + (i - 1)] == lh[i - 1];
    }
  }

  // recover_from_log() run to completion.
  ghost function Recover(lay: Layout, d: Image): (e: Image)
    requires LogArea(lay, d)
    ensures |e| == |d|
  {
    if ValidHead(d[lay.start]) && |ReadHead(d[lay.start])| < lay.size
       && Fits(d, RecoveryWrites(lay, d, ReadHead(d[lay.start])))
    then Apply(d, RecoveryWrites(lay, d, ReadHead(d[lay.start])))
    else d
  }

  // Recovery attempts, the i-th cut off by a crash after crashes[i] of its disk writes.
  ghost function CrashedRecoveries(lay: Layout, d: Image, crashes: seq<nat>): (e: Image)
    requires LogArea(lay, d)
    ensures |e| == |d|
    decreases |crashes|
  {
    if crashes == [] then d
    else if ValidHead(d[lay.start]) && |ReadHead(d[lay.start])| < lay.size
            && Fits(d, RecoveryWrites(lay, d, ReadHead(d[lay.start])))
    then
      var ws := RecoveryWrites(lay, d, ReadHead(d[lay.start]));
      var done := if crashes[0] <= |ws| then ws[..crashes[0]] else ws;
      CrashedRecoveries(lay, Apply(d, done), crashes[1..])
    else d
  }

  lemma {:induction false} CrashedRecoveriesRecoverable(
      lay: Layout, target: Image, d: Image, lh: seq<nat>, crashes: seq<nat>) returns (rest: seq<nat>)
    requires Recoverable(lay, target, d, lh)
    ensures Recoverable(lay, target, CrashedRecoveries(lay, d, crashes), rest)
    decreases |crashes|
  {
    if crashes == [] {
      rest := lh;
    } else {
      ReadHeadIs(d[lay.start], lh);
      RecoveryFits(lay, target, d, lh);
      var ws := RecoveryWrites(lay, d, lh);
      assert ws[..|ws|] == ws;
      var k := if crashes[0] <= |ws| then crashes[0] else |ws|;
      var next := RecoveryPrefix(lay, target, d, lh, k);
      rest := CrashedRecoveriesRecoverable(lay, target, Apply(d, ws[..k]), next, crashes[1..]);
    }
  }

  // Whatever the crashes, the recovery that completes produces the target and an empty log.
  lemma {:induction false} RecoversTo(lay: Layout, target: Image, d: Image, lh: seq<nat>, crashes: seq<nat>)
    requires Recoverable(lay, target, d, lh)
    ensures var e := Recover(lay, CrashedRecoveries(lay, d, crashes));
            SameHome(lay, e, target) && HeadIs(e[lay.start], []) && Recoverable(lay, target, e, [])
  {
    var rest := CrashedRecoveriesRecoverable(lay, target, d, lh, crashes);
    var m := CrashedRecoveries(lay, d, crashes);
    ReadHeadIs(m[lay.start], rest);
    RecoveryCompletes(lay, target, m, rest);
  }

  lemma {:induction false} CommitFits(lay: Layout, d: Image, lh: seq<nat>, vs: seq<Block>)
    requires LogArea(lay, d) && GoodHead(lay, |d|, lh) && |vs| == |lh| && |d[lay.start].words| == WORDS
    ensures Fits(d, CommitWrites(lay, d[lay.start], lh, vs))
  {
    var ws := CommitWrites(lay, d[lay.start], lh, vs);
    var n := |lh|;
    if lh != [] {
      forall i | 0 <= i < |ws|
        ensures ws[i].at < |d|
      {
        if i < n {
          assert ws[i] == LogCopies(lay, vs)[i];
        } else if n < i <= 2 * n {
          assert ws[i] == HomeCopies(lh, vs)[i - n - 1];
        }
      }
    }
  }

  // Before the header write the old image is what recovery gives.
  lemma {:induction false} BeforeHeader(lay: Layout, d: Image, lh: seq<nat>, vs: seq<Block>, k: nat)
    requires Recoverable(lay, d, d, []) && GoodHead(lay, |d|, lh) && |vs| == |lh| && k <= |lh|
    ensures Fits(d, LogCopies(lay, vs)[..k])
    ensures var e := Apply(d, LogCopies(lay, vs)[..k]);
            Recoverable(lay, d, e, []) && SameHome(lay, e, d) && e[lay.start] == d[lay.start]
  {
    LogEffect(lay, d, vs, k);
  }

  // The header write is the commit point: from it on the new image is what recovery gives.
  lemma {:induction false} AtHeader(lay: Layout, d: Image, lh: seq<nat>, vs: seq<Block>)
    requires Recoverable(lay, d, d, []) && GoodHead(lay, |d|, lh) && |vs| == |lh|
    ensures Fits(d, LogCopies(lay, vs)) && Fits(d, HomeCopies(lh, vs))
    ensures Recoverable(lay, Apply(d, HomeCopies(lh, vs)),
                        Apply(d, LogCopies(lay, vs))[lay.start := EncodeHead(d[lay.start], lh)], lh)
  {
    LogEffectAll(lay, d, vs);
    HomeEffectAll(d, lh, vs);
    EncodeDecodes(d[lay.start], lh);
  }

  // After the header write, commit() performs exactly the writes a recovery would.
  lemma {:induction false} CommitTail(lay: Layout, d: Image, lh: seq<nat>, vs: seq<Block>)
    requires Recoverable(lay, d, d, []) && GoodHead(lay, |d|, lh) && |vs| == |lh| > 0
    ensures Fits(d, LogCopies(lay, vs))
    ensures var head := EncodeHead(d[lay.start], lh);
            var m := Apply(d, LogCopies(lay, vs))[lay.start := head];
            CommitWrites(lay, d[lay.start], lh, vs)
            == LogCopies(lay, vs) + [Write(lay.start, head)] + RecoveryWrites(lay, m, lh)
  {
    LogEffectAll(lay, d, vs);
    var m := Apply(d, LogCopies(lay, vs))[lay.start := EncodeHead(d[lay.start], lh)];
    assert Logged(lay, m, |lh|) == vs;
  }

  lemma {:induction false} AfterHeader(lay: Layout, d: Image, lh: seq<nat>, vs: seq<Block>, k: nat)
    returns (rest: seq<nat>)
    requires Recoverable(lay, d, d, []) && GoodHead(lay, |d|, lh) && |vs| == |lh|
    requires |lh| < k <= |CommitWrites(lay, d[lay.start], lh, vs)|
    ensures Fits(d, CommitWrites(lay, d[lay.start], lh, vs)[..k]) && Fits(d, HomeCopies(lh, vs))
    ensures Recoverable(lay, Apply(d, HomeCopies(lh, vs)),
                        Apply(d, CommitWrites(lay, d[lay.start], lh, vs)[..k]), rest)
    ensures k == |CommitWrites(lay, d[lay.start], lh, vs)| ==> rest == []
  {
    AtHeader(lay, d, lh, vs);
    CommitTail(lay, d, lh, vs);
    CommitFits(lay, d, lh, vs);
    var ws := CommitWrites(lay, d[lay.start], lh, vs);
    var upTo := LogCopies(lay, vs) + [Write(lay.start, EncodeHead(d[lay.start], lh))];
    var m := Apply(d, LogCopies(lay, vs))[lay.start := EncodeHead(d[lay.start], lh)];
    var tail := RecoveryWrites(lay, m, lh);
    var j := k - |lh| - 1;
    assert ws[..k] == upTo + tail[..j];
    assert upTo[..|lh|] == LogCopies(lay, vs);
    assert Apply(d, ws[..k]) == Apply(m, tail[..j]) by {
      assert Apply(d, upTo) == m;
      ApplyAppend(d, upTo, tail[..j]);
    }
    rest := RecoveryPrefix(lay, Apply(d, HomeCopies(lh, vs)), m, lh, j);
  }

  lemma {:induction false} EarlyPrefix(lay: Layout, head: Block, lh: seq<nat>, vs: seq<Block>, k: nat)
    requires |vs| == |lh| <= LOGSIZE && |head.words| == WORDS && k <= |lh|
    requires k <= |CommitWrites(lay, head, lh, vs)|
    ensures CommitWrites(lay, head, lh, vs)[..k] == LogCopies(lay, vs)[..k]
  {
  }

  // The state of the disk after any prefix of commit()'s writes.
  lemma {:induction false} CommitPrefix(lay: Layout, d: Image, lh: seq<nat>, vs: seq<Block>, k: nat)
    returns (rest: seq<nat>)
    requires Recoverable(lay, d, d, []) && GoodHead(lay, |d|, lh) && |vs| == |lh|
    requires k <= |CommitWrites(lay, d[lay.start], lh, vs)|
    ensures Fits(d, CommitWrites(lay, d[lay.start], lh, vs)[..k]) && Fits(d, HomeCopies(lh, vs))
    ensures k <= |lh| ==> Recoverable(lay, d, Apply(d, CommitWrites(lay, d[lay.start], lh, vs)[..k]), rest)
    ensures |lh| < k ==> Recoverable(lay, Apply(d, HomeCopies(lh, vs)),
                                     Apply(d, CommitWrites(lay, d[lay.start], lh, vs)[..k]), rest)
    ensures k == |CommitWrites(lay, d[lay.start], lh, vs)| ==> rest == []
  {
    if |lh| < k {
      rest := AfterHeader(lay, d, lh, vs, k);
    } else {
      rest := [];
      EarlyPrefix(lay, d[lay.start], lh, vs, k);
      BeforeHeader(lay, d, lh, vs, k);
    }
  }

  /** Crash atomicity. Cut commit() off after any k of its disk writes, then let recovery itself crash any
      number of times at any points. The recovery that finally completes leaves an empty header and exactly
      the image before the transaction, or exactly the image after it; after it precisely when the header
      write was among the k. */
  lemma {:induction false} CrashAtomicity(
      lay: Layout, d: Image, lh: seq<nat>, vs: seq<Block>, k: nat, crashes: seq<nat>)
    requires Recoverable(lay, d, d, []) && GoodHead(lay, |d|, lh) && |vs| == |lh|
    requires k <= |CommitWrites(lay, d[lay.start], lh, vs)|
    ensures Fits(d, CommitWrites(lay, d[lay.start], lh, vs)[..k]) && Fits(d, HomeCopies(lh, vs))
    ensures var crashed := Apply(d, CommitWrites(lay, d[lay.start], lh, vs)[..k]);
            var e := Recover(lay, CrashedRecoveries(lay, crashed, crashes));
            && HeadIs(e[lay.start], [])
            && SameHome(lay, e, if k <= |lh| then d else Apply(d, HomeCopies(lh, vs)))
  {
    var rest := CommitPrefix(lay, d, lh, vs, k);
    var crashed := Apply(d, CommitWrites(lay, d[lay.start], lh, vs)[..k]);
    if k <= |lh| {
      RecoversTo(lay, d, crashed, rest, crashes);
    } else {
      RecoversTo(lay, Apply(d, HomeCopies(lh, vs)), crashed, rest, crashes);
    }
  }
}
