/** readi() (kernel/fs.c) of any file, also one with holes: bmap() gives a hole a block of zeroes when it is read. */
module FileHoles {
  import opened Options
  import opened Bytes
  import opened FileBlocks
  import opened FileBytes
  import opened FileSystem

  ghost predicate SameByte(fs: Fs, u: Fs, x: nat, k: nat)
    requires x < |fs.inodes| == |u.inodes| && Bn(k) < MAXFILE
  {
    FileByte(u, x, k) == FileByte(fs, x, k)
  }

  // Every file has the same size and bytes.
  ghost predicate SameFiles(fs: Fs, u: Fs) {
    && |u.inodes| == |fs.inodes|
    && (forall x :: 0 <= x < |fs.inodes| ==> u.inodes[x].size == fs.inodes[x].size)
    && (forall x: nat, k: nat {:trigger SameByte(fs, u, x, k)} ::
          x < |fs.inodes| && Bn(k) < MAXFILE ==> SameByte(fs, u, x, k))
  }

  lemma {:induction false} SameJoins(fs: Fs, t: Fs, u: Fs)
    requires SameFiles(fs, t) && SameFiles(t, u)
    ensures SameFiles(fs, u)
  {
    hide FileByte;
    forall x: nat, k: nat | x < |fs.inodes| && Bn(k) < MAXFILE
      ensures SameByte(fs, u, x, k)
    {
      assert SameByte(fs, t, x, k) && SameByte(t, u, x, k);
    }
  }

  lemma {:induction false} BmapSame(
      lay: Layout, fs: Fs, own: seq<Option<Slot>>, i: nat, bn: nat, t: Fs, a: nat) returns (own1: seq<Option<Slot>>)
    requires Owned(lay, fs, own) && i < |fs.inodes| && bn < MAXFILE && (t, a) == Bmap(lay, fs, i, bn)
    ensures Owned(lay, t, own1) && SameFiles(fs, t)
    ensures a != 0 ==> a == Addr(t, SlotOf(i, bn)) < |t.blocks|
    ensures a == 0 ==> FirstFree(t.bits, 0) == |t.bits|
  {
    hide Bmap, FileByte;
    own1 := BmapOwned(lay, fs, own, i, bn, t, a, SlotOf(i, bn));
    forall x: nat, k: nat | x < |fs.inodes| && Bn(k) < MAXFILE
      ensures SameByte(fs, t, x, k)
    {
      BmapKeepsByte(lay, fs, own, t, own1, i, bn, a, x, k);
    }
  }

  // A piece of one block.
  lemma {:induction false} PieceBytes(lay: Layout, fs: Fs, own: seq<Option<Slot>>, i: nat, off: nat, m: nat, j: nat)
    requires Owned(lay, fs, own) && i < |fs.inodes| && Bn(off) < MAXFILE && At(off) + m <= 1024 && j < m
    requires 0 < Addr(fs, SlotOf(i, Bn(off))) < |fs.blocks|
    ensures Bn(off + j) == Bn(off)
    ensures var a := Addr(fs, SlotOf(i, Bn(off)));
            |fs.blocks[a]| == 1024 && fs.blocks[a][At(off)..At(off) + m][j] == FileByte(fs, i, off + j)
  {
    hide Addr;
    assert Bn(off + j) == Bn(off) && At(off + j) == At(off) + j;
  }

  // One block's share of a read and the rest of it.
  lemma {:induction false} PiecesJoin(
      lay: Layout, fs: Fs, t: Fs, own: seq<Option<Slot>>, i: nat, off: nat, n: nat, a: nat, rest: seq<byte>,
      d: seq<byte>)
    requires Owned(lay, t, own) && SameFiles(fs, t) && i < |fs.inodes| == |t.inodes|
    requires 0 < n && off + n <= MAXFILE * 1024
    requires 0 < a == Addr(t, SlotOf(i, Bn(off))) < |t.blocks| && |t.blocks[a]| == 1024
    requires var m := Chunk(off, n);
             && d == t.blocks[a][At(off)..At(off) + m] + rest && |rest| <= n - m
             && forall j :: 0 <= j < |rest| ==> rest[j] == FileByte(t, i, off + m + j)
    ensures forall j :: 0 <= j < |d| ==> d[j] == FileByte(fs, i, off + j)
  {
    hide Owned, SameFiles, FileByte, Addr;
    var m := Chunk(off, n);
    forall j | 0 <= j < |d|
      ensures d[j] == FileByte(fs, i, off + j)
    {
      SameAt(fs, t, i, off + j);
      if j < m {
        PieceBytes(lay, t, own, i, off, m, j);
      } else {
        assert d[j] == rest[j - m] == FileByte(t, i, off + m + (j - m));
      }
    }
  }

  /** readi()'s loop: it delivers the file's bytes, falls short only when no block is free, and changes no file. */
  lemma {:induction false} ReadHoles(
      lay: Layout, fs: Fs, own: seq<Option<Slot>>, i: nat, off: nat, n: nat, u: Fs, d: seq<byte>)
    returns (own': seq<Option<Slot>>)
    requires Owned(lay, fs, own) && Shape(lay, fs) && i < |fs.inodes| && off + n <= MAXFILE * 1024
    requires (u, d) == ReadFrom(lay, fs, i, off, n)
    ensures Owned(lay, u, own') && SameFiles(fs, u) && |d| <= n
    ensures |d| < n ==> FirstFree(u.bits, 0) == |u.bits|
    ensures forall j :: 0 <= j < |d| ==> d[j] == FileByte(fs, i, off + j)
    decreases n
  {
    hide Bmap, Owned, FileByte, SameFiles, Shape, Addr;
    if n == 0 {
      own' := own;
      SameSelf(fs);
    } else {
      var (t, a) := Bmap(lay, fs, i, Bn(off));
      var own1 := BmapSame(lay, fs, own, i, Bn(off), t, a);
      SameSizes(fs, t);
      OwnedShape(lay, t, own1);
      if a == 0 || |t.blocks| <= a {
        own' := own1;
      } else {
        var m := Chunk(off, n);
        var rest := ReadFrom(lay, t, i, off + m, n - m);
        own' := ReadHoles(lay, t, own1, i, off + m, n - m, rest.0, rest.1);
        SameJoins(fs, t, u);
        PiecesJoin(lay, fs, t, own1, i, off, n, a, rest.1, d);
      }
    }
  }

  lemma {:induction false} SameSelf(fs: Fs)
    ensures SameFiles(fs, fs)
  {
  }

  lemma {:induction false} SameSizes(fs: Fs, t: Fs)
    requires SameFiles(fs, t)
    ensures |t.inodes| == |fs.inodes| && forall x :: 0 <= x < |fs.inodes| ==> t.inodes[x].size == fs.inodes[x].size
  {
  }

  lemma {:induction false} SameAt(fs: Fs, t: Fs, x: nat, k: nat)
    requires SameFiles(fs, t) && x < |fs.inodes| && Bn(k) < MAXFILE
    ensures |t.inodes| == |fs.inodes| && FileByte(t, x, k) == FileByte(fs, x, k)
  {
    assert SameByte(fs, t, x, k);
  }

  // What the file holds there.
  ghost function Slice(fs: Fs, i: nat, off: nat, n: nat): (d: seq<byte>)
    requires i < |fs.inodes| && fs.inodes[i].size <= MAXFILE * 1024
  {
    if fs.inodes[i].size < off || 0x1_0000_0000 <= off + n then []
    else Contents(fs, i)[off..Min(off + n, fs.inodes[i].size)]
  }

  /** readi() of any file: what it delivers is a prefix of what the file holds there, holes reading as zeroes, and all
      of it unless no block is free; no file changes. */
  lemma {:induction false} ReadiDelivers(
      lay: Layout, fs: Fs, own: seq<Option<Slot>>, i: nat, off: nat, n: nat, u: Fs, d: seq<byte>)
    returns (own': seq<Option<Slot>>)
    requires Owned(lay, fs, own) && Shape(lay, fs) && i < |fs.inodes| && off < 0x1_0000_0000 && n < 0x1_0000_0000
    requires fs.inodes[i].size <= MAXFILE * 1024 && (u, d) == Readi(lay, fs, i, off, n)
    ensures Owned(lay, u, own') && SameFiles(fs, u)
    ensures d <= Slice(fs, i, off, n) && (d != Slice(fs, i, off, n) ==> FirstFree(u.bits, 0) == |u.bits|)
  {
    hide Owned, Shape, FileByte, SameFiles, ReadFrom;
    var size := fs.inodes[i].size;
    if size < off || 0x1_0000_0000 <= off + n {
      own' := own;
      SameSelf(fs);
    } else {
      var m := if size < off + n then size - off else n;
      own' := ReadHoles(lay, fs, own, i, off, m, u, d);
      var want := Slice(fs, i, off, n);
      assert |want| == m;
      forall j | 0 <= j < |d|
        ensures d[j] == want[j]
      {
      }
      assert d == want[..|d|];
    }
  }

  /** The exact condition: every readi() of a file delivers what the file holds there and allocates nothing, if and only
      if the file has no holes. */
  lemma {:induction false} ReadiExact(lay: Layout, fs: Fs, own: seq<Option<Slot>>, i: nat)
    requires Owned(lay, fs, own) && Shape(lay, fs) && i < |fs.inodes| && fs.inodes[i].size <= MAXFILE * 1024
    ensures (forall off: nat, n: nat {:trigger Readi(lay, fs, i, off, n)} ::
               off < 0x1_0000_0000 && n < 0x1_0000_0000 ==> Readi(lay, fs, i, off, n) == (fs, Slice(fs, i, off, n)))
       <==> Solid(fs, i)
  {
    hide Owned, Shape, Readi, Slice;
    if Solid(fs, i) {
      forall off: nat, n: nat | off < 0x1_0000_0000 && n < 0x1_0000_0000
        ensures Readi(lay, fs, i, off, n) == (fs, Slice(fs, i, off, n))
      {
        SliceIs(lay, fs, own, i, off, n);
      }
    } else {
      var k: nat :| k < fs.inodes[i].size && !Mapped(fs, i, k);
      HoleRead(lay, fs, own, i, k);
    }
  }

  lemma {:induction false} SliceIs(lay: Layout, fs: Fs, own: seq<Option<Slot>>, i: nat, off: nat, n: nat)
    requires Owned(lay, fs, own) && Shape(lay, fs) && i < |fs.inodes| && off < 0x1_0000_0000 && n < 0x1_0000_0000
    requires Solid(fs, i)
    ensures Readi(lay, fs, i, off, n) == (fs, Slice(fs, i, off, n))
  {
    hide Owned, Shape, Readi;
    ReadiRefines(lay, fs, own, i, off, n);
  }

  lemma {:induction false} HoleRead(lay: Layout, fs: Fs, own: seq<Option<Slot>>, i: nat, k: nat)
    requires Owned(lay, fs, own) && Shape(lay, fs) && i < |fs.inodes|
    requires k < fs.inodes[i].size <= MAXFILE * 1024 && !Mapped(fs, i, k)
    ensures Readi(lay, fs, i, k, 1) != (fs, Slice(fs, i, k, 1))
  {
    hide Bmap, Owned, Shape;
    var (t, a) := Bmap(lay, fs, i, Bn(k));
    var own1 := BmapSame(lay, fs, own, i, Bn(k), t, a);
    assert |Slice(fs, i, k, 1)| == 1;
    assert Chunk(k, 1) == 1;
    assert ReadFrom(lay, t, i, k + 1, 0) == (t, []);
  }

  // ---- what reading a hole logs

  ghost predicate HasFree(fs: Fs) {
    FirstFree(fs.bits, 0) < |fs.bits|
  }

  // Somewhere in [off, off + n).
  ghost predicate HoleIn(fs: Fs, i: nat, off: nat, n: nat)
    requires i < |fs.inodes| && off + n <= MAXFILE * 1024
  {
    exists k :: off <= k < off + n && !Mapped(fs, i, k)
  }

  // bmap() logs something exactly when the block is missing and one is free.
  lemma {:induction false} BmapLogsExact(lay: Layout, fs: Fs, own: seq<Option<Slot>>, i: nat, bn: nat)
    requires Owned(lay, fs, own) && Shape(lay, fs) && i < |fs.inodes| && bn < MAXFILE
    ensures BmapLogs(lay, fs, i, bn) != {} <==> Addr(fs, SlotOf(i, bn)) == 0 && HasFree(fs)
  {
    var b := FirstFree(fs.bits, 0);
    assert b < |fs.bits| ==> BBlock(lay, b) in {BBlock(lay, b), b};
    if bn >= NDIRECT {
      assert Addr(fs, Direct(i, NDIRECT)) == fs.inodes[i].addrs[NDIRECT];
      assert b < |fs.bits| ==> BBlock(lay, b) in {BBlock(lay, b), b, fs.inodes[i].addrs[NDIRECT]};
    }
  }

  lemma {:induction false} HoleSplits(fs: Fs, i: nat, off: nat, n: nat, m: nat)
    requires i < |fs.inodes| && off + n <= MAXFILE * 1024 && 0 < n && m == Chunk(off, n)
    ensures HoleIn(fs, i, off, n) <==> !Mapped(fs, i, off) || HoleIn(fs, i, off + m, n - m)
  {
    hide Addr;
    forall k | off <= k < off + m
      ensures Mapped(fs, i, k) == Mapped(fs, i, off)
    {
      assert Bn(k) == Bn(off);
    }
    if !Mapped(fs, i, off) {
      assert off <= off < off + n;
    }
  }

  lemma {:induction false} ReadLogsExact(lay: Layout, fs: Fs, own: seq<Option<Slot>>, i: nat, off: nat, n: nat)
    requires Owned(lay, fs, own) && Shape(lay, fs) && i < |fs.inodes| && off + n <= MAXFILE * 1024
    ensures ReadLogs(lay, fs, i, off, n) != {} <==> HoleIn(fs, i, off, n) && HasFree(fs)
    decreases n
  {
    hide Bmap, BmapLogs, Owned, Shape, HasFree, HoleIn, Addr;
    if n == 0 {
      assert !HoleIn(fs, i, off, 0) by { NoHole(fs, i, off); }
    } else {
      var m := Chunk(off, n);
      var (t, a) := Bmap(lay, fs, i, Bn(off));
      BmapLogsExact(lay, fs, own, i, Bn(off));
      HoleSplits(fs, i, off, n, m);
      if Mapped(fs, i, off) {
        BmapOfMapped(lay, fs, own, i, Bn(off));
        ReadLogsExact(lay, fs, own, i, off + m, n - m);
      } else if !HasFree(fs) {
        FullBmap(lay, fs, own, i, Bn(off));
      }
    }
  }

  lemma {:induction false} NoHole(fs: Fs, i: nat, off: nat)
    requires i < |fs.inodes| && off <= MAXFILE * 1024
    ensures !HoleIn(fs, i, off, 0)
  {
  }

  // On a full disk bmap() of a missing block fails and changes nothing.
  lemma {:induction false} FullBmap(lay: Layout, fs: Fs, own: seq<Option<Slot>>, i: nat, bn: nat)
    requires Owned(lay, fs, own) && Shape(lay, fs) && i < |fs.inodes| && bn < MAXFILE
    requires Addr(fs, SlotOf(i, bn)) == 0 && !HasFree(fs)
    ensures Bmap(lay, fs, i, bn) == (fs, 0)
  {
    assert Addr(fs, Direct(i, NDIRECT)) == fs.inodes[i].addrs[NDIRECT];
  }

  /** The exact condition: readi(), which fileread() calls outside any transaction, calls log_write() if and only if
      what it reads of the file holds a hole and a block is free. */
  lemma {:induction false} ReadiLogsExact(lay: Layout, fs: Fs, own: seq<Option<Slot>>, i: nat, off: nat, n: nat)
    requires Owned(lay, fs, own) && Shape(lay, fs) && i < |fs.inodes| && off < 0x1_0000_0000 && n < 0x1_0000_0000
    requires fs.inodes[i].size <= MAXFILE * 1024
    ensures ReadiLogs(lay, fs, i, off, n) != {} <==>
              && off + n < 0x1_0000_0000 && HasFree(fs)
              && exists k :: off <= k < off + n && k < fs.inodes[i].size && !Mapped(fs, i, k)
  {
    hide Owned, Shape, ReadLogs, HasFree, Mapped;
    var size := fs.inodes[i].size;
    if off <= size && off + n < 0x1_0000_0000 {
      var m := if size < off + n then size - off else n;
      ReadLogsExact(lay, fs, own, i, off, m);
      if k :| off <= k < off + n && k < size && !Mapped(fs, i, k) {
        assert off <= k < off + m && !Mapped(fs, i, k);
      }
    }
  }

  // ---- what reading a hole leaves on disk

  // readi() does not call iupdate(): the free map and the blocks go to the log, the inode's new addresses do not.
  ghost function OnDisk(fs: Fs, u: Fs): (d: Fs) {
    u.(inodes := fs.inodes)
  }

  ghost predicate DiskOwned(lay: Layout, d: Fs) {
    exists own :: Owned(lay, d, own)
  }

  // Reading changes no inode but i, and of i only addresses that were missing.
  ghost predicate OnlyGains(fs: Fs, u: Fs, i: nat) {
    && i < |u.inodes| == |fs.inodes| && u.inodes[i].size == fs.inodes[i].size
    && (forall x :: 0 <= x < |fs.inodes| && x != i ==> u.inodes[x] == fs.inodes[x])
    && |fs.inodes[i].addrs| == NDIRECT + 1 == |u.inodes[i].addrs|
    && (forall m :: 0 <= m <= NDIRECT && fs.inodes[i].addrs[m] != 0 ==> u.inodes[i].addrs[m] == fs.inodes[i].addrs[m])
  }

  // What the disk names there, memory names too.
  lemma {:induction false} NamedSame(fs: Fs, u: Fs, i: nat, s: Slot)
    requires OnlyGains(fs, u, i) && InRange(fs, s) && Addr(OnDisk(fs, u), s) != 0
    ensures InRange(u, s) && Addr(u, s) == Addr(OnDisk(fs, u), s)
  {
  }

  // An address that is in memory only leaves its block marked and named by nobody.
  lemma {:induction false} LostAddress(
      lay: Layout, fs: Fs, u: Fs, own': seq<Option<Slot>>, i: nat, k: nat, own2: seq<Option<Slot>>)
    requires Owned(lay, u, own') && OnlyGains(fs, u, i) && k <= NDIRECT
    requires fs.inodes[i].addrs[k] == 0 != u.inodes[i].addrs[k]
    ensures !Owned(lay, OnDisk(fs, u), own2)
  {
    var d, b := OnDisk(fs, u), u.inodes[i].addrs[k];
    assert Addr(u, Direct(i, k)) == b && own'[b] == Some(Direct(i, k)) && Addr(d, Direct(i, k)) == 0;
    forall s | InRange(d, s)
      ensures Addr(d, s) != b
    {
      if Addr(d, s) != 0 {
        NamedSame(fs, u, i, s);
      }
    }
  }

  // The place in the inode itself for block bn, or for the way to it, is empty.
  ghost predicate LooseAt(fs: Fs, i: nat, bn: nat)
    requires i < |fs.inodes| && |fs.inodes[i].addrs| == NDIRECT + 1
  {
    fs.inodes[i].addrs[if bn < NDIRECT then bn else NDIRECT] == 0
  }

  ghost predicate LooseIn(fs: Fs, i: nat, off: nat, n: nat)
    requires i < |fs.inodes| && |fs.inodes[i].addrs| == NDIRECT + 1
  {
    exists k :: off <= k < off + n && LooseAt(fs, i, Bn(k))
  }

  lemma {:induction false} BmapGains(lay: Layout, fs: Fs, own: seq<Option<Slot>>, i: nat, bn: nat, t: Fs, a: nat)
    requires Owned(lay, fs, own) && Shape(lay, fs) && i < |fs.inodes| && bn < MAXFILE && (t, a) == Bmap(lay, fs, i, bn)
    ensures OnlyGains(fs, t, i)
    ensures LooseAt(fs, i, bn) && HasFree(fs) ==> !LooseAt(t, i, bn)
    ensures LooseAt(fs, i, bn) && !HasFree(fs) ==> (t, a) == (fs, 0)
    ensures !LooseAt(fs, i, bn) ==> t.inodes == fs.inodes
    ensures !LooseAt(fs, i, bn) && a == 0 ==> !HasFree(fs)
    ensures !LooseAt(fs, i, bn) && bn < NDIRECT ==> t == fs
  {
    assert Addr(fs, Direct(i, NDIRECT)) == fs.inodes[i].addrs[NDIRECT];
    assert HasFree(fs) ==> 0 < FirstFree(fs.bits, 0) by {
      assert fs.bits[0];
    }
  }

  lemma {:induction false} GainsJoin(fs: Fs, t: Fs, u: Fs, i: nat)
    requires OnlyGains(fs, t, i) && OnlyGains(t, u, i)
    ensures OnlyGains(fs, u, i)
  {
  }

  lemma {:induction false} LooseSplits(fs: Fs, i: nat, off: nat, n: nat, m: nat)
    requires i < |fs.inodes| && |fs.inodes[i].addrs| == NDIRECT + 1 && 0 < n && m == Chunk(off, n)
    ensures LooseIn(fs, i, off, n) <==> LooseAt(fs, i, Bn(off)) || LooseIn(fs, i, off + m, n - m)
    ensures NDIRECT <= Bn(off) && !LooseAt(fs, i, Bn(off)) ==> !LooseIn(fs, i, off + m, n - m)
  {
    forall k | off <= k < off + m
      ensures Bn(k) == Bn(off)
    {
    }
    if LooseAt(fs, i, Bn(off)) {
      assert off <= off < off + n;
    }
    forall k | off <= k
      ensures Bn(off) <= Bn(k)
    {
    }
  }

  /** readi()'s loop gives the inode new addresses exactly when a place in the inode is missing for what it reads and a
      block is free. */
  lemma {:induction false} ReadGains(
      lay: Layout, fs: Fs, own: seq<Option<Slot>>, i: nat, off: nat, n: nat, u: Fs, d: seq<byte>)
    returns (k: nat)
    requires Owned(lay, fs, own) && Shape(lay, fs) && i < |fs.inodes| && off + n <= MAXFILE * 1024
    requires (u, d) == ReadFrom(lay, fs, i, off, n)
    ensures OnlyGains(fs, u, i) && k <= NDIRECT
    ensures if LooseIn(fs, i, off, n) && HasFree(fs) then fs.inodes[i].addrs[k] == 0 != u.inodes[i].addrs[k]
            else u.inodes == fs.inodes
    decreases n
  {
    hide Bmap, Owned, HasFree, Addr, LooseIn;
    k := 0;
    if n == 0 {
      NoLoose(fs, i, off);
    } else {
      var m := Chunk(off, n);
      var (t, a) := Bmap(lay, fs, i, Bn(off));
      var own1 := BmapSame(lay, fs, own, i, Bn(off), t, a);
      BmapGains(lay, fs, own, i, Bn(off), t, a);
      LooseSplits(fs, i, off, n, m);
      OwnedShape(lay, t, own1);
      if a != 0 && a < |t.blocks| {
        var rest := ReadFrom(lay, t, i, off + m, n - m);
        k := ReadGains(lay, t, own1, i, off + m, n - m, rest.0, rest.1);
        GainsJoin(fs, t, u, i);
        SameLoose(fs, t, i, off + m, n - m);
      }
      if LooseAt(fs, i, Bn(off)) && HasFree(fs) {
        k := if Bn(off) < NDIRECT then Bn(off) else NDIRECT;
      }
    }
  }

  lemma {:induction false} NoLoose(fs: Fs, i: nat, off: nat)
    requires i < |fs.inodes| && |fs.inodes[i].addrs| == NDIRECT + 1
    ensures !LooseIn(fs, i, off, 0)
  {
  }

  lemma {:induction false} SameLoose(fs: Fs, t: Fs, i: nat, off: nat, n: nat)
    requires i < |fs.inodes| == |t.inodes| && |fs.inodes[i].addrs| == NDIRECT + 1 == |t.inodes[i].addrs|
    ensures t.inodes == fs.inodes ==> (LooseIn(t, i, off, n) <==> LooseIn(fs, i, off, n))
  {
    if t.inodes == fs.inodes {
      assert forall k {:trigger LooseAt(t, i, Bn(k))} :: 0 <= k ==> LooseAt(t, i, Bn(k)) == LooseAt(fs, i, Bn(k));
    }
  }

  /** The exact condition: after readi() the disk still has one owner for every block it marks, if and only if no block
      was free, or nothing read is missing its place in the inode. Otherwise the new block is marked and no inode names
      it. */
  lemma {:induction false} ReadiDiskExact(
      lay: Layout, fs: Fs, own: seq<Option<Slot>>, i: nat, off: nat, n: nat, u: Fs, d: seq<byte>)
    requires Owned(lay, fs, own) && Shape(lay, fs) && i < |fs.inodes| && off < 0x1_0000_0000 && n < 0x1_0000_0000
    requires fs.inodes[i].size <= MAXFILE * 1024 && (u, d) == Readi(lay, fs, i, off, n)
    ensures DiskOwned(lay, OnDisk(fs, u)) <==>
              || !HasFree(fs) || 0x1_0000_0000 <= off + n
              || forall k :: off <= k < off + n && k < fs.inodes[i].size ==> !LooseAt(fs, i, Bn(k))
  {
    hide Owned, HasFree, ReadFrom, LooseAt, OnlyGains;
    var size := fs.inodes[i].size;
    if size < off || 0x1_0000_0000 <= off + n {
      assert OnDisk(fs, u) == fs && Owned(lay, OnDisk(fs, u), own);
    } else {
      var m := if size < off + n then size - off else n;
      var own' := ReadHoles(lay, fs, own, i, off, m, u, d);
      var k := ReadGains(lay, fs, own, i, off, m, u, d);
      if LooseIn(fs, i, off, m) && HasFree(fs) {
        var j :| off <= j < off + m && LooseAt(fs, i, Bn(j));
        forall own2
          ensures !Owned(lay, OnDisk(fs, u), own2)
        {
          LostAddress(lay, fs, u, own', i, k, own2);
        }
      } else {
        assert OnDisk(fs, u) == u && Owned(lay, OnDisk(fs, u), own');
        assert HasFree(fs) ==> forall j :: off <= j < off + n && j < size ==> !LooseAt(fs, i, Bn(j));
      }
    }
  }

  // ---- directories

  ghost predicate TwoFree(fs: Fs) {
    HasFree(fs) && FirstFree(fs.bits, FirstFree(fs.bits, 0) + 1) < |fs.bits|
  }

  // The blocks bmap() needs for block bn are there.
  ghost predicate CanMap(fs: Fs, i: nat, bn: nat)
    requires i < |fs.inodes| && |fs.inodes[i].addrs| == NDIRECT + 1
  {
    if NDIRECT <= bn && fs.inodes[i].addrs[NDIRECT] == 0 then TwoFree(fs) else HasFree(fs)
  }

  lemma {:induction false} NextFree(bits: seq<bool>, b: nat)
    requires b == FirstFree(bits, 0) < |bits|
    ensures FirstFree(bits[b := true], 0) == FirstFree(bits, b + 1)
  {
    FirstFreeFrom(bits[b := true], b + 1);
    var x, y := FirstFree(bits[b := true], b + 1), FirstFree(bits, b + 1);
    assert x < |bits| ==> !bits[x];
    assert y < |bits| ==> !bits[b := true][y];
  }

  /** bmap() fails exactly when the block is missing and so are the free blocks it takes: two when the indirect block is
      missing as well. */
  lemma {:induction false} BmapFails(lay: Layout, fs: Fs, own: seq<Option<Slot>>, i: nat, bn: nat)
    requires Owned(lay, fs, own) && Shape(lay, fs) && i < |fs.inodes| && bn < MAXFILE
    ensures Bmap(lay, fs, i, bn).1 == 0 <==> Addr(fs, SlotOf(i, bn)) == 0 && !CanMap(fs, i, bn)
  {
    var b := FirstFree(fs.bits, 0);
    assert HasFree(fs) ==> 0 < b by {
      assert fs.bits[0];
    }
    assert Addr(fs, Direct(i, NDIRECT)) == fs.inodes[i].addrs[NDIRECT];
    if NDIRECT <= bn && fs.inodes[i].addrs[NDIRECT] == 0 && HasFree(fs) {
      NextFree(fs.bits, b);
      GiveDirectAddr(lay, fs, own, i, NDIRECT, b, Entry(i, bn - NDIRECT));
    }
  }

  /** The exact condition for "dirlookup read", "dirlink read" and "isdirempty: readi": reading one entry of a directory
      falls short if and only if its block is a hole and the free blocks bmap() needs are missing. */
  lemma {:induction false} EntryReadExact(lay: Layout, fs: Fs, own: seq<Option<Slot>>, i: nat, off: nat)
    requires Owned(lay, fs, own) && Shape(lay, fs) && i < |fs.inodes| && off % 16 == 0
    requires off + 16 <= fs.inodes[i].size <= MAXFILE * 1024
    ensures |Readi(lay, fs, i, off, 16).1| != 16 <==> !Mapped(fs, i, off) && !CanMap(fs, i, Bn(off))
  {
    hide Bmap, Owned, CanMap, Addr;
    var (t, a) := Bmap(lay, fs, i, Bn(off));
    var own1 := BmapSame(lay, fs, own, i, Bn(off), t, a);
    BmapFails(lay, fs, own, i, Bn(off));
    OwnedShape(lay, t, own1);
    assert At(off) % 16 == 0 && At(off) + 16 <= 1024 by { EntryInBlock(off); }
    assert Chunk(off, 16) == 16;
    assert a != 0 ==> ReadFrom(lay, t, i, off + 16, 0) == (t, []);
  }

  lemma {:induction false} EntryInBlock(off: nat)
    requires off % 16 == 0
    ensures At(off) % 16 == 0 && At(off) + 16 <= 1024
  {
    assert off == 1024 * Bn(off) + At(off);
  }
}
