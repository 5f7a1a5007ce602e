/** filewrite() of kernel/file.c: splitting a write into transactions that each fit the log. */
module FileWrite {
  import opened Options
  import opened Bytes
  import opened FileBlocks
  import opened FileBytes
  import opened FileSystem

  const MAX: nat := 3072 // ((MAXOPBLOCKS-1-1-2) / 2) * BSIZE

  // Turns of writei()'s loop.
  function Span(off: nat, n: nat): (r: nat)
    decreases n
  {
    if n == 0 then 0 else 1 + Span(off + Chunk(off, n), n - Chunk(off, n))
  }

  lemma {:induction false} SpanAtMost(off: nat, n: nat, q: nat)
    requires At(off) + n <= 1024 * q
    ensures Span(off, n) <= q
    decreases n
  {
    if n > 0 {
      var m := Chunk(off, n);
      if m < n {
        assert At(off + m) == 0;
        SpanAtMost(off + m, n - m, q - 1);
      }
    }
  }

  function Indirect(fs: Fs, i: nat): (r: nat)
    requires i < |fs.inodes|
  {
    if |fs.inodes[i].addrs| == NDIRECT + 1 then fs.inodes[i].addrs[NDIRECT] else 0
  }

  ghost predicate Bitmap(lay: Layout, n: nat, bs: set<nat>) {
    forall x :: x in bs ==> exists b {:trigger BBlock(lay, b)} :: 0 <= b < n && x == BBlock(lay, b)
  }

  // What one bmap() logs: the block it returns, bitmap blocks bs, indirect blocks zs.
  ghost predicate BmapKind(lay: Layout, fs: Fs, i: nat, bn: nat, t: Fs, a: nat, bs: set<nat>, zs: set<nat>)
    requires Shape(lay, fs) && i < |fs.inodes| == |t.inodes| && bn < MAXFILE
  {
    && BmapLogs(lay, fs, i, bn) <= {a} + bs + zs && (a == 0 ==> BmapLogs(lay, fs, i, bn) <= bs + zs)
    && |t.bits| == |fs.bits| && Bitmap(lay, |fs.bits|, bs)
    && |bs| <= (if Addr(fs, SlotOf(i, bn)) == 0 then 1 else 0) + (if Indirect(fs, i) != Indirect(t, i) then 1 else 0)
    && (Indirect(fs, i) != 0 ==> Indirect(t, i) == Indirect(fs, i))
    && zs <= {Indirect(t, i)} && (Indirect(t, i) == 0 ==> zs == {})
  }

  lemma {:induction false} DirectKind(lay: Layout, fs: Fs, own: seq<Option<Slot>>, i: nat, bn: nat, t: Fs, a: nat)
    returns (bs: set<nat>, zs: set<nat>)
    requires Owned(lay, fs, own) && i < |fs.inodes| && bn < NDIRECT && (t, a) == Bmap(lay, fs, i, bn)
    ensures BmapKind(lay, fs, i, bn, t, a, bs, zs)
  {
    var b := FirstFree(fs.bits, 0);
    bs, zs := {}, {};
    if fs.inodes[i].addrs[bn] == 0 && b < |fs.bits| {
      bs := {BBlock(lay, b)};
    }
  }

  lemma {:induction false} EntryKind(lay: Layout, fs: Fs, own: seq<Option<Slot>>, i: nat, bn: nat, t: Fs, a: nat)
    returns (bs: set<nat>, zs: set<nat>)
    requires Owned(lay, fs, own) && i < |fs.inodes| && NDIRECT <= bn < MAXFILE && Indirect(fs, i) != 0
    requires (t, a) == Bmap(lay, fs, i, bn)
    ensures BmapKind(lay, fs, i, bn, t, a, bs, zs)
    ensures EntryLogs(lay, fs, i, bn - NDIRECT) <= {a} + bs + zs
    ensures a == 0 ==> EntryLogs(lay, fs, i, bn - NDIRECT) <= bs + zs
  {
    var b := FirstFree(fs.bits, 0);
    bs, zs := {}, {};
    assert Addr(fs, Direct(i, NDIRECT)) == Indirect(fs, i);
    if Addr(fs, Entry(i, bn - NDIRECT)) == 0 && b < |fs.bits| {
      bs, zs := {BBlock(lay, b)}, {Indirect(fs, i)};
    }
  }

  // The indirect block itself is new.
  lemma {:induction false} GrowKind(lay: Layout, fs: Fs, own: seq<Option<Slot>>, i: nat, bn: nat, t: Fs, a: nat)
    returns (bs: set<nat>, zs: set<nat>)
    requires Owned(lay, fs, own) && i < |fs.inodes| && NDIRECT <= bn < MAXFILE && Indirect(fs, i) == 0
    requires (t, a) == Bmap(lay, fs, i, bn)
    ensures BmapKind(lay, fs, i, bn, t, a, bs, zs)
  {
    var (mid, ind) := MapDirect(lay, fs, i, NDIRECT);
    bs, zs := {}, {};
    if ind != 0 {
      var own1 := MapDirectOwned(lay, fs, own, i, NDIRECT, mid, ind, Direct(i, NDIRECT));
      assert Addr(mid, SlotOf(i, bn)) == Addr(fs, SlotOf(i, bn));
      assert Indirect(mid, i) == ind == FirstFree(fs.bits, 0);
      assert Bmap(lay, mid, i, bn) == (t, a);
      bs, zs := EntryKind(lay, mid, own1, i, bn, t, a);
      GrowJoins(lay, fs, mid, i, bn, t, a, ind, bs, zs);
      bs, zs := bs + {BBlock(lay, ind)}, zs + {ind};
    }
  }

  lemma {:induction false} GrowLogs(lay: Layout, fs: Fs, mid: Fs, i: nat, bn: nat, ind: nat)
    requires Shape(lay, fs) && Shape(lay, mid) && i < |fs.inodes| == |mid.inodes|
    requires NDIRECT <= bn < MAXFILE && (mid, ind) == MapDirect(lay, fs, i, NDIRECT)
    requires ind == Indirect(mid, i) == FirstFree(fs.bits, 0) < |fs.bits| && ind != 0 == Indirect(fs, i)
    ensures BmapLogs(lay, fs, i, bn) == {BBlock(lay, ind), ind} + EntryLogs(lay, mid, i, bn - NDIRECT)
    ensures |mid.bits| == |fs.bits|
  {
    hide EntryLogs, Addr;
  }

  lemma {:induction false} GrowJoins(
      lay: Layout, fs: Fs, mid: Fs, i: nat, bn: nat, t: Fs, a: nat, ind: nat, bs: set<nat>, zs: set<nat>)
    requires Shape(lay, fs) && Shape(lay, mid) && i < |fs.inodes| == |mid.inodes| == |t.inodes|
    requires NDIRECT <= bn < MAXFILE && (mid, ind) == MapDirect(lay, fs, i, NDIRECT)
    requires ind == Indirect(mid, i) == FirstFree(fs.bits, 0) < |fs.bits| && ind != 0 == Indirect(fs, i)
    requires |mid.blocks| == |fs.blocks|
    requires Addr(mid, SlotOf(i, bn)) == Addr(fs, SlotOf(i, bn))
    requires BmapKind(lay, mid, i, bn, t, a, bs, zs)
    requires EntryLogs(lay, mid, i, bn - NDIRECT) <= {a} + bs + zs
    requires a == 0 ==> EntryLogs(lay, mid, i, bn - NDIRECT) <= bs + zs
    ensures BmapKind(lay, fs, i, bn, t, a, bs + {BBlock(lay, ind)}, zs + {ind})
  {
    hide BmapLogs, MapDirect, EntryLogs, Addr, Shape, Indirect, FirstFree, BBlock, SlotOf;
    GrowLogs(lay, fs, mid, i, bn, ind);
    SetSizes(bs, {BBlock(lay, ind)});
  }

  // What writei()'s loop logs: data blocks ds, bitmap blocks bs, at most one indirect block zs.
  ghost predicate WriteKind(
      lay: Layout, fs: Fs, i: nat, off: nat, src: seq<byte>, ds: set<nat>, bs: set<nat>, zs: set<nat>)
    requires Shape(lay, fs) && i < |fs.inodes| && off + |src| <= MAXFILE * 1024
  {
    && WriteLogs(lay, fs, i, off, src) <= ds + bs + zs
    && |ds| <= Span(off, |src|) && Bitmap(lay, |fs.bits|, bs)
    && |bs| <= Span(off, |src|) + (if Indirect(fs, i) == 0 then 1 else 0)
    && (src != [] && Addr(fs, SlotOf(i, Bn(off))) != 0 ==>
          |bs| < Span(off, |src|) + (if Indirect(fs, i) == 0 then 1 else 0))
    && |zs| <= 1 && (Indirect(fs, i) != 0 ==> zs <= {Indirect(fs, i)})
  }

  lemma {:induction false} BmapKinds(lay: Layout, fs: Fs, own: seq<Option<Slot>>, i: nat, bn: nat, t: Fs, a: nat)
    returns (bs: set<nat>, zs: set<nat>)
    requires Owned(lay, fs, own) && i < |fs.inodes| && bn < MAXFILE && (t, a) == Bmap(lay, fs, i, bn)
    ensures BmapKind(lay, fs, i, bn, t, a, bs, zs)
  {
    hide BmapKind, Owned, MapDirect, MapIndirect;
    OwnedShape(lay, fs, own);
    if bn < NDIRECT {
      bs, zs := DirectKind(lay, fs, own, i, bn, t, a);
    } else if Indirect(fs, i) != 0 {
      bs, zs := EntryKind(lay, fs, own, i, bn, t, a);
    } else {
      bs, zs := GrowKind(lay, fs, own, i, bn, t, a);
    }
  }

  lemma {:induction false} SetSizes(xs: set<nat>, ys: set<nat>)
    ensures |xs + ys| <= |xs| + |ys|
  {
    assert |xs + ys| == |xs| + |ys| - |xs * ys|;
  }

  lemma {:induction false} AtMostOne(zs: set<nat>, z: nat)
    requires zs <= {z}
    ensures |zs| <= 1
  {
    assert zs == {} || zs == {z};
  }

  lemma {:induction false} StopKind(
      lay: Layout, fs: Fs, i: nat, off: nat, src: seq<byte>, t: Fs, bs: set<nat>, zs: set<nat>)
    requires Shape(lay, fs) && i < |fs.inodes| == |t.inodes| && 0 < |src| && off + |src| <= MAXFILE * 1024
    requires (t, 0) == Bmap(lay, fs, i, Bn(off)) && BmapKind(lay, fs, i, Bn(off), t, 0, bs, zs)
    ensures WriteKind(lay, fs, i, off, src, {}, bs, zs)
  {
    hide Bmap, BmapLogs, WriteLogs, Addr, Indirect, Bitmap;
    WriteStops(lay, fs, i, off, src, t);
    AtMostOne(zs, Indirect(t, i));
  }

  lemma {:induction false} TurnKind(
      lay: Layout, fs: Fs, i: nat, off: nat, src: seq<byte>, t: Fs, a: nat, p: Fs, m: nat, rest: seq<byte>,
      bs: set<nat>, zs: set<nat>, ds': set<nat>, bs': set<nat>, zs': set<nat>)
    requires Shape(lay, fs) && i < |fs.inodes| == |t.inodes| == |p.inodes| && 0 < |src| && off + |src| <= MAXFILE * 1024
    requires Shape(lay, p) && m == Chunk(off, |src|) && rest == src[m..]
    requires BmapKind(lay, fs, i, Bn(off), t, a, bs, zs) && WriteKind(lay, p, i, off + m, rest, ds', bs', zs')
    requires |p.bits| == |fs.bits| && Indirect(p, i) == Indirect(t, i)
    requires WriteLogs(lay, fs, i, off, src)
          == BmapLogs(lay, fs, i, Bn(off)) + {a} + WriteLogs(lay, p, i, off + m, rest)
    ensures WriteKind(lay, fs, i, off, src, ds' + {a}, bs + bs', zs + zs')
  {
    hide BmapLogs, WriteLogs, Addr, Indirect;
    SetSizes(ds', {a});
    SetSizes(bs, bs');
    assert Span(off, |src|) == 1 + Span(off + m, |rest|);
    if Indirect(t, i) == 0 {
      assert zs + zs' == zs';
    } else {
      AtMostOne(zs + zs', Indirect(t, i));
    }
  }

  lemma {:induction false} WriteKinds(lay: Layout, fs: Fs, own: seq<Option<Slot>>, i: nat, off: nat, src: seq<byte>)
    returns (ds: set<nat>, bs: set<nat>, zs: set<nat>)
    requires Owned(lay, fs, own) && Shape(lay, fs) && i < |fs.inodes| && off + |src| <= MAXFILE * 1024
    ensures WriteKind(lay, fs, i, off, src, ds, bs, zs)
    decreases |src|
  {
    hide Bmap, BmapLogs, BmapKind, WriteLogs, WriteKind, Owned;
    if src == [] {
      EmptyKind(lay, fs, i, off);
      ds, bs, zs := {}, {}, {};
    } else {
      var (t, a) := Bmap(lay, fs, i, Bn(off));
      bs, zs := BmapKinds(lay, fs, own, i, Bn(off), t, a);
      var own1 := WriteTurn(lay, fs, own, i, off, src, t, a);
      if a == 0 {
        StopKind(lay, fs, i, off, src, t, bs, zs);
        ds := {};
      } else {
        var m := Chunk(off, |src|);
        var p := PutBytes(t, a, At(off), src[..m]);
        LogsUnfold(lay, fs, i, off, src, t, a, m, p);
        var ds', bs', zs' := WriteKinds(lay, p, own1, i, off + m, src[m..]);
        KindBits(lay, fs, i, Bn(off), t, a, bs, zs);
        TurnKind(lay, fs, i, off, src, t, a, p, m, src[m..], bs, zs, ds', bs', zs');
        ds, bs, zs := ds' + {a}, bs + bs', zs + zs';
      }
    }
  }

  lemma {:induction false} KindBits(
      lay: Layout, fs: Fs, i: nat, bn: nat, t: Fs, a: nat, bs: set<nat>, zs: set<nat>)
    requires Shape(lay, fs) && i < |fs.inodes| == |t.inodes| && bn < MAXFILE && BmapKind(lay, fs, i, bn, t, a, bs, zs)
    ensures |t.bits| == |fs.bits|
  {
  }

  lemma {:induction false} EmptyKind(lay: Layout, fs: Fs, i: nat, off: nat)
    requires Shape(lay, fs) && i < |fs.inodes| && off <= MAXFILE * 1024
    ensures WriteKind(lay, fs, i, off, [], {}, {}, {})
  {
    WriteNothing(lay, fs, i, off);
  }

  // An unaligned offset within a file without holes falls in a block the file has.
  lemma {:induction false} UnalignedMapped(fs: Fs, i: nat, off: nat)
    requires i < |fs.inodes| && Solid(fs, i) && off <= fs.inodes[i].size && At(off) != 0
    ensures Bn(off) < MAXFILE && Addr(fs, SlotOf(i, Bn(off))) != 0
  {
    assert Bn(off - 1) == Bn(off);
    SolidAt(fs, i, off - 1);
  }

  lemma {:induction false} OneBitmapBlock(lay: Layout, n: nat, bs: set<nat>)
    requires n <= 8192 && Bitmap(lay, n, bs)
    ensures |bs| <= 1
  {
    AtMostOne(bs, lay.bmapstart);
  }

  /** Every transaction of filewrite() logs at most MAXOPBLOCKS = 10 distinct blocks, wherever the write starts and
      however the free blocks are spread over bitmap blocks; at most 7 on a disk with a single bitmap block. */
  lemma {:induction false} TransactionFits(
      lay: Layout, fs: Fs, own: seq<Option<Slot>>, i: nat, off: nat, src: seq<byte>)
    requires Owned(lay, fs, own) && Shape(lay, fs) && i < |fs.inodes| && Solid(fs, i)
    requires off <= fs.inodes[i].size && 0 < |src| <= MAX && off + |src| <= MAXFILE * 1024
    ensures |WriteLogs(lay, fs, i, off, src) + {IBlock(lay, i)}| <= 10
    ensures |fs.bits| <= BPB ==> |WriteLogs(lay, fs, i, off, src) + {IBlock(lay, i)}| <= 7
  {
    hide Owned, Solid, WriteLogs, Addr;
    var ds, bs, zs := WriteKinds(lay, fs, own, i, off, src);
    SpanAtMost(off, |src|, if At(off) == 0 then 3 else 4);
    if At(off) != 0 {
      UnalignedMapped(fs, i, off);
    }
    if |fs.bits| <= BPB {
      OneBitmapBlock(lay, |fs.bits|, bs);
    }
    var all := WriteLogs(lay, fs, i, off, src) + {IBlock(lay, i)};
    SetSizes(ds, bs);
    SetSizes(ds + bs, zs);
    SetSizes(ds + bs + zs, {IBlock(lay, i)});
    SubsetSize(all, ds + bs + zs + {IBlock(lay, i)});
  }

  lemma {:induction false} SubsetSize(xs: set<nat>, ys: set<nat>)
    requires xs <= ys
    ensures |xs| <= |ys|
  {
    assert ys == xs + (ys - xs);
    assert |ys| == |xs| + |ys - xs|;
  }

  // Consecutive writes join.
  lemma {:induction false} OverwriteJoins(c: seq<byte>, off: nat, src: seq<byte>, k: nat, r: nat)
    requires off <= |c| && k + r <= |src|
    ensures Overwrite(Overwrite(c, off, src[..k]), off + k, src[k..k + r]) == Overwrite(c, off, src[..k + r])
  {
    assert src[..k] + src[k..k + r] == src[..k + r];
  }

  // The first w bytes of src have been written at off, and nothing else has changed in any file.
  ghost predicate Progress(fs0: Fs, fs: Fs, ip: nat, off: nat, src: seq<byte>, w: nat) {
    && ip < |fs0.inodes| == |fs.inodes| && |fs.bits| == |fs0.bits| && w <= |src|
    && Solid(fs0, ip) && Solid(fs, ip)
    && (if off <= fs0.inodes[ip].size then Contents(fs, ip) == Overwrite(Contents(fs0, ip), off, src[..w])
        else w == 0 && fs == fs0)
    && (forall x :: 0 <= x < |fs0.inodes| && x != ip ==> fs.inodes[x].size == fs0.inodes[x].size)
    && (forall x :: 0 <= x < |fs0.inodes| && x != ip && fs0.inodes[x].size <= MAXFILE * 1024 ==>
          Contents(fs, x) == Contents(fs0, x) && Solid(fs, x) == Solid(fs0, x))
  }

  lemma {:induction false} ProgressBound(fs0: Fs, fs: Fs, ip: nat, off: nat, src: seq<byte>, w: nat)
    requires Progress(fs0, fs, ip, off, src, w)
    ensures off <= fs0.inodes[ip].size ==> off + w <= fs.inodes[ip].size <= MAXFILE * 1024
    ensures fs0.inodes[ip].size < off ==> w == 0 && fs == fs0
  {
    hide Contents;
    SolidSize(fs, ip);
    SolidSize(fs0, ip);
  }

  lemma {:induction false} ProgressNext(
      lay: Layout, fs0: Fs, fs: Fs, own: seq<Option<Slot>>, ip: nat, off: nat, src: seq<byte>, i: nat, n1: nat, u: Fs,
      r: int)
    returns (own': seq<Option<Slot>>)
    requires Progress(fs0, fs, ip, off, src, i) && Owned(lay, fs, own) && Shape(lay, fs) && 0 < n1 && i + n1 <= |src|
    requires off + i < 0x1_0000_0000 && n1 < 0x1_0000_0000
    requires (u, r) == Writei(lay, fs, ip, off + i, src[i..i + n1])
    ensures -1 <= r <= n1 && Owned(lay, u, own') && Progress(fs0, u, ip, off, src, if r > 0 then i + r else i)
    ensures r == -1 ==> u == fs
    ensures r == -1 <==> fs.inodes[ip].size < off + i || MAXFILE * 1024 < off + i + n1
    ensures 0 <= r < n1 ==> FirstFree(u.bits, 0) == |u.bits|
  {
    hide Owned, Writei, Contents, Overwrite, Solid;
    ProgressBound(fs0, fs, ip, off, src, i);
    SolidSize(fs0, ip);
    SolidSize(fs, ip);
    own' := WriteiRefines(lay, fs, own, ip, off + i, src[i..i + n1], u, r);
    if r != -1 {
      assert src[i..i + n1][..r] == src[i..i + r];
      OverwriteJoins(Contents(fs0, ip), off, src, i, r);
    }
  }

  class OpenFile {
    const fsys: FileSys
    const ip: nat
    var off: nat

    constructor (fsys: FileSys, ip: nat)
      ensures this.fsys == fsys && this.ip == ip && off == 0
    {
      this.fsys, this.ip, off := fsys, ip, 0;
    }

    /** filewrite(): the effect is that of one write of the w bytes it managed; it reports success exactly when
        w is everything; it falls short only when the disk is full, the file would outgrow MAXFILE, or the
        offset lies beyond the end of the file; and every transaction fits the log. */
    method FileWrite(src: seq<byte>, ghost own: seq<Option<Slot>>)
      returns (ret: int, ghost own': seq<Option<Slot>>, ghost w: nat, ghost txns: seq<set<nat>>)
      requires Owned(fsys.lay, fsys.Abs(), own) && ip < |fsys.inodes| && Solid(fsys.Abs(), ip)
      requires |src| < 0x8000_0000 && off < 0x1_0000_0000
      modifies this`off, fsys
      ensures Owned(fsys.lay, fsys.Abs(), own')
      ensures Progress(old(fsys.Abs()), fsys.Abs(), ip, old(off), src, w)
      ensures off == old(off) + w && ret == if w == |src| then |src| else -1
      ensures w < |src| ==>
                || FirstFree(fsys.bits, 0) == |fsys.bits|
                || MAXFILE * 1024 < off + Min(MAX, |src| - w)
                || old(fsys.inodes[ip].size) < old(off)
      ensures forall k :: 0 <= k < |txns| ==> |txns[k]| <= 10 && (|old(fsys.bits)| <= BPB ==> |txns[k]| <= 7)
    {
      hide Owned, Writei, Progress, WriteLogs, Solid, Shape, ChangesLogged, InodesLogged;
      ghost var fs0, off0 := fsys.Abs(), off;
      OwnedShape(fsys.lay, fs0, own);
      ProgressStarts(fs0, ip, off, src);
      own', txns := own, [];
      var i := 0;
      while i < |src|
        invariant i <= |src| && off == off0 + i && off < 0x1_0000_0000
        invariant Owned(fsys.lay, fsys.Abs(), own') && Shape(fsys.lay, fsys.Abs()) && |fsys.inodes| == |fs0.inodes|
        invariant Progress(fs0, fsys.Abs(), ip, off0, src, i)
        invariant forall k :: 0 <= k < |txns| ==> |txns[k]| <= 10 && (|fs0.bits| <= BPB ==> |txns[k]| <= 7)
      {
        var n1 := |src| - i;
        if n1 > MAX {
          n1 := MAX;
        }
        ghost var fs := fsys.Abs();
        ghost var chunk := src[i..i + n1];
        ghost var own1 := own';
        fsys.logged := {};
        var r := fsys.WriteInode(ip, off, src[i..i + n1], own');
        own' := ProgressNext(fsys.lay, fs0, fs, own1, ip, off0, src, i, n1, fsys.Abs(), r);
        ChunkFits(fsys.lay, fs0, fs, own1, ip, off0, src, i, chunk, fsys.logged);
        txns := txns + [fsys.logged];
        if r > 0 {
          off := off + r;
        }
        if r != n1 {
          ProgressBound(fs0, fs, ip, off0, src, i);
          w := if r > 0 then i + r else i;
          return -1, own', w, txns;
        }
        i := i + r;
        ProgressBound(fs0, fsys.Abs(), ip, off0, src, i);
      }
      ret, w := |src|, i;
    }
  }

  lemma {:induction false} ProgressStarts(fs: Fs, ip: nat, off: nat, src: seq<byte>)
    requires ip < |fs.inodes| && Solid(fs, ip)
    ensures Progress(fs, fs, ip, off, src, 0)
  {
  }

  lemma {:induction false} ChunkFits(
      lay: Layout, fs0: Fs, fs: Fs, own: seq<Option<Slot>>, ip: nat, off: nat, src: seq<byte>, i: nat, chunk: seq<byte>,
      logged: set<nat>)
    requires Progress(fs0, fs, ip, off, src, i) && Owned(lay, fs, own) && Shape(lay, fs) && 0 < |chunk| <= MAX
    requires off + i + |chunk| <= MAXFILE * 1024 && off + i <= fs.inodes[ip].size ==>
               logged == {} + WriteLogs(lay, fs, ip, off + i, chunk) + {IBlock(lay, ip)}
    requires MAXFILE * 1024 < off + i + |chunk| || fs.inodes[ip].size < off + i ==> logged == {}
    ensures |logged| <= 10 && (|fs0.bits| <= BPB ==> |logged| <= 7)
  {
    hide Owned, WriteLogs, Solid, Contents, Overwrite;
    if off + i + |chunk| <= MAXFILE * 1024 && off + i <= fs.inodes[ip].size {
      TransactionFits(lay, fs, own, ip, off + i, chunk);
      assert logged == WriteLogs(lay, fs, ip, off + i, chunk) + {IBlock(lay, ip)};
    }
  }
}
