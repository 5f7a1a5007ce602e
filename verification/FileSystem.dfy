/** The block-level methods of kernel/fs.c as they run. */
module FileSystem {
  import opened Options
  import opened Bytes
  import opened FileBlocks
  import opened FileBytes

  const BPB: nat := 8192 // BSIZE * 8

  function BBlock(lay: Layout, b: nat): nat {
    b / 8192 + lay.bmapstart
  }

  function IBlock(lay: Layout, i: nat): nat {
    i / 16 + lay.inodestart
  }

  // The blocks of the free map of a disk of n blocks.
  function BitmapBlocks(lay: Layout, n: nat): (r: set<nat>) {
    set b | 0 <= b < n :: BBlock(lay, b)
  }

  // Blocks that bmap() hands to log_write().
  ghost function DirectLogs(lay: Layout, fs: Fs, i: nat, k: nat): (r: set<nat>)
    requires Shape(lay, fs) && i < |fs.inodes| && k <= NDIRECT
  {
    var b := FirstFree(fs.bits, 0);
    if fs.inodes[i].addrs[k] != 0 || b == |fs.bits| then {} else {BBlock(lay, b), b}
  }

  ghost function EntryLogs(lay: Layout, fs: Fs, i: nat, j: nat): (r: set<nat>)
    requires Shape(lay, fs) && i < |fs.inodes| && j < NINDIRECT
  {
    var b := FirstFree(fs.bits, 0);
    if Addr(fs, Entry(i, j)) != 0 || b == |fs.bits| then {} else {BBlock(lay, b), b, fs.inodes[i].addrs[NDIRECT]}
  }

  ghost function BmapLogs(lay: Layout, fs: Fs, i: nat, bn: nat): (r: set<nat>)
    requires Shape(lay, fs) && i < |fs.inodes| && bn < NDIRECT + NINDIRECT
  {
    if bn < NDIRECT then DirectLogs(lay, fs, i, bn)
    else
      var (mid, ind) := MapDirect(lay, fs, i, NDIRECT);
      DirectLogs(lay, fs, i, NDIRECT)
      + (if ind == 0 || |mid.blocks| <= ind || !Shape(lay, mid) || |mid.inodes| <= i then {}
         else EntryLogs(lay, mid, i, bn - NDIRECT))
  }

  // Blocks that the loop of writei() hands to log_write().
  ghost function WriteLogs(lay: Layout, fs: Fs, i: nat, off: nat, src: seq<byte>): (r: set<nat>)
    requires Shape(lay, fs) && i < |fs.inodes| && off + |src| <= MAXFILE * 1024
    decreases |src|
  {
    if src == [] then {}
    else
      var (t, a) := Bmap(lay, fs, i, Bn(off));
      if a == 0 || |t.blocks| <= a then BmapLogs(lay, fs, i, Bn(off))
      else
        var m := Chunk(off, |src|);
        BmapLogs(lay, fs, i, Bn(off)) + {a}
        + WriteLogs(lay, PutBytes(t, a, At(off), src[..m]), i, off + m, src[m..])
  }

  // Blocks that the loop of readi() hands to log_write(), through bmap().
  ghost function ReadLogs(lay: Layout, fs: Fs, i: nat, off: nat, n: nat): (r: set<nat>)
    requires Shape(lay, fs) && i < |fs.inodes| && off + n <= MAXFILE * 1024
    decreases n
  {
    if n == 0 then {}
    else
      var (t, a) := Bmap(lay, fs, i, Bn(off));
      BmapLogs(lay, fs, i, Bn(off))
      + (if a == 0 || |t.blocks| <= a then {} else ReadLogs(lay, t, i, off + Chunk(off, n), n - Chunk(off, n)))
  }

  ghost function ReadiLogs(lay: Layout, fs: Fs, i: nat, off: nat, n: nat): (r: set<nat>)
    requires Shape(lay, fs) && i < |fs.inodes| && off < 0x1_0000_0000 && n < 0x1_0000_0000
    requires fs.inodes[i].size <= MAXFILE * 1024
  {
    var size := fs.inodes[i].size;
    if size < off || 0x1_0000_0000 <= off + n then {}
    else ReadLogs(lay, fs, i, off, if size < off + n then size - off else n)
  }

  lemma {:induction false} LogsUnfold(
      lay: Layout, fs: Fs, i: nat, off: nat, src: seq<byte>, t: Fs, a: nat, m: nat, p: Fs)
    requires Shape(lay, fs) && i < |fs.inodes| && 0 < |src| && off + |src| <= MAXFILE * 1024
    requires (t, a) == Bmap(lay, fs, i, Bn(off)) && 0 < a < |t.blocks|
    requires m == Chunk(off, |src|) && p == PutBytes(t, a, At(off), src[..m]) && Shape(lay, p)
    ensures WriteLogs(lay, fs, i, off, src) ==
            BmapLogs(lay, fs, i, Bn(off)) + {a} + WriteLogs(lay, p, i, off + m, src[m..])
  {
    hide Bmap, BmapLogs;
  }

  lemma {:induction false} ReadTurn(
      lay: Layout, fs: Fs, own: seq<Option<Slot>>, i: nat, off: nat, n: nat, t: Fs, a: nat)
    returns (own1: seq<Option<Slot>>)
    requires Owned(lay, fs, own) && Shape(lay, fs) && i < |fs.inodes|
    requires 0 < n && off + n <= MAXFILE * 1024 && (t, a) == Bmap(lay, fs, i, Bn(off))
    ensures Owned(lay, t, own1) && Shape(lay, t) && |t.inodes| == |fs.inodes|
    ensures a == 0 ==> ReadFrom(lay, fs, i, off, n) == (t, [])
    ensures a == 0 ==> ReadLogs(lay, fs, i, off, n) == BmapLogs(lay, fs, i, Bn(off))
    ensures a != 0 ==>
              var m := Chunk(off, n);
              && a < |t.blocks| && |t.blocks[a]| == 1024
              && ReadLogs(lay, fs, i, off, n) == BmapLogs(lay, fs, i, Bn(off)) + ReadLogs(lay, t, i, off + m, n - m)
              && ReadFrom(lay, fs, i, off, n).0 == ReadFrom(lay, t, i, off + m, n - m).0
              && ReadFrom(lay, fs, i, off, n).1
                 == t.blocks[a][At(off)..At(off) + m] + ReadFrom(lay, t, i, off + m, n - m).1
  {
    hide Bmap, BmapLogs;
    own1 := BmapOwned(lay, fs, own, i, Bn(off), t, a, SlotOf(i, Bn(off)));
  }

  lemma {:induction false} WriteTurn(
      lay: Layout, fs: Fs, own: seq<Option<Slot>>, i: nat, off: nat, rest: seq<byte>, t: Fs, a: nat)
    returns (own1: seq<Option<Slot>>)
    requires Owned(lay, fs, own) && Shape(lay, fs) && i < |fs.inodes|
    requires 0 < |rest| && off + |rest| <= MAXFILE * 1024 && (t, a) == Bmap(lay, fs, i, Bn(off))
    ensures Owned(lay, t, own1) && Shape(lay, t) && |t.inodes| == |fs.inodes|
    ensures a != 0 ==> a < |t.blocks| && |t.blocks[a]| == 1024 && t.bits[a]
                       && Owned(lay, PutBytes(t, a, At(off), rest[..Chunk(off, |rest|)]), own1)
  {
    hide Bmap;
    own1 := BmapOwned(lay, fs, own, i, Bn(off), t, a, SlotOf(i, Bn(off)));
    if a != 0 {
      var m := Chunk(off, |rest|);
      assert own1[a] == Some(SlotOf(i, Bn(off)));
      PutOwned(lay, t, own1, i, Bn(off), At(off), rest[..m], PutBytes(t, a, At(off), rest[..m]));
    }
  }

  // The loop of readi() from fs0, part way: data has been read, and what is left to do from fs is the rest of it.
  ghost predicate ReadSoFar(
      lay: Layout, fs0: Fs, i: nat, off: nat, n: nat, log0: set<nat>, fs: Fs, data: seq<byte>, log: set<nat>)
  {
    && Shape(lay, fs0) && Shape(lay, fs) && i < |fs0.inodes| == |fs.inodes| && |data| <= n && off + n <= MAXFILE * 1024
    && ReadFrom(lay, fs0, i, off, n).0 == ReadFrom(lay, fs, i, off + |data|, n - |data|).0
    && ReadFrom(lay, fs0, i, off, n).1 == data + ReadFrom(lay, fs, i, off + |data|, n - |data|).1
    && log0 + ReadLogs(lay, fs0, i, off, n) == log + ReadLogs(lay, fs, i, off + |data|, n - |data|)
  }

  lemma {:induction false} ReadStarts(lay: Layout, fs: Fs, i: nat, off: nat, n: nat, log: set<nat>)
    requires Shape(lay, fs) && i < |fs.inodes| && off + n <= MAXFILE * 1024
    ensures ReadSoFar(lay, fs, i, off, n, log, fs, [], log)
  {
    hide ReadFrom, ReadLogs;
    assert [] + ReadFrom(lay, fs, i, off, n).1 == ReadFrom(lay, fs, i, off, n).1;
  }

  lemma {:induction false} ReadNext(
      lay: Layout, fs0: Fs, own: seq<Option<Slot>>, i: nat, off: nat, n: nat, log0: set<nat>, fs: Fs, data: seq<byte>,
      log: set<nat>, t: Fs, a: nat)
    returns (own1: seq<Option<Slot>>)
    requires ReadSoFar(lay, fs0, i, off, n, log0, fs, data, log) && Owned(lay, fs, own) && |data| < n
    requires (t, a) == Bmap(lay, fs, i, Bn(off + |data|))
    ensures Owned(lay, t, own1) && Shape(lay, t) && |t.inodes| == |fs.inodes|
    ensures a == 0 ==> ReadFrom(lay, fs0, i, off, n) == (t, data)
    ensures a == 0 ==> log0 + ReadLogs(lay, fs0, i, off, n) == log + BmapLogs(lay, fs, i, Bn(off + |data|))
    ensures a != 0 ==>
              var o, m := off + |data|, Chunk(off + |data|, n - |data|);
              && a < |t.blocks| && |t.blocks[a]| == 1024
              && ReadSoFar(lay, fs0, i, off, n, log0, t, data + t.blocks[a][At(o)..At(o) + m],
                     log + BmapLogs(lay, fs, i, Bn(o)))
  {
    hide Bmap, BmapLogs, ReadFrom, ReadLogs, Owned;
    var o, m := off + |data|, Chunk(off + |data|, n - |data|);
    own1 := ReadTurn(lay, fs, own, i, o, n - |data|, t, a);
    if a == 0 {
      assert data + [] == data;
    } else {
      var piece := t.blocks[a][At(o)..At(o) + m];
      var rest := ReadFrom(lay, t, i, o + m, n - |data| - m).1;
      assert data + (piece + rest) == data + piece + rest;
      assert off + |data + piece| == o + m;
    }
  }

  lemma {:induction false} ReadEnds(
      lay: Layout, fs0: Fs, i: nat, off: nat, n: nat, log0: set<nat>, fs: Fs, data: seq<byte>, log: set<nat>)
    requires ReadSoFar(lay, fs0, i, off, n, log0, fs, data, log) && |data| == n
    ensures ReadFrom(lay, fs0, i, off, n) == (fs, data) && log0 + ReadLogs(lay, fs0, i, off, n) == log
  {
    hide ReadFrom, ReadLogs;
    ReadNothing(lay, fs, i, off + n);
    assert data + [] == data;
  }

  lemma {:induction false} ReadNothing(lay: Layout, fs: Fs, i: nat, off: nat)
    requires Shape(lay, fs) && i < |fs.inodes| && off <= MAXFILE * 1024
    ensures ReadFrom(lay, fs, i, off, 0) == (fs, []) && ReadLogs(lay, fs, i, off, 0) == {}
  {
    hide Bmap;
  }

  lemma {:induction false} WriteNothing(lay: Layout, fs: Fs, i: nat, off: nat)
    requires Shape(lay, fs) && i < |fs.inodes| && off <= MAXFILE * 1024
    ensures WriteFrom(lay, fs, i, off, []) == (fs, 0) && WriteLogs(lay, fs, i, off, []) == {}
  {
    hide Bmap, BmapLogs;
  }

  lemma {:induction false} WriteStops(lay: Layout, fs: Fs, i: nat, off: nat, src: seq<byte>, t: Fs)
    requires Shape(lay, fs) && i < |fs.inodes| && 0 < |src| && off + |src| <= MAXFILE * 1024
    requires (t, 0) == Bmap(lay, fs, i, Bn(off))
    ensures WriteFrom(lay, fs, i, off, src) == (t, 0)
    ensures WriteLogs(lay, fs, i, off, src) == BmapLogs(lay, fs, i, Bn(off))
  {
    hide Bmap, BmapLogs;
  }

  // The loop of writei() from fs0, part way: tot bytes are written, and what is left to do from fs is the rest of it.
  ghost predicate WriteSoFar(
      lay: Layout, fs0: Fs, i: nat, off: nat, src: seq<byte>, log0: set<nat>, fs: Fs, tot: nat, log: set<nat>)
  {
    && Shape(lay, fs0) && Shape(lay, fs) && i < |fs0.inodes| == |fs.inodes|
    && tot <= |src| && off + |src| <= MAXFILE * 1024
    && WriteFrom(lay, fs0, i, off, src).0 == WriteFrom(lay, fs, i, off + tot, src[tot..]).0
    && WriteFrom(lay, fs0, i, off, src).1 == tot + WriteFrom(lay, fs, i, off + tot, src[tot..]).1
    && log0 + WriteLogs(lay, fs0, i, off, src) == log + WriteLogs(lay, fs, i, off + tot, src[tot..])
  }

  lemma {:induction false} SoFarStarts(lay: Layout, fs: Fs, i: nat, off: nat, src: seq<byte>, log: set<nat>)
    requires Shape(lay, fs) && i < |fs.inodes| && off + |src| <= MAXFILE * 1024
    ensures WriteSoFar(lay, fs, i, off, src, log, fs, 0, log)
  {
    assert src[0..] == src;
  }

  lemma {:induction false} SoFarStops(
      lay: Layout, fs0: Fs, i: nat, off: nat, src: seq<byte>, log0: set<nat>, fs: Fs, tot: nat, log: set<nat>, t: Fs)
    requires WriteSoFar(lay, fs0, i, off, src, log0, fs, tot, log) && tot < |src|
    requires (t, 0) == Bmap(lay, fs, i, Bn(off + tot))
    ensures WriteFrom(lay, fs0, i, off, src) == (t, tot)
    ensures log0 + WriteLogs(lay, fs0, i, off, src) == log + BmapLogs(lay, fs, i, Bn(off + tot))
  {
    hide Bmap, BmapLogs, WriteFrom, WriteLogs, Shape;
    WriteStops(lay, fs, i, off + tot, src[tot..], t);
  }

  lemma {:induction false} SoFarNext(
      lay: Layout, fs0: Fs, i: nat, off: nat, src: seq<byte>, log0: set<nat>, fs: Fs, tot: nat, log: set<nat>, t: Fs,
      a: nat, m: nat, p: Fs)
    requires WriteSoFar(lay, fs0, i, off, src, log0, fs, tot, log) && tot < |src|
    requires (t, a) == Bmap(lay, fs, i, Bn(off + tot)) && 0 < a < |t.blocks|
    requires m == Chunk(off + tot, |src| - tot) && p == PutBytes(t, a, At(off + tot), src[tot..tot + m])
    ensures Shape(lay, p)
    ensures WriteSoFar(
        lay, fs0, i, off, src, log0, p, tot + m, log + BmapLogs(lay, fs, i, Bn(off + tot)) + {a})
  {
    hide Bmap, BmapLogs, WriteFrom, WriteLogs, Shape;
    var rest := src[tot..];
    assert src[tot..tot + m] == rest[..m] && rest[m..] == src[tot + m..];
    var w := WriteUnfolds(lay, fs, i, off + tot, rest, t, a, m, p);
    LogsUnfold(lay, fs, i, off + tot, rest, t, a, m, p);
  }

  lemma {:induction false} SoFarEnds(
      lay: Layout, fs0: Fs, i: nat, off: nat, src: seq<byte>, log0: set<nat>, fs: Fs, log: set<nat>)
    requires WriteSoFar(lay, fs0, i, off, src, log0, fs, |src|, log)
    ensures WriteFrom(lay, fs0, i, off, src) == (fs, |src|) && log0 + WriteLogs(lay, fs0, i, off, src) == log
  {
    hide WriteFrom, WriteLogs, Shape;
    assert src[|src|..] == [];
    WriteNothing(lay, fs, i, off + |src|);
  }

  // Every block and every bit of the free map that differs is in log.
  ghost predicate ChangesLogged(lay: Layout, fs: Fs, t: Fs, log: set<nat>) {
    && |t.blocks| == |fs.blocks| && |t.bits| == |fs.bits|
    && (forall b :: 0 <= b < |fs.blocks| && t.blocks[b] != fs.blocks[b] ==> b in log)
    && (forall b :: 0 <= b < |fs.bits| && t.bits[b] != fs.bits[b] ==> BBlock(lay, b) in log)
  }

  ghost predicate InodesLogged(lay: Layout, fs: Fs, t: Fs, log: set<nat>) {
    && |t.inodes| == |fs.inodes|
    && forall x :: 0 <= x < |fs.inodes| && t.inodes[x] != fs.inodes[x] ==> IBlock(lay, x) in log
  }

  lemma {:induction false} LoggedJoins(lay: Layout, fs: Fs, t: Fs, u: Fs, log: set<nat>, log': set<nat>)
    requires ChangesLogged(lay, fs, t, log) && ChangesLogged(lay, t, u, log')
    ensures ChangesLogged(lay, fs, u, log + log')
  {
  }

  lemma {:induction false} LoggedMore(lay: Layout, fs: Fs, t: Fs, log: set<nat>, log': set<nat>)
    requires ChangesLogged(lay, fs, t, log) && log <= log'
    ensures ChangesLogged(lay, fs, t, log')
  {
  }

  lemma {:induction false} DirectLogged(lay: Layout, fs: Fs, i: nat, k: nat)
    requires Shape(lay, fs) && i < |fs.inodes| && k <= NDIRECT
    ensures ChangesLogged(lay, fs, MapDirect(lay, fs, i, k).0, DirectLogs(lay, fs, i, k))
  {
  }

  lemma {:induction false} EntryLogged(lay: Layout, fs: Fs, i: nat, j: nat)
    requires Shape(lay, fs) && i < |fs.inodes| && j < NINDIRECT && 0 < fs.inodes[i].addrs[NDIRECT] < |fs.blocks|
    ensures ChangesLogged(lay, fs, MapEntry(lay, fs, i, j).0, EntryLogs(lay, fs, i, j))
  {
  }

  /** bmap() logs everything it changes. */
  lemma {:induction false} BmapLogged(lay: Layout, fs: Fs, i: nat, bn: nat, t: Fs, a: nat)
    requires Shape(lay, fs) && i < |fs.inodes| && bn < NDIRECT + NINDIRECT && (t, a) == Bmap(lay, fs, i, bn)
    ensures ChangesLogged(lay, fs, t, BmapLogs(lay, fs, i, bn))
  {
    hide MapDirect, MapEntry, DirectLogs, EntryLogs, ChangesLogged;
    if bn < NDIRECT {
      DirectLogged(lay, fs, i, bn);
    } else {
      DirectLogged(lay, fs, i, NDIRECT);
      var (mid, ind) := MapDirect(lay, fs, i, NDIRECT);
      if ind == 0 || |mid.blocks| <= ind || mid.inodes[i].addrs[NDIRECT] != ind {
        LoggedMore(lay, fs, mid, DirectLogs(lay, fs, i, NDIRECT), BmapLogs(lay, fs, i, bn));
      } else {
        EntryLogged(lay, mid, i, bn - NDIRECT);
        LoggedJoins(lay, fs, mid, t, DirectLogs(lay, fs, i, NDIRECT), EntryLogs(lay, mid, i, bn - NDIRECT));
      }
    }
  }

  lemma {:induction false} BmapLoggedIn(lay: Layout, fs: Fs, i: nat, bn: nat, log: set<nat>)
    requires Shape(lay, fs) && i < |fs.inodes| && bn < NDIRECT + NINDIRECT
    ensures ChangesLogged(lay, fs, Bmap(lay, fs, i, bn).0, log + BmapLogs(lay, fs, i, bn))
  {
    hide Bmap, BmapLogs, ChangesLogged;
    var (t, a) := Bmap(lay, fs, i, bn);
    BmapLogged(lay, fs, i, bn, t, a);
    LoggedMore(lay, fs, t, BmapLogs(lay, fs, i, bn), log + BmapLogs(lay, fs, i, bn));
  }

  lemma {:induction false} PutLogged(lay: Layout, fs: Fs, a: nat, at: nat, src: seq<byte>)
    requires a < |fs.blocks| && at + |src| <= |fs.blocks[a]|
    ensures ChangesLogged(lay, fs, PutBytes(fs, a, at, src), {a})
  {
  }

  /** writei()'s loop logs everything it changes, */
  lemma {:induction false} WriteLogged(lay: Layout, fs: Fs, i: nat, off: nat, src: seq<byte>)
    requires Shape(lay, fs) && i < |fs.inodes| && off + |src| <= MAXFILE * 1024
    ensures ChangesLogged(lay, fs, WriteFrom(lay, fs, i, off, src).0, WriteLogs(lay, fs, i, off, src))
    decreases |src|
  {
    hide Bmap, BmapLogs, ChangesLogged;
    if src == [] {
      NothingLogged(lay, fs);
    } else {
      var (t, a) := Bmap(lay, fs, i, Bn(off));
      BmapLogged(lay, fs, i, Bn(off), t, a);
      if a != 0 && a < |t.blocks| {
        var m := Chunk(off, |src|);
        var p := PutBytes(t, a, At(off), src[..m]);
        PutLogged(lay, t, a, At(off), src[..m]);
        LoggedJoins(lay, fs, t, p, BmapLogs(lay, fs, i, Bn(off)), {a});
        WriteLogged(lay, p, i, off + m, src[m..]);
        LoggedJoins(lay, fs, p, WriteFrom(lay, p, i, off + m, src[m..]).0,
            BmapLogs(lay, fs, i, Bn(off)) + {a}, WriteLogs(lay, p, i, off + m, src[m..]));
      }
    }
  }

  lemma {:induction false} NothingLogged(lay: Layout, fs: Fs)
    ensures ChangesLogged(lay, fs, fs, {})
  {
  }

  /** and so does readi()'s. */
  lemma {:induction false} ReadLogged(lay: Layout, fs: Fs, i: nat, off: nat, n: nat)
    requires Shape(lay, fs) && i < |fs.inodes| && off + n <= MAXFILE * 1024
    ensures ChangesLogged(lay, fs, ReadFrom(lay, fs, i, off, n).0, ReadLogs(lay, fs, i, off, n))
    decreases n
  {
    hide Bmap, BmapLogs, ChangesLogged;
    if n == 0 {
      NothingLogged(lay, fs);
    } else {
      var (t, a) := Bmap(lay, fs, i, Bn(off));
      BmapLogged(lay, fs, i, Bn(off), t, a);
      if a != 0 && a < |t.blocks| {
        var m := Chunk(off, n);
        ReadLogged(lay, t, i, off + m, n - m);
        LoggedJoins(lay, fs, t, ReadFrom(lay, t, i, off + m, n - m).0,
            BmapLogs(lay, fs, i, Bn(off)), ReadLogs(lay, t, i, off + m, n - m));
      } else {
        LoggedMore(lay, fs, t, BmapLogs(lay, fs, i, Bn(off)), ReadLogs(lay, fs, i, off, n));
      }
    }
  }

  // bmap() changes no other inode than the one it is called for.
  lemma {:induction false} BmapInode(lay: Layout, fs: Fs, i: nat, bn: nat)
    requires Shape(lay, fs) && i < |fs.inodes| && bn < NDIRECT + NINDIRECT
    ensures Bmap(lay, fs, i, bn).0.inodes == fs.inodes[i := Bmap(lay, fs, i, bn).0.inodes[i]]
  {
  }

  lemma {:induction false} WriteInodes(lay: Layout, fs: Fs, i: nat, off: nat, src: seq<byte>)
    requires Shape(lay, fs) && i < |fs.inodes| && off + |src| <= MAXFILE * 1024
    ensures forall x :: 0 <= x < |fs.inodes| && x != i ==> WriteFrom(lay, fs, i, off, src).0.inodes[x] == fs.inodes[x]
    decreases |src|
  {
    hide Bmap;
    if src != [] {
      var (t, a) := Bmap(lay, fs, i, Bn(off));
      BmapInode(lay, fs, i, Bn(off));
      if a != 0 && a < |t.blocks| {
        var m := Chunk(off, |src|);
        WriteInodes(lay, PutBytes(t, a, At(off), src[..m]), i, off + m, src[m..]);
      }
    }
  }

  lemma {:induction false} UnchangedLogged(lay: Layout, fs: Fs, log: set<nat>)
    ensures ChangesLogged(lay, fs, fs, log) && InodesLogged(lay, fs, fs, log)
  {
  }

  lemma {:induction false} WriteiLogged(lay: Layout, fs: Fs, i: nat, off: nat, src: seq<byte>, log: set<nat>)
    requires Shape(lay, fs) && i < |fs.inodes| && off + |src| <= MAXFILE * 1024 && off <= fs.inodes[i].size
    requires |src| < 0x1_0000_0000 && off < 0x1_0000_0000
    requires WriteLogs(lay, fs, i, off, src) + {IBlock(lay, i)} <= log
    ensures ChangesLogged(lay, fs, Writei(lay, fs, i, off, src).0, log)
    ensures InodesLogged(lay, fs, Writei(lay, fs, i, off, src).0, log)
  {
    hide WriteFrom, WriteLogs;
    WriteLogged(lay, fs, i, off, src);
    WriteInodes(lay, fs, i, off, src);
  }

  lemma {:induction false} FirstFreeFrom(bits: seq<bool>, k: nat)
    requires k <= |bits| && forall b :: 0 <= b < k ==> bits[b]
    ensures FirstFree(bits, 0) == FirstFree(bits, k)
  {
    assert FirstFree(bits, 0) >= k;
  }

  // The free map part way through itrunc(): the blocks of addrs[..k] and of entries below j are free.
  ghost function Clearing(bits: seq<bool>, own: seq<Option<Slot>>, i: nat, k: nat, j: nat): (r: seq<bool>)
    requires |own| == |bits|
    ensures |r| == |bits|
    ensures forall b :: 0 <= b < |bits| ==> (r[b] <==> bits[b] && !(own[b].Some? && Before(own[b].value, i, k, j)))
  {
    seq(|bits|, b requires 0 <= b < |bits| => bits[b] && !(own[b].Some? && Before(own[b].value, i, k, j)))
  }

  ghost predicate Before(s: Slot, i: nat, k: nat, j: nat) {
    match s
    case Direct(x, m) => x == i && m < k
    case Entry(x, m) => x == i && m < j
  }

  // Freeing the block of the next place is the next stage.
  lemma {:induction false} ClearNext(lay: Layout, fs: Fs, own: seq<Option<Slot>>, s: Slot, i: nat, k: nat, j: nat)
    requires Owned(lay, fs, own) && InRange(fs, s) && s.i == i && (s == Direct(i, k) || s == Entry(i, j))
    ensures var k', j' := (if s.Direct? then k + 1 else k), (if s.Entry? then j + 1 else j);
            var a := Addr(fs, s);
            if a == 0 then Clearing(fs.bits, own, i, k', j') == Clearing(fs.bits, own, i, k, j)
            else a < |fs.bits| && Clearing(fs.bits, own, i, k, j)[a]
                 && Clearing(fs.bits, own, i, k', j') == Clearing(fs.bits, own, i, k, j)[a := false]
  {
    var a := Addr(fs, s);
    var k', j' := (if s.Direct? then k + 1 else k), (if s.Entry? then j + 1 else j);
    assert a != 0 ==> own[a] == Some(s) && lay.nmeta <= a;
    forall b | 0 <= b < |own| && own[b].Some? && b != a
      ensures Before(own[b].value, i, k', j') == Before(own[b].value, i, k, j)
    {
      assert own[b].value != s;
    }
    var r := Clearing(fs.bits, own, i, k, j);
    if a == 0 {
      assert Clearing(fs.bits, own, i, k', j') == r;
    } else {
      assert Clearing(fs.bits, own, i, k', j') == r[a := false];
    }
  }

  // The last stage of itrunc() is the truncated free map.
  lemma {:induction false} AllCleared(lay: Layout, fs: Fs, own: seq<Option<Slot>>, i: nat)
    requires Owned(lay, fs, own) && i < |fs.inodes|
    ensures var ind, entries := fs.inodes[i].addrs[NDIRECT], Clearing(fs.bits, own, i, NDIRECT, NINDIRECT);
            if ind == 0 then Truncated(fs, own, i).bits == Clearing(fs.bits, own, i, NDIRECT, 0)
            else ind < |fs.bits| && entries[ind] && Truncated(fs, own, i).bits == entries[ind := false]
  {
    ClearNext(lay, fs, own, Direct(i, NDIRECT), i, NDIRECT, NINDIRECT);
    assert Addr(fs, Direct(i, NDIRECT)) == fs.inodes[i].addrs[NDIRECT];
    forall b | 0 <= b < |own| && own[b].Some? && lay.nmeta <= b
      ensures own[b].value.i == i <==> Before(own[b].value, i, NDIRECT + 1, NINDIRECT)
      ensures fs.inodes[i].addrs[NDIRECT] == 0 && own[b].value.i == i ==> Before(own[b].value, i, NDIRECT, 0)
    {
      assert InRange(fs, own[b].value) && Addr(fs, own[b].value) == b;
    }
    assert Truncated(fs, own, i).bits == Clearing(fs.bits, own, i, NDIRECT + 1, NINDIRECT);
  }

  class FileSys {
    const lay: Layout
    var bits: seq<bool>
    var blocks: seq<seq<byte>>
    var inodes: seq<Inode>
    var logged: set<nat>

    ghost function Abs(): (fs: Fs)
      reads this
    {
      Fs(bits, blocks, inodes)
    }

    // balloc(): the lowest free block, marked and zeroed, or 0.
    method Balloc() returns (r: nat)
      requires Shape(lay, Abs())
      modifies this`bits, this`blocks, this`logged
      ensures var b := FirstFree(old(bits), 0);
              if b == |old(bits)| then r == 0 && bits == old(bits) && blocks == old(blocks) && logged == old(logged)
              else r == b && bits == old(bits)[b := true] && blocks == old(blocks)[b := Zeros()]
                   && logged == old(logged) + {BBlock(lay, b), b}
    {
      var b := 0;
      while b < |bits|
        invariant 0 <= b && b % BPB == 0
        invariant forall c :: 0 <= c < b && c < |bits| ==> bits[c]
        invariant bits == old(bits) && blocks == old(blocks) && logged == old(logged)
        decreases |bits| - b
      {
        var bi := 0;
        while bi < BPB && b + bi < |bits|
          invariant 0 <= bi <= BPB
          invariant b + bi <= |bits|
          invariant forall c :: 0 <= c < b + bi ==> bits[c]
          invariant bits == old(bits) && blocks == old(blocks) && logged == old(logged)
        {
          if !bits[b + bi] {
            FirstFreeFrom(bits, b + bi);
            bits := bits[b + bi := true];
            logged := logged + {BBlock(lay, b + bi)};
            blocks := blocks[b + bi := Zeros()];
            logged := logged + {b + bi};
            return b + bi;
          }
          bi := bi + 1;
        }
        b := b + BPB;
      }
      FirstFreeFrom(bits, |bits|);
      return 0;
    }

    method Bfree(b: nat) returns (panic: bool)
      requires b < |bits|
      modifies this`bits, this`logged
      ensures panic <==> !old(bits)[b]
      ensures bits == if panic then old(bits) else old(bits)[b := false]
      ensures logged == if panic then old(logged) else old(logged) + {BBlock(lay, b)}
    {
      if !bits[b] {
        return true;
      }
      bits := bits[b := false];
      logged := logged + {BBlock(lay, b)};
      return false;
    }

    // Give addrs[k] a block if it has none.
    method MapSlot(i: nat, k: nat, ghost own: seq<Option<Slot>>) returns (a: nat)
      requires Owned(lay, Abs(), own) && i < |inodes| && k <= NDIRECT
      modifies this`bits, this`blocks, this`inodes, this`logged
      ensures (Abs(), a) == MapDirect(lay, old(Abs()), i, k)
      ensures logged == old(logged) + DirectLogs(lay, old(Abs()), i, k)
    {
      a := inodes[i].addrs[k];
      if a == 0 {
        assert FirstFree(bits, 0) >= lay.nmeta;
        a := Balloc();
        if a == 0 {
          return 0;
        }
        inodes := inodes[i := inodes[i].(addrs := inodes[i].addrs[k := a])];
      }
    }

    method MapIndirectEntry(i: nat, j: nat, ghost own: seq<Option<Slot>>) returns (a: nat)
      requires Owned(lay, Abs(), own) && i < |inodes| && j < NINDIRECT && 0 < inodes[i].addrs[NDIRECT] < |blocks|
      modifies this`bits, this`blocks, this`inodes, this`logged
      ensures (Abs(), a) == MapEntry(lay, old(Abs()), i, j)
      ensures logged == old(logged) + EntryLogs(lay, old(Abs()), i, j)
    {
      var ind := inodes[i].addrs[NDIRECT];
      assert Addr(Abs(), Direct(i, NDIRECT)) == ind && own[ind].Some? && bits[ind];
      a := Word(blocks[ind], j);
      assert a == Addr(Abs(), Entry(i, j));
      if a == 0 {
        assert FirstFree(bits, 0) >= lay.nmeta;
        a := Balloc();
        if a != 0 {
          blocks := blocks[ind := PutWord(blocks[ind], j, a)];
          logged := logged + {ind};
        }
      }
    }

    /** bmap() performs Bmap and logs BmapLogs. */
    method BlockMap(i: nat, bn: nat, ghost own: seq<Option<Slot>>) returns (a: nat)
      requires Owned(lay, Abs(), own) && i < |inodes| && bn < NDIRECT + NINDIRECT
      modifies this`bits, this`blocks, this`inodes, this`logged
      ensures (Abs(), a) == Bmap(lay, old(Abs()), i, bn)
      ensures logged == old(logged) + BmapLogs(lay, old(Abs()), i, bn)
      ensures ChangesLogged(lay, old(Abs()), Abs(), logged)
    {
      hide MapDirect, MapEntry, DirectLogs, EntryLogs, Grows, ChangesLogged;
      ghost var fs0 := Abs();
      OwnedShape(lay, fs0, own);
      BmapLoggedIn(lay, fs0, i, bn, logged);
      if bn < NDIRECT {
        a := MapSlot(i, bn, own);
        return;
      }
      ghost var (mid, ind) := MapDirect(lay, Abs(), i, NDIRECT);
      ghost var own1 := MapDirectOwned(lay, Abs(), own, i, NDIRECT, mid, ind, Direct(i, NDIRECT));
      a := MapSlot(i, NDIRECT, own);
      if a == 0 {
        return 0;
      }
      a := MapIndirectEntry(i, bn - NDIRECT, own1);
    }

    /** writei() performs Writei; what it logs is WriteLogs and the inode's block. */
    method WriteInode(i: nat, off: nat, src: seq<byte>, ghost own: seq<Option<Slot>>) returns (r: int)
      requires Owned(lay, Abs(), own) && i < |inodes| && off < 0x1_0000_0000 && |src| < 0x1_0000_0000
      modifies this`bits, this`blocks, this`inodes, this`logged
      ensures (Abs(), r) == Writei(lay, old(Abs()), i, off, src)
      ensures off + |src| <= MAXFILE * 1024 && off <= old(inodes[i].size) ==>
                logged == old(logged) + WriteLogs(lay, old(Abs()), i, off, src) + {IBlock(lay, i)}
      ensures MAXFILE * 1024 < off + |src| || old(inodes[i].size) < off ==> logged == old(logged)
      ensures ChangesLogged(lay, old(Abs()), Abs(), logged) && InodesLogged(lay, old(Abs()), Abs(), logged)
    {
      hide Bmap, BmapLogs, WriteFrom, WriteLogs, Owned, ChangesLogged, InodesLogged;
      ghost var fs0 := Abs();
      OwnedShape(lay, fs0, own);
      UnchangedLogged(lay, fs0, logged);
      if inodes[i].size < off || 0x1_0000_0000 <= off + |src| {
        return -1;
      }
      if MAXFILE * 1024 < off + |src| {
        return -1;
      }
      var tot, _ := WriteLoop(i, off, src, own);
      assert inodes[i := inodes[i].(size := inodes[i].size)] == inodes;
      if inodes[i].size < off + tot {
        inodes := inodes[i := inodes[i].(size := off + tot)];
      }
      logged := logged + {IBlock(lay, i)};
      WriteiLogged(lay, fs0, i, off, src, logged);
      r := tot;
    }

    method WriteLoop(i: nat, off: nat, src: seq<byte>, ghost own: seq<Option<Slot>>)
      returns (tot: nat, ghost own': seq<Option<Slot>>)
      requires Owned(lay, Abs(), own) && i < |inodes| && off + |src| <= MAXFILE * 1024
      modifies this`bits, this`blocks, this`inodes, this`logged
      ensures (Abs(), tot) == WriteFrom(lay, old(Abs()), i, off, src)
      ensures logged == old(logged) + WriteLogs(lay, old(Abs()), i, off, src)
      ensures Owned(lay, Abs(), own')
    {
      hide Bmap, BmapLogs, WriteFrom, WriteLogs, Owned, WriteSoFar;
      ghost var fs0 := Abs();
      ghost var log0 := logged;
      own', tot := own, 0;
      OwnedShape(lay, fs0, own);
      SoFarStarts(lay, fs0, i, off, src, log0);
      while tot < |src|
        invariant tot <= |src| && Owned(lay, Abs(), own') && Shape(lay, Abs()) && |inodes| == |fs0.inodes|
        invariant WriteSoFar(lay, fs0, i, off, src, log0, Abs(), tot, logged)
      {
        ghost var fs, log := Abs(), logged;
        ghost var (t, b) := Bmap(lay, fs, i, Bn(off + tot));
        ghost var own1 := WriteTurn(lay, fs, own', i, off + tot, src[tot..], t, b);
        var a := BlockMap(i, Bn(off + tot), own');
        own' := own1;
        if a == 0 {
          SoFarStops(lay, fs0, i, off, src, log0, fs, tot, log, t);
          return;
        }
        var m := Chunk(off + tot, |src| - tot);
        var data := src[tot..tot + m];
        assert data == src[tot..][..m];
        SoFarNext(lay, fs0, i, off, src, log0, fs, tot, log, t, a, m, PutBytes(t, a, At(off + tot), data));
        blocks := blocks[a := blocks[a][..At(off + tot)] + data + blocks[a][At(off + tot) + m..]];
        logged := logged + {a};
        tot := tot + m;
      }
      SoFarEnds(lay, fs0, i, off, src, log0, Abs(), logged);
    }

    /** readi() performs Readi; what it logs is ReadiLogs. */
    method ReadInode(i: nat, off: nat, n: nat, ghost own: seq<Option<Slot>>)
      returns (data: seq<byte>, ghost own': seq<Option<Slot>>)
      requires Owned(lay, Abs(), own) && i < |inodes| && off < 0x1_0000_0000 && n < 0x1_0000_0000
      requires inodes[i].size <= MAXFILE * 1024
      modifies this`bits, this`blocks, this`inodes, this`logged
      ensures (Abs(), data) == Readi(lay, old(Abs()), i, off, n)
      ensures logged == old(logged) + ReadiLogs(lay, old(Abs()), i, off, n)
      ensures ChangesLogged(lay, old(Abs()), Abs(), logged)
      ensures Owned(lay, Abs(), own')
    {
      hide ReadFrom, ReadLogs, Owned, ChangesLogged;
      ghost var fs0 := Abs();
      OwnedShape(lay, fs0, own);
      if inodes[i].size < off || 0x1_0000_0000 <= off + n {
        UnchangedLogged(lay, fs0, logged);
        return [], own;
      }
      var m := if inodes[i].size < off + n then inodes[i].size - off else n;
      ReadLogged(lay, fs0, i, off, m);
      data, own' := ReadLoop(i, off, m, own);
      LoggedMore(lay, fs0, Abs(), ReadLogs(lay, fs0, i, off, m), logged);
    }

    method ReadLoop(i: nat, off: nat, n: nat, ghost own: seq<Option<Slot>>)
      returns (data: seq<byte>, ghost own': seq<Option<Slot>>)
      requires Owned(lay, Abs(), own) && i < |inodes| && off + n <= MAXFILE * 1024
      modifies this`bits, this`blocks, this`inodes, this`logged
      ensures (Abs(), data) == ReadFrom(lay, old(Abs()), i, off, n)
      ensures logged == old(logged) + ReadLogs(lay, old(Abs()), i, off, n)
      ensures Owned(lay, Abs(), own')
    {
      hide Bmap, BmapLogs, ReadFrom, ReadLogs, Owned, ReadSoFar, ChangesLogged;
      ghost var fs0, log0 := Abs(), logged;
      OwnedShape(lay, fs0, own);
      own', data := own, [];
      ReadStarts(lay, fs0, i, off, n, log0);
      while |data| < n
        invariant |data| <= n && Owned(lay, Abs(), own') && Shape(lay, Abs()) && |inodes| == |fs0.inodes|
        invariant ReadSoFar(lay, fs0, i, off, n, log0, Abs(), data, logged)
      {
        var o := off + |data|;
        ghost var fs, log := Abs(), logged;
        ghost var (t, b) := Bmap(lay, fs, i, Bn(o));
        ghost var own1 := ReadNext(lay, fs0, own', i, off, n, log0, fs, data, log, t, b);
        var a := BlockMap(i, Bn(o), own');
        own' := own1;
        if a == 0 {
          return;
        }
        var m := Chunk(o, n - |data|);
        data := data + blocks[a][At(o)..At(o) + m];
      }
      ReadEnds(lay, fs0, i, off, n, log0, Abs(), data, logged);
    }

    // itrunc()'s loop over the direct blocks.
    method FreeDirect(i: nat, ghost own: seq<Option<Slot>>) returns (panic: bool)
      requires Owned(lay, Abs(), own) && i < |inodes|
      modifies this`bits, this`inodes, this`logged
      ensures !panic && bits == Clearing(old(bits), own, i, NDIRECT, 0)
      ensures |inodes| == |old(inodes)| && inodes == old(inodes)[i := inodes[i]]
      ensures inodes[i].addrs == seq(NDIRECT, _ => 0) + [old(inodes)[i].addrs[NDIRECT]]
      ensures old(logged) <= logged <= old(logged) + BitmapBlocks(lay, |bits|)
      ensures forall b :: 0 <= b < |bits| && bits[b] != old(bits)[b] ==> BBlock(lay, b) in logged
    {
      ghost var fs0 := Abs();
      ghost var addrs0 := inodes[i].addrs;
      var k := 0;
      while k < NDIRECT
        invariant 0 <= k <= NDIRECT && blocks == fs0.blocks
        invariant bits == Clearing(fs0.bits, own, i, k, 0)
        invariant |inodes| == |fs0.inodes| && inodes == fs0.inodes[i := inodes[i]]
        invariant |inodes[i].addrs| == NDIRECT + 1
        invariant forall m :: 0 <= m <= NDIRECT ==> inodes[i].addrs[m] == if m < k then 0 else addrs0[m]
        invariant old(logged) <= logged <= old(logged) + BitmapBlocks(lay, |bits|)
        invariant forall b :: 0 <= b < |bits| && bits[b] != fs0.bits[b] ==> BBlock(lay, b) in logged
      {
        ClearNext(lay, fs0, own, Direct(i, k), i, k, 0);
        if inodes[i].addrs[k] != 0 {
          panic := Bfree(inodes[i].addrs[k]);
          if panic {
            return;
          }
          inodes := inodes[i := inodes[i].(addrs := inodes[i].addrs[k := 0])];
        }
        k := k + 1;
      }
      panic := false;
    }

    /** itrunc() frees exactly the blocks inode i holds and logs the inode and blocks of the free map; "freeing free
        block" cannot happen. */
    method Itrunc(i: nat, ghost own: seq<Option<Slot>>) returns (panic: bool)
      requires Owned(lay, Abs(), own) && i < |inodes|
      modifies this`bits, this`inodes, this`logged
      ensures !panic && Abs() == Truncated(old(Abs()), own, i)
      ensures old(logged) <= logged <= old(logged) + BitmapBlocks(lay, |bits|) + {IBlock(lay, i)}
      ensures ChangesLogged(lay, old(Abs()), Abs(), logged) && InodesLogged(lay, old(Abs()), Abs(), logged)
    {
      ghost var fs0 := Abs();
      panic := FreeDirect(i, own);
      if panic {
        return;
      }
      AllCleared(lay, fs0, own, i);
      if inodes[i].addrs[NDIRECT] != 0 {
        panic := FreeEntries(i, fs0, own);
        if panic {
          return;
        }
        panic := Bfree(inodes[i].addrs[NDIRECT]);
        if panic {
          return;
        }
        inodes := inodes[i := inodes[i].(addrs := inodes[i].addrs[NDIRECT := 0])];
      }
      inodes := inodes[i := inodes[i].(size := 0)];
      logged := logged + {IBlock(lay, i)};
      assert inodes[i].addrs == seq(NDIRECT + 1, _ => 0);
    }

    // itrunc()'s loop over the indirect block; the entries themselves are left in place.
    method FreeEntries(i: nat, ghost fs0: Fs, ghost own: seq<Option<Slot>>) returns (panic: bool)
      requires Owned(lay, fs0, own) && i < |inodes| == |fs0.inodes| && blocks == fs0.blocks
      requires |inodes[i].addrs| == NDIRECT + 1
      requires inodes[i].addrs[NDIRECT] == fs0.inodes[i].addrs[NDIRECT] != 0
      requires bits == Clearing(fs0.bits, own, i, NDIRECT, 0)
      modifies this`bits, this`logged
      ensures !panic && bits == Clearing(fs0.bits, own, i, NDIRECT, NINDIRECT)
      ensures old(logged) <= logged <= old(logged) + BitmapBlocks(lay, |bits|)
      ensures forall b :: 0 <= b < |bits| && bits[b] != old(bits)[b] ==> BBlock(lay, b) in logged
    {
      assert Addr(fs0, Direct(i, NDIRECT)) == inodes[i].addrs[NDIRECT];
      var ind := inodes[i].addrs[NDIRECT];
      var j := 0;
      while j < NINDIRECT
        invariant 0 <= j <= NINDIRECT
        invariant bits == Clearing(fs0.bits, own, i, NDIRECT, j)
        invariant old(logged) <= logged <= old(logged) + BitmapBlocks(lay, |bits|)
        invariant forall b :: 0 <= b < |bits| && bits[b] != old(bits)[b] ==> BBlock(lay, b) in logged
      {
        ClearNext(lay, fs0, own, Entry(i, j), i, NDIRECT, j);
        if Word(blocks[ind], j) != 0 {
          panic := Bfree(Word(blocks[ind], j));
          if panic {
            return;
          }
        }
        j := j + 1;
      }
      panic := false;
    }
  }
}
