/** mkfs/mkfs.c: the image it builds satisfies the invariants kernel/fs.c starts from. Blocks are handed out by
    freeblock++; seen as a disk whose first freeblock blocks are taken, that is bmap(). */
module Mkfs {
  import opened Options
  import opened Bytes
  import opened FileBlocks
  import opened FileBytes
  import opened FileSystem
  import opened ImageSpace

  const FSSIZE: nat := 2000
  const INODES: nat := 208 // NINODES is 200 and goes unchecked; the 13 inode blocks hold this many
  const ROOTINO: nat := 1
  const LAYOUT: Layout := Layout(46, 32, 45) // 2 + LOGSIZE + NINODES/IPB + 1 + FSSIZE/BPB + 1

  datatype File = File(name: seq<byte>, data: seq<byte>)

  // struct dirent, the name padded with zeroes.
  function Dirent(inum: nat, name: seq<byte>): (r: seq<byte>)
    requires |name| <= 14
    ensures |r| == 16
  {
    ToLe(inum, 2) + name + seq(14 - |name|, _ => 0)
  }

  // The root directory after "." and ".." and the first n files.
  function RootEntries(files: seq<File>, n: nat): (r: seq<byte>)
    requires n <= |files| && forall f :: 0 <= f < |files| ==> |files[f].name| <= 14
    ensures |r| == 16 * (n + 2)
  {
    if n == 0 then Dirent(ROOTINO, ['.' as int]) + Dirent(ROOTINO, ['.' as int, '.' as int])
    else RootEntries(files, n - 1) + Dirent(n + 1, files[n - 1].name)
  }

  function Datas(files: seq<File>, n: nat): (r: seq<seq<byte>>)
    requires n <= |files|
    ensures |r| == n && forall f :: 0 <= f < n ==> r[f] == files[f].data
  {
    if n == 0 then [] else Datas(files, n - 1) + [files[n - 1].data]
  }

  // The blocks the root directory and the first n files take.
  function Need(files: seq<File>, n: nat): (r: nat)
    requires n <= |files|
  {
    BlocksFor(16 * (n + 2)) + DataNeed(files, n)
  }

  function DataNeed(files: seq<File>, n: nat): (r: nat)
    requires n <= |files|
  {
    if n == 0 then 0 else DataNeed(files, n - 1) + BlocksFor(|files[n - 1].data|)
  }

  // Every file is small enough and the image has room for them all.
  predicate Room(files: seq<File>) {
    && (forall f :: 0 <= f < |files| ==> |files[f].data| <= MAXFILE * 1024)
    && 46 + Need(files, |files|) <= FSSIZE
  }

  predicate RoomTo(files: seq<File>, n: nat)
    requires n <= |files|
  {
    (forall f :: 0 <= f < n ==> |files[f].data| <= MAXFILE * 1024) && 46 + Need(files, n) <= FSSIZE
  }

  lemma {:induction false} RoomAll(files: seq<File>)
    ensures RoomTo(files, |files|) <==> Room(files)
  {
  }

  lemma {:induction false} EntriesNext(files: seq<File>, n: nat)
    requires n < |files| && forall f :: 0 <= f < |files| ==> |files[f].name| <= 14
    ensures RootEntries(files, n + 1) == RootEntries(files, n) + Dirent(n + 2, files[n].name)
    ensures Datas(files, n + 1) == Datas(files, n) + [files[n].data]
  {
  }

  // One more file.
  lemma {:induction false} NeedNext(files: seq<File>, n: nat)
    requires n < |files| && RoomTo(files, n)
    ensures Need(files, n + 1)
         == Need(files, n) + (BlocksFor(16 * (n + 2) + 16) - BlocksFor(16 * (n + 2))) + BlocksFor(|files[n].data|)
    ensures RoomTo(files, n + 1) <==> |files[n].data| <= MAXFILE * 1024 && 46 + Need(files, n + 1) <= FSSIZE
    ensures Room(files) ==> RoomTo(files, n + 1)
  {
    NeedGrows(files, n + 1, |files|);
    assert 16 * (n + 1 + 2) == 16 * (n + 2) + 16;
    hide BlocksFor;
  }

  lemma {:induction false} NeedGrows(files: seq<File>, n: nat, m: nat)
    requires n <= m <= |files|
    ensures DataNeed(files, n) <= DataNeed(files, m) && Need(files, n) <= Need(files, m)
    decreases m
  {
    BlocksGrow(16 * (n + 2), 16 * (m + 2));
    if n < m {
      NeedGrows(files, n, m - 1);
      BlocksGrow(16 * (n + 2), 16 * (m + 1));
    }
  }

  // What an append takes, and leaves, of a file that has exactly its blocks.
  lemma {:induction false} AppendExactly(fs: Fs, own: seq<Option<Slot>>, i: nat, p: seq<byte>, fb: nat, u: Fs, w: int)
    requires Owned(LAYOUT, fs, own) && Shape(LAYOUT, fs) && i < |fs.inodes| && fs.inodes[i].size <= MAXFILE * 1024
    requires Exactly(fs, i, Ceil(fs.inodes[i].size)) && |p| < 0x1_0000_0000 && fb <= |fs.bits|
    requires fs.bits == Used(|fs.bits|, fb)
    requires (u, w) == Writei(LAYOUT, fs, i, fs.inodes[i].size, p)
    ensures var size := fs.inodes[i].size;
            var more := BlocksFor(size + |p|) - BlocksFor(size);
            && (w == |p| <==> size + |p| <= MAXFILE * 1024 && fb + more <= |fs.bits|)
            && (w == |p| ==> u.bits == Used(|fs.bits|, fb + more) && Exactly(u, i, Ceil(size + |p|)))
  {
    hide Owned, WriteFrom, Exactly, Shape, BlocksFor, Ceil;
    var size := fs.inodes[i].size;
    if size + |p| <= MAXFILE * 1024 {
      WriteExactly(LAYOUT, fs, own, i, size, p, fb);
      var (t, n) := WriteFrom(LAYOUT, fs, i, size, p);
      if n == |p| {
        ResizedExactly(t, i, u.inodes[i].size, Ceil(size + |p|));
      }
    }
  }

  lemma {:induction false} ResizedExactly(fs: Fs, i: nat, size: nat, c: nat)
    requires i < |fs.inodes| && Exactly(fs, i, c)
    ensures Exactly(Resized(fs, i, size), i, c)
  {
    var t := Resized(fs, i, size);
    forall bn | 0 <= bn < MAXFILE
      ensures Addr(t, SlotOf(i, bn)) == Addr(fs, SlotOf(i, bn))
    {
    }
  }

  lemma {:induction false} SameUsed(n: nat, a: nat, b: nat)
    requires a <= n && b <= n && Used(n, a) == Used(n, b)
    ensures a == b
  {
    if a < n {
      assert !Used(n, b)[a];
    }
    if b < n {
      assert !Used(n, a)[b];
    }
  }

  // Blocks a write does not reach stay unmapped.
  lemma {:induction false} WriteMapsOnly(
      lay: Layout, fs: Fs, own: seq<Option<Slot>>, i: nat, off: nat, src: seq<byte>, k: nat)
    requires Owned(lay, fs, own) && Shape(lay, fs) && i < |fs.inodes| && off + |src| <= MAXFILE * 1024
    requires Bn(k) < MAXFILE
    requires !Mapped(fs, i, k) && (Bn(k) < Bn(off) || off + |src| <= 1024 * Bn(k))
    ensures !Mapped(WriteFrom(lay, fs, i, off, src).0, i, k)
    decreases |src|
  {
    hide Bmap, Owned, Addr;
    if src == [] {
      WriteNothing(lay, fs, i, off);
    } else {
      var (t, a) := Bmap(lay, fs, i, Bn(off));
      assert Bn(k) != Bn(off);
      var own1 := OtherUnmapped(lay, fs, own, i, Bn(off), t, a, k);
      if a == 0 {
        WriteStops(lay, fs, i, off, src, t);
      } else {
        var m := Chunk(off, |src|);
        var p := PutBytes(t, a, At(off), src[..m]);
        PutByte(lay, t, own1, i, off, src[..m], p, i, k);
        PutOwned(lay, t, own1, i, Bn(off), At(off), src[..m], p);
        var rest := WriteUnfolds(lay, fs, i, off, src, t, a, m, p);
        WriteMapsOnly(lay, p, own1, i, off + m, src[m..], k);
      }
    }
  }

  lemma {:induction false} OtherUnmapped(
      lay: Layout, fs: Fs, own: seq<Option<Slot>>, i: nat, bn: nat, t: Fs, a: nat, k: nat)
    returns (own1: seq<Option<Slot>>)
    requires Owned(lay, fs, own) && Shape(lay, fs) && i < |fs.inodes| && bn < MAXFILE && Bn(k) < MAXFILE && Bn(k) != bn
    requires (t, a) == Bmap(lay, fs, i, bn) && !Mapped(fs, i, k)
    ensures Owned(lay, t, own1) && !Mapped(t, i, k)
    ensures a != 0 ==> 0 < a == Addr(t, SlotOf(i, bn)) < |t.blocks| && |t.blocks[a]| == 1024
  {
    hide Bmap;
    own1 := BmapOwned(lay, fs, own, i, bn, t, a, SlotOf(i, bn));
    assert SlotOf(i, Bn(k)) != SlotOf(i, bn);
  }

  function EmptyInode(): Inode {
    Inode(seq(NDIRECT + 1, _ => 0), 0)
  }

  // Beyond the first n bytes the root directory holds no block and nothing but zeroes.
  ghost predicate Tail(fs: Fs, n: nat) {
    && ROOTINO < |fs.inodes|
    && (forall k :: n <= k && Bn(k) < MAXFILE ==> FileByte(fs, ROOTINO, k) == 0)
    && (forall k :: 0 <= k && n <= 1024 * Bn(k) && Bn(k) < MAXFILE ==> !Mapped(fs, ROOTINO, k))
  }

  // Inode x holds exactly c, without holes.
  ghost predicate Keeps(fs: Fs, x: nat, c: seq<byte>) {
    x < |fs.inodes| && Solid(fs, x) && Contents(fs, x) == c
  }

  // The image part way: the root directory holds root, inode f + 2 holds data[f], the rest are untouched.
  ghost predicate Holds(fs: Fs, root: seq<byte>, data: seq<seq<byte>>) {
    && |data| + 2 <= |fs.inodes| == INODES
    && Keeps(fs, ROOTINO, root)
    && (forall f :: 0 <= f < |data| ==> Keeps(fs, f + 2, data[f]))
    && (forall x :: |data| + 2 <= x < INODES ==> fs.inodes[x] == EmptyInode())
    && Tail(fs, |root|)
  }

  lemma {:induction false} NothingMapped(fs: Fs, x: nat, k: nat)
    requires x < |fs.inodes| && fs.inodes[x] == EmptyInode() && Bn(k) < MAXFILE
    ensures !Mapped(fs, x, k) && FileByte(fs, x, k) == 0
  {
  }

  lemma {:induction false} StartHolds(fs: Fs)
    requires |fs.inodes| == INODES && forall x :: 0 <= x < INODES ==> fs.inodes[x] == EmptyInode()
    ensures Holds(fs, [], [])
  {
    forall k | 0 <= k && Bn(k) < MAXFILE
      ensures !Mapped(fs, ROOTINO, k) && FileByte(fs, ROOTINO, k) == 0
    {
      NothingMapped(fs, ROOTINO, k);
    }
  }

  lemma {:induction false} NewFileHolds(fs: Fs, root: seq<byte>, data: seq<seq<byte>>)
    requires Holds(fs, root, data) && |data| + 2 < INODES
    ensures Holds(fs, root, data + [[]])
  {
    var more := data + [[]];
    assert Keeps(fs, |data| + 2, []);
    forall f | 0 <= f < |more|
      ensures Keeps(fs, f + 2, more[f])
    {
      assert f < |data| ==> Keeps(fs, f + 2, data[f]);
    }
  }

  // An append that succeeds: the file grows by p and no other file changes.
  lemma {:induction false} AppendEffect(fs: Fs, own: seq<Option<Slot>>, i: nat, c: seq<byte>, p: seq<byte>, u: Fs)
    requires Owned(LAYOUT, fs, own) && Shape(LAYOUT, fs) && i < |fs.inodes| && |p| < 0x1_0000_0000 && Keeps(fs, i, c)
    requires fs.inodes[i].size < 0x1_0000_0000 && (u, |p|) == Writei(LAYOUT, fs, i, fs.inodes[i].size, p)
    ensures |u.inodes| == |fs.inodes| && Keeps(u, i, c + p)
    ensures forall x, d {:trigger Keeps(u, x, d)} :: x != i && Keeps(fs, x, d) ==> Keeps(u, x, d)
  {
    hide Owned, Writei, Contents;
    var own' := WriteiRefines(LAYOUT, fs, own, i, fs.inodes[i].size, p, u, |p|);
    assert p[..|p|] == p;
  }

  // bmap() and data writes leave other inodes' records alone.
  lemma {:induction false} RecordKept(lay: Layout, fs: Fs, i: nat, off: nat, src: seq<byte>, x: nat)
    requires Shape(lay, fs) && i < |fs.inodes| && off + |src| <= MAXFILE * 1024 && x < |fs.inodes| && x != i
    ensures WriteFrom(lay, fs, i, off, src).0.inodes[x] == fs.inodes[x]
    decreases |src|
  {
    hide Bmap;
    if src == [] {
      WriteNothing(lay, fs, i, off);
    } else {
      var (t, a) := Bmap(lay, fs, i, Bn(off));
      BmapRecord(lay, fs, i, Bn(off), t, a, x);
      if a == 0 || |t.blocks| <= a {
        assert WriteFrom(lay, fs, i, off, src).0 == t;
      } else {
        var m := Chunk(off, |src|);
        var p := PutBytes(t, a, At(off), src[..m]);
        var rest := WriteUnfolds(lay, fs, i, off, src, t, a, m, p);
        RecordKept(lay, p, i, off + m, src[m..], x);
      }
    }
  }

  lemma {:induction false} BmapRecord(lay: Layout, fs: Fs, i: nat, bn: nat, t: Fs, a: nat, x: nat)
    requires Shape(lay, fs) && i < |fs.inodes| && bn < MAXFILE && (t, a) == Bmap(lay, fs, i, bn)
    requires x < |fs.inodes| && x != i
    ensures t.inodes[x] == fs.inodes[x]
  {
  }

  lemma {:induction false} RecordsKept(fs: Fs, i: nat, p: seq<byte>, u: Fs)
    requires Shape(LAYOUT, fs) && i < |fs.inodes| && |p| < 0x1_0000_0000 && fs.inodes[i].size < 0x1_0000_0000
    requires (u, |p|) == Writei(LAYOUT, fs, i, fs.inodes[i].size, p)
    ensures forall x :: 0 <= x < |fs.inodes| && x != i ==> u.inodes[x] == fs.inodes[x]
  {
    hide WriteFrom;
    forall x | 0 <= x < |fs.inodes| && x != i
      ensures u.inodes[x] == fs.inodes[x]
    {
      RecordKept(LAYOUT, fs, i, fs.inodes[i].size, p, x);
    }
  }

  lemma {:induction false} WriteiAtEnd(fs: Fs, i: nat, p: seq<byte>)
    requires Shape(LAYOUT, fs) && i < |fs.inodes| && fs.inodes[i].size <= MAXFILE * 1024 && |p| < 0x1_0000_0000
    ensures var size := fs.inodes[i].size;
            && (Writei(LAYOUT, fs, i, size, p).1 == |p| <==>
                  size + |p| <= MAXFILE * 1024 && WriteFrom(LAYOUT, fs, i, size, p).1 == |p|)
            && (Writei(LAYOUT, fs, i, size, p).1 == |p|
                && WriteFrom(LAYOUT, fs, i, size, p).0.inodes[i].size == size ==>
                  Writei(LAYOUT, fs, i, size, p).0 == Resized(WriteFrom(LAYOUT, fs, i, size, p).0, i, size + |p|))
  {
    hide WriteFrom;
  }

  // Appending to the root directory keeps its tail clear.
  lemma {:induction false} RootTail(fs: Fs, own: seq<Option<Slot>>, p: seq<byte>, u: Fs)
    requires Owned(LAYOUT, fs, own) && Shape(LAYOUT, fs) && ROOTINO < |fs.inodes|
    requires Tail(fs, fs.inodes[ROOTINO].size)
    requires fs.inodes[ROOTINO].size < 0x1_0000_0000 && |p| < 0x1_0000_0000 && 0 < |p|
    requires (u, |p|) == Writei(LAYOUT, fs, ROOTINO, fs.inodes[ROOTINO].size, p)
    ensures Tail(u, fs.inodes[ROOTINO].size + |p|)
  {
    hide Owned, WriteFrom, FileByte, Mapped;
    var off := fs.inodes[ROOTINO].size;
    var (t, w) := WriteFrom(LAYOUT, fs, ROOTINO, off, p);
    var own' := WriteFromWrites(LAYOUT, fs, own, ROOTINO, off, p, t, w);
    ResizedSame(LAYOUT, t, own', ROOTINO, u.inodes[ROOTINO].size, u);
    forall k | off + |p| <= k && Bn(k) < MAXFILE
      ensures FileByte(u, ROOTINO, k) == 0
    {
      assert WroteAt(fs, t, ROOTINO, off, p, w, ROOTINO, k);
    }
    forall k | 0 <= k && off + |p| <= 1024 * Bn(k) && Bn(k) < MAXFILE
      ensures !Mapped(u, ROOTINO, k)
    {
      WriteMapsOnly(LAYOUT, fs, own, ROOTINO, off, p, k);
    }
  }

  // Appending to another file leaves the root directory's tail clear.
  lemma {:induction false} OtherTail(fs: Fs, own: seq<Option<Slot>>, i: nat, n: nat, p: seq<byte>, u: Fs)
    requires Owned(LAYOUT, fs, own) && Shape(LAYOUT, fs) && Tail(fs, n) && ROOTINO != i < |fs.inodes|
    requires fs.inodes[i].size < 0x1_0000_0000 && |p| < 0x1_0000_0000
    requires (u, |p|) == Writei(LAYOUT, fs, i, fs.inodes[i].size, p)
    ensures Tail(u, n)
  {
    hide Owned, WriteFrom, FileByte, Mapped;
    var off := fs.inodes[i].size;
    var (t, w) := WriteFrom(LAYOUT, fs, i, off, p);
    var own' := WriteFromWrites(LAYOUT, fs, own, i, off, p, t, w);
    ResizedSame(LAYOUT, t, own', i, u.inodes[i].size, u);
    forall k | 0 <= k && Bn(k) < MAXFILE
      ensures FileByte(u, ROOTINO, k) == FileByte(fs, ROOTINO, k) && Mapped(u, ROOTINO, k) == Mapped(fs, ROOTINO, k)
    {
      assert WroteAt(fs, t, i, off, p, w, ROOTINO, k);
    }
  }

  lemma {:induction false} RootHolds(
      fs: Fs, own: seq<Option<Slot>>, root: seq<byte>, data: seq<seq<byte>>, p: seq<byte>, u: Fs)
    requires Holds(fs, root, data) && Owned(LAYOUT, fs, own) && Shape(LAYOUT, fs) && 0 < |p| < 0x1_0000_0000
    requires fs.inodes[ROOTINO].size < 0x1_0000_0000
    requires (u, |p|) == Writei(LAYOUT, fs, ROOTINO, fs.inodes[ROOTINO].size, p)
    ensures Holds(u, root + p, data)
  {
    hide Owned, Writei, Tail, Solid;
    assert |root| == fs.inodes[ROOTINO].size;
    AppendEffect(fs, own, ROOTINO, root, p, u);
    hide Keeps;
    RecordsKept(fs, ROOTINO, p, u);
    RootTail(fs, own, p, u);
  }

  lemma {:induction false} FileHolds(
      fs: Fs, own: seq<Option<Slot>>, root: seq<byte>, data: seq<seq<byte>>, d: seq<byte>, p: seq<byte>, u: Fs)
    requires Holds(fs, root, data + [d]) && Owned(LAYOUT, fs, own) && Shape(LAYOUT, fs) && |p| < 0x1_0000_0000
    requires fs.inodes[|data| + 2].size < 0x1_0000_0000
    requires (u, |p|) == Writei(LAYOUT, fs, |data| + 2, fs.inodes[|data| + 2].size, p)
    ensures Holds(u, root, data + [d + p])
  {
    hide Owned, Writei, Contents, Tail, Keeps;
    assert Keeps(fs, |data| + 2, (data + [d])[|data|]);
    AppendEffect(fs, own, |data| + 2, d, p, u);
    RecordsKept(fs, |data| + 2, p, u);
    OtherTail(fs, own, |data| + 2, |root|, p, u);
    forall f | 0 <= f < |data|
      ensures Keeps(u, f + 2, data[f])
    {
      assert Keeps(fs, f + 2, (data + [d])[f]);
    }
  }

  lemma {:induction false} SameSlice(p: seq<byte>, q: seq<byte>, k: nat, m: nat)
    requires q <= p && k + m <= |q|
    ensures p[k..k + m] == q[k..k + m] == q[k..][..m]
  {
  }

  // What one turn of iappend() writes, tot bytes of p having been written. q is what fits in the file.
  lemma {:induction false} TurnChunk(off: nat, p: seq<byte>, q: seq<byte>, tot: nat)
    requires off <= MAXFILE * 1024 && q == p[..Min(|p|, MAXFILE * 1024 - off)] && tot < |p| && tot <= |q|
    requires Bn(off + tot) < MAXFILE
    ensures tot < |q| && 0 < (Bn(off + tot) + 1) * 1024 - (off + tot)
    ensures Min(|p| - tot, (Bn(off + tot) + 1) * 1024 - (off + tot)) == Chunk(off + tot, |q| - tot) <= |q| - tot
    ensures At(off + tot) + Chunk(off + tot, |q| - tot) <= 1024
    ensures var m := Chunk(off + tot, |q| - tot); p[tot..tot + m] == q[tot..tot + m] == q[tot..][..m]
  {
    SameSlice(p, q, tot, Chunk(off + tot, |q| - tot));
  }

  lemma {:induction false} PastEnd(off: nat, n: nat, tot: nat)
    requires MAXFILE <= Bn(off + tot) && tot < n
    ensures MAXFILE * 1024 < off + n
  {
  }

  lemma {:induction false} NothingNeeded(files: seq<File>)
    requires forall f :: 0 <= f < |files| ==> |files[f].name| <= 14
    ensures RootEntries(files, 0) == RootEntries([], 0) && Datas(files, 0) == [] && RoomTo(files, 0)
    ensures Need(files, 0) == 1
  {
    assert BlocksFor(32) == 1;
  }

  class Image {
    var freeblock: nat
    var freeinode: nat
    var blocks: seq<seq<byte>>
    var inodes: seq<Inode>

    ghost function View(inum: nat, din: Inode): (fs: Fs)
      requires inum < |inodes|
      reads this
    {
      Fs(Used(|blocks|, freeblock), blocks, inodes[inum := din])
    }

    ghost function Abs(): (fs: Fs)
      reads this
    {
      Fs(Used(|blocks|, freeblock), blocks, inodes)
    }

    // Sectors not handed out yet still hold zeroes.
    ghost predicate Blank()
      reads this
    {
      freeblock <= |blocks| < 0x1_0000_0000 && forall b :: freeblock <= b < |blocks| ==> blocks[b] == Zeros()
    }

    constructor ()
      ensures Blank() && freeblock == 46 && freeinode == 1 && |blocks| == FSSIZE && |inodes| == INODES
      ensures forall x :: 0 <= x < INODES ==> inodes[x] == EmptyInode()
      ensures forall b :: 0 <= b < FSSIZE ==> blocks[b] == Zeros()
    {
      freeblock, freeinode := 46, 1;
      blocks := seq(FSSIZE, _ => Zeros());
      inodes := seq(INODES, _ => EmptyInode());
    }

    method Ialloc() returns (inum: nat)
      requires freeinode < |inodes|
      modifies this`freeinode, this`inodes
      ensures inum == old(freeinode) && freeinode == inum + 1 && inodes == old(inodes)[inum := EmptyInode()]
    {
      inum := freeinode;
      freeinode := freeinode + 1;
      inodes := inodes[inum := EmptyInode()];
    }

    // balloc(): exactly the first used bits of the free map.
    method Balloc(used: nat) returns (buf: seq<bv8>)
      requires used < BPB
      ensures |buf| == 1024 && forall b :: 0 <= b < BPB ==> (TestBit(buf, b) <==> b < used)
    {
      buf := seq(1024, _ => 0 as bv8);
      var i := 0;
      while i < used
        invariant i <= used && |buf| == 1024
        invariant forall b :: 0 <= b < BPB ==> (TestBit(buf, b) <==> b < i)
      {
        ghost var buf0 := buf;
        buf := SetBit(buf, i);
        forall b | 0 <= b < BPB
          ensures TestBit(buf, b) <==> b < i + 1
        {
          BitsAreBits(buf0, i, b);
        }
        i := i + 1;
      }
    }

    // Give addrs[k] a block if it has none; rsect() dies on one past the end of the image.
    method TakeDirect(inum: nat, din: Inode, k: nat) returns (ok: bool, din': Inode, x: nat)
      requires Blank() && inum < |inodes| && Shape(LAYOUT, View(inum, din)) && k <= NDIRECT && 46 <= freeblock
      requires |din.addrs| == NDIRECT + 1
      modifies this`freeblock
      ensures ok ==> (View(inum, din'), x) == MapDirect(LAYOUT, old(View(inum, din)), inum, k)
      ensures |din'.addrs| == NDIRECT + 1
      ensures ok ==> Blank() && x != 0 && freeblock >= old(freeblock) && x == din'.addrs[k]
      ensures !ok ==> MapDirect(LAYOUT, old(View(inum, din)), inum, k) == (old(View(inum, din)), 0)
    {
      FirstUnused(|blocks|, freeblock);
      ghost var fs := View(inum, din);
      din' := din;
      if din.addrs[k] == 0 {
        if |blocks| <= freeblock {
          return false, din, 0;
        }
        din' := din.(addrs := din.addrs[k := freeblock]);
        assert blocks[freeblock := Zeros()] == blocks;
        freeblock := freeblock + 1;
        assert View(inum, din') == GiveDirect(fs, inum, k, freeblock - 1);
      }
      return true, din', din'.addrs[k];
    }

    // The same for entry j of the indirect block.
    method TakeEntry(inum: nat, din: Inode, j: nat) returns (ok: bool, x: nat)
      requires Blank() && inum < |inodes| && Shape(LAYOUT, View(inum, din)) && j < NINDIRECT && 46 <= freeblock
      requires |din.addrs| == NDIRECT + 1
      requires 0 < din.addrs[NDIRECT] < |blocks| && din.addrs[NDIRECT] < freeblock
      modifies this`freeblock, this`blocks
      ensures ok ==> (View(inum, din), x) == MapEntry(LAYOUT, old(View(inum, din)), inum, j)
      ensures ok ==> Blank() && x != 0 && freeblock >= old(freeblock)
      ensures !ok ==> MapEntry(LAYOUT, old(View(inum, din)), inum, j) == (old(View(inum, din)), 0)
    {
      FirstUnused(|blocks|, freeblock);
      ghost var fs := View(inum, din);
      var ind := din.addrs[NDIRECT];
      x := Word(blocks[ind], j);
      assert x == Addr(fs, Entry(inum, j));
      if x == 0 {
        if |blocks| <= freeblock {
          return false, 0;
        }
        x := freeblock;
        assert blocks[freeblock := Zeros()] == blocks;
        blocks := blocks[ind := PutWord(blocks[ind], j, x)];
        freeblock := freeblock + 1;
        assert View(inum, din) == GiveEntry(fs, inum, j, x);
      }
      return true, x;
    }

    /** The block choice in iappend() is bmap(). */
    method TakeBlock(
        inum: nat, din: Inode, fbn: nat, ghost own: seq<Option<Slot>>)
      returns (ok: bool, din': Inode, x: nat)
      requires Blank() && inum < |inodes| && Owned(LAYOUT, View(inum, din), own) && fbn < MAXFILE && 46 <= freeblock
      modifies this`freeblock, this`blocks
      ensures ok ==> (View(inum, din'), x) == Bmap(LAYOUT, old(View(inum, din)), inum, fbn)
      ensures ok ==> Blank() && x != 0 && freeblock >= old(freeblock)
      ensures !ok ==> Bmap(LAYOUT, old(View(inum, din)), inum, fbn).1 == 0
    {
      ghost var fs := View(inum, din);
      assert fs.inodes[inum] == din;
      if fbn < NDIRECT {
        ok, din', x := TakeDirect(inum, din, fbn);
      } else {
        ghost var (mid, ind) := MapDirect(LAYOUT, fs, inum, NDIRECT);
        ghost var own1 := MapDirectOwned(LAYOUT, fs, own, inum, NDIRECT, mid, ind, Direct(inum, NDIRECT));
        ok, din', x := TakeDirect(inum, din, NDIRECT);
        if !ok {
          return;
        }
        assert Addr(mid, Direct(inum, NDIRECT)) == x && mid.bits[x];
        ok, x := TakeEntry(inum, din', fbn - NDIRECT);
      }
    }

    /** iappend() is writei() at the end of the file, and dies exactly when that would refuse or fall short. */
    method Iappend(inum: nat, p: seq<byte>, ghost own: seq<Option<Slot>>)
      returns (ok: bool, ghost own': seq<Option<Slot>>)
      requires Blank() && 46 <= freeblock && inum < |inodes| && Owned(LAYOUT, Abs(), own) && Solid(Abs(), inum)
      requires |p| < 0x1_0000_0000
      modifies this`freeblock, this`blocks, this`inodes
      ensures ok <==> Writei(LAYOUT, old(Abs()), inum, old(inodes[inum].size), p).1 == |p|
      ensures ok ==> Abs() == Writei(LAYOUT, old(Abs()), inum, old(inodes[inum].size), p).0
      ensures ok ==> Blank() && 46 <= freeblock && |inodes| == |old(inodes)| && Owned(LAYOUT, Abs(), own')
    {
      hide Owned, WriteFrom, Solid, Writei;
      ghost var fs0 := Abs();
      var din := inodes[inum];
      var off := din.size;
      SolidSize(fs0, inum);
      OwnedShape(LAYOUT, fs0, own);
      WriteiAtEnd(fs0, inum, p);
      assert inodes[inum := din] == inodes;
      var tot;
      ok, din, tot, own' := AppendLoop(inum, din, p, own);
      if !ok {
        return;
      }
      ghost var mid := View(inum, din);
      assert mid.inodes[inum] == din;
      ResizedOwned(mid, own', inum, off + tot);
      inodes := inodes[inum := din.(size := off + tot)];
      assert Abs() == Resized(mid, inum, off + tot);
    }

    // The image part way, the root directory with exactly its blocks.
    ghost predicate Stage(own: seq<Option<Slot>>, root: seq<byte>, data: seq<seq<byte>>)
      reads this
    {
      && Blank() && 46 <= freeblock && |blocks| == FSSIZE && Owned(LAYOUT, Abs(), own) && Holds(Abs(), root, data)
      && Exactly(Abs(), ROOTINO, Ceil(|root|)) && |root| <= NDIRECT * 1024
    }

    // Append to the root directory.
    method AppendRoot(p: seq<byte>, ghost own: seq<Option<Slot>>, ghost root: seq<byte>, ghost data: seq<seq<byte>>)
      returns (ok: bool, ghost own': seq<Option<Slot>>)
      requires Stage(own, root, data) && 0 < |p| && |root + p| <= NDIRECT * 1024
      modifies this`freeblock, this`blocks, this`inodes
      ensures ok <==> old(freeblock) + (BlocksFor(|root + p|) - BlocksFor(|root|)) <= FSSIZE
      ensures ok ==>
                Stage(own', root + p, data) && freeblock == old(freeblock) + (BlocksFor(|root + p|) - BlocksFor(|root|))
      ensures ok ==> |inodes| == old(|inodes|) && forall x :: 0 <= x < |inodes| && x != ROOTINO ==>
                inodes[x] == old(inodes)[x]
    {
      hide Owned, Writei, Solid, Contents, Exactly, BlocksFor, Ceil, Tail;
      ghost var fs := Abs();
      OwnedShape(LAYOUT, fs, own);
      SolidSize(fs, ROOTINO);
      HoldsSize(fs, root, data);
      ghost var (u, w) := Writei(LAYOUT, fs, ROOTINO, |root|, p);
      AppendExactly(fs, own, ROOTINO, p, freeblock, u, w);
      BlocksGrow(|root|, |root + p|);
      ok, own' := Iappend(ROOTINO, p, own);
      if ok {
        RootHolds(fs, own, root, data, p, Abs());
        RecordsKept(fs, ROOTINO, p, Abs());
        SameUsed(|fs.bits|, freeblock, old(freeblock) + (BlocksFor(|root + p|) - BlocksFor(|root|)));
      }
    }

    // Append to the file allocated last.
    method AppendFile(
        inum: nat, p: seq<byte>, ghost own: seq<Option<Slot>>, ghost root: seq<byte>, ghost data: seq<seq<byte>>,
        ghost d: seq<byte>)
      returns (ok: bool, ghost own': seq<Option<Slot>>)
      requires Stage(own, root, data + [d]) && inum == |data| + 2 && |p| < 0x1_0000_0000
      requires Exactly(Abs(), inum, Ceil(|d|))
      modifies this`freeblock, this`blocks, this`inodes
      ensures ok <==> |d + p| <= MAXFILE * 1024 && old(freeblock) + (BlocksFor(|d + p|) - BlocksFor(|d|)) <= FSSIZE
      ensures ok ==> Stage(own', root, data + [d + p]) && Exactly(Abs(), inum, Ceil(|d + p|))
      ensures ok ==> freeblock == old(freeblock) + (BlocksFor(|d + p|) - BlocksFor(|d|))
    {
      hide Owned, Writei, Solid, Contents, Exactly, BlocksFor, Tail;
      ghost var fs := Abs();
      assert Ceil(|root|) <= NDIRECT;
      hide Ceil;
      OwnedShape(LAYOUT, fs, own);
      assert Keeps(fs, inum, (data + [d])[|data|]);
      SolidSize(fs, inum);
      KeepsSize(fs, inum, d);
      ghost var (u, w) := Writei(LAYOUT, fs, inum, |d|, p);
      AppendExactly(fs, own, inum, p, freeblock, u, w);
      BlocksGrow(|d|, |d + p|);
      ok, own' := Iappend(inum, p, own);
      if ok {
        FileHolds(fs, own, root, data, d, p, Abs());
        RecordsKept(fs, inum, p, Abs());
        RecordExactly(fs, Abs(), ROOTINO, Ceil(|root|));
        SameUsed(|fs.bits|, freeblock, old(freeblock) + (BlocksFor(|d + p|) - BlocksFor(|d|)));
      }
    }

    // Copy a whole file, a buffer at a time.
    method CopyFile(
        inum: nat, bytes: seq<byte>, ghost own: seq<Option<Slot>>, ghost root: seq<byte>, ghost data: seq<seq<byte>>)
      returns (ok: bool, ghost own': seq<Option<Slot>>)
      requires Stage(own, root, data + [[]]) && inum == |data| + 2 && Exactly(Abs(), inum, 0)
      modifies this`freeblock, this`blocks, this`inodes
      ensures ok <==> |bytes| <= MAXFILE * 1024 && old(freeblock) + BlocksFor(|bytes|) <= FSSIZE
      ensures ok ==> Stage(own', root, data + [bytes]) && freeblock == old(freeblock) + BlocksFor(|bytes|)
    {
      assert Ceil(0) == 0 && BlocksFor(0) == 0 && old(freeblock) <= FSSIZE;
      hide Stage, Exactly, Ceil, BlocksFor, Blank, Used;
      own', ok := own, true;
      var rest := bytes;
      ghost var done: seq<byte> := [];
      while rest != []
        invariant done + rest == bytes && |done| <= MAXFILE * 1024 && Stage(own', root, data + [done])
        invariant freeblock == old(freeblock) + BlocksFor(|done|) <= FSSIZE && Exactly(Abs(), inum, Ceil(|done|))
        decreases |rest|
      {
        var buf := rest[..Min(1024, |rest|)];
        rest := rest[|buf|..];
        assert done + buf + rest == bytes;
        BlocksGrow(|done + buf|, |bytes|);
        ok, own' := AppendFile(inum, buf, own', root, data, done);
        if !ok {
          return;
        }
        done := done + buf;
      }
      assert done == bytes;
      ok := true;
    }

    method AddFile(file: File, ghost own: seq<Option<Slot>>, ghost root: seq<byte>, ghost data: seq<seq<byte>>)
      returns (ok: bool, ghost own': seq<Option<Slot>>)
      requires Stage(own, root, data) && freeinode == |data| + 2 < INODES && |file.name| <= 14 && |root| <= 4096
      modifies this
      ensures ok <==>
                && |file.data| <= MAXFILE * 1024
                && old(freeblock) + (BlocksFor(|root| + 16) - BlocksFor(|root|)) + BlocksFor(|file.data|) <= FSSIZE
      ensures ok ==>
                Stage(own', root + Dirent(|data| + 2, file.name), data + [file.data]) && freeinode == old(freeinode) + 1
      ensures ok ==> freeblock == old(freeblock) + (BlocksFor(|root| + 16) - BlocksFor(|root|)) + BlocksFor(|file.data|)
    {
      hide Owned, Holds, Dirent, Exactly, BlocksFor, Ceil;
      HoldsEmpty(Abs(), root, data);
      NewFileHolds(Abs(), root, data);
      var inum := Ialloc();
      assert inodes == old(inodes);
      assert Stage(own, root, data + [[]]);
      hide Stage, Blank;
      ok, own' := AppendRoot(Dirent(inum, file.name), own, root, data + [[]]);
      if ok {
        EmptyExactly(Abs(), inum);
        ok, own' := CopyFile(inum, file.data, own', root + Dirent(inum, file.name), data);
      }
    }

    // "." and ".." in the new root directory.
    method StartRoot(ghost own: seq<Option<Slot>>) returns (ghost own': seq<Option<Slot>>)
      requires Stage(own, [], []) && freeblock == 46
      modifies this`freeblock, this`blocks, this`inodes
      ensures Stage(own', RootEntries([], 0), []) && freeblock == 47
    {
      assert BlocksFor(0) == 0 && BlocksFor(16) == BlocksFor(32) == 1;
      hide Stage, BlocksFor, Dirent;
      var ok;
      ok, own' := AppendRoot(Dirent(ROOTINO, ['.' as int]), own, [], []);
      ghost var first := Dirent(ROOTINO, ['.' as int]);
      assert [] + first == first;
      ok, own' := AppendRoot(Dirent(ROOTINO, ['.' as int, '.' as int]), own', first, []);
    }

    // main()'s first steps: the root directory with its two dot entries.
    method MakeRoot(ghost own: seq<Option<Slot>>) returns (ghost own': seq<Option<Slot>>)
      requires Blank() && freeblock == 46 && freeinode == 1 && |blocks| == FSSIZE && |inodes| == INODES
      requires Owned(LAYOUT, Abs(), own) && forall x :: 0 <= x < INODES ==> inodes[x] == EmptyInode()
      modifies this
      ensures Stage(own', RootEntries([], 0), []) && freeblock == 47 && freeinode == 2
    {
      hide Owned, Holds, Exactly, Dirent;
      assert Ceil(0) == 0;
      StartHolds(Abs());
      EmptyExactly(Abs(), ROOTINO);
      var rootino := Ialloc();
      assert inodes == old(inodes);
      own' := StartRoot(own);
    }

    // The root directory and every file, before the final touches.
    method Populate(files: seq<File>, ghost own: seq<Option<Slot>>) returns (ok: bool, ghost own': seq<Option<Slot>>)
      requires |files| + 2 <= INODES && forall f :: 0 <= f < |files| ==> |files[f].name| <= 14
      requires Blank() && freeblock == 46 && freeinode == 1 && |blocks| == FSSIZE && |inodes| == INODES
      requires Owned(LAYOUT, Abs(), own) && forall x :: 0 <= x < INODES ==> inodes[x] == EmptyInode()
      modifies this
      ensures ok <==> Room(files)
      ensures ok ==>
                Stage(own', RootEntries(files, |files|), Datas(files, |files|))
                    && freeblock == 46 + Need(files, |files|)
    {
      hide Owned, Holds, Exactly, BlocksFor, Dirent, Stage, Blank, RootEntries, Datas, Need, RoomTo, Room;
      own' := MakeRoot(own);
      NothingNeeded(files);
      var n := 0;
      while n < |files|
        invariant n <= |files| && freeinode == n + 2 && Stage(own', RootEntries(files, n), Datas(files, n))
        invariant freeblock == 46 + Need(files, n) && RoomTo(files, n)
      {
        EntriesNext(files, n);
        ok, own' := AddFile(files[n], own', RootEntries(files, n), Datas(files, n));
        NeedNext(files, n);
        if !ok {
          return;
        }
        n := n + 1;
      }
      RoomAll(files);
      ok := true;
    }

    /** main() dies exactly when a file is too large or the files do not fit; the image it leaves owns every block
        exactly once, its free map says so, and each file holds the bytes it was given; the root directory ends in a
        hole exactly when its entries fill whole blocks. */
    method Build(files: seq<File>) returns (ok: bool, bitmap: seq<bv8>, ghost own: seq<Option<Slot>>)
      requires |files| + 2 <= INODES && forall f :: 0 <= f < |files| ==> |files[f].name| <= 14
      requires Blank() && freeblock == 46 && freeinode == 1 && |blocks| == FSSIZE && |inodes| == INODES
      requires forall x :: 0 <= x < INODES ==> inodes[x] == EmptyInode()
      requires forall b :: 0 <= b < FSSIZE ==> blocks[b] == Zeros()
      modifies this
      ensures ok <==> Room(files)
      ensures ok ==>
                && |bitmap| == 1024 && |blocks| == FSSIZE
                && Owned(LAYOUT, Fs(seq(FSSIZE, b requires 0 <= b < FSSIZE => TestBit(bitmap, b)), blocks, inodes), own)
                && (forall f :: 0 <= f < |files| ==> Keeps(Abs(), f + 2, files[f].data))
                && freeblock == 46 + Need(files, |files|) && Owned(LAYOUT, Abs(), own)
                && |inodes| == INODES
                && inodes[ROOTINO].size == (16 * (|files| + 2) / 1024 + 1) * 1024 <= MAXFILE * 1024
                && RootEntries(files, |files|) <= Contents(Abs(), ROOTINO)
                && (Solid(Abs(), ROOTINO) <==> 16 * (|files| + 2) % 1024 != 0)
    {
      hide Owned, Keeps, Solid, Contents;
      own, bitmap := seq(FSSIZE, _ => None), [];
      StartOwned(Abs());
      ok, own := Populate(files, own);
      if !ok {
        return;
      }
      ghost var fs, root := Abs(), RootEntries(files, |files|);
      var off := inodes[ROOTINO].size;
      HoldsSize(fs, root, Datas(files, |files|));
      off := (off / 1024 + 1) * 1024;
      inodes := inodes[ROOTINO := inodes[ROOTINO].(size := off)];
      RootRounded(fs, own, root, Datas(files, |files|), Abs());
      bitmap := Balloc(freeblock);
      assert seq(FSSIZE, b requires 0 <= b < FSSIZE => TestBit(bitmap, b)) == Used(FSSIZE, freeblock);
      assert forall f :: 0 <= f < |files| ==> files[f].data == Datas(files, |files|)[f];
    }

    method AppendLoop(inum: nat, din0: Inode, p: seq<byte>, ghost own: seq<Option<Slot>>)
      returns (ok: bool, din: Inode, tot: nat, ghost own': seq<Option<Slot>>)
      requires Blank() && 46 <= freeblock && inum < |inodes| && Owned(LAYOUT, View(inum, din0), own)
      requires din0.size <= MAXFILE * 1024
      modifies this`freeblock, this`blocks
      ensures ok <==> din0.size + |p| <= MAXFILE * 1024
                      && WriteFrom(LAYOUT, old(View(inum, din0)), inum, din0.size, p).1 == |p|
      ensures ok ==> (View(inum, din), tot) == WriteFrom(LAYOUT, old(View(inum, din0)), inum, din0.size, p)
      ensures ok ==> Blank() && 46 <= freeblock && Owned(LAYOUT, View(inum, din), own') && din.size == din0.size
    {
      hide Bmap, BmapLogs, WriteFrom, WriteLogs, Owned, Shape, WriteSoFar, Bn, At, Chunk;
      ghost var fs0 := View(inum, din0);
      var off := din0.size;
      ghost var q := p[..Min(|p|, MAXFILE * 1024 - off)];
      ghost var log: set<nat> := {};
      din, own', tot := din0, own, 0;
      OwnedShape(LAYOUT, fs0, own);
      SoFarStarts(LAYOUT, fs0, inum, off, q, {});
      while tot < |p|
        invariant tot <= |q| && Blank() && 46 <= freeblock && din.size == off
        invariant Owned(LAYOUT, View(inum, din), own') && Shape(LAYOUT, View(inum, din))
        invariant WriteSoFar(LAYOUT, fs0, inum, off, q, {}, View(inum, din), tot, log)
      {
        var fbn := Bn(off + tot);
        if MAXFILE <= fbn {
          PastEnd(off, |p|, tot);
          ok := false;
          return;
        }
        ghost var fs := View(inum, din);
        TurnChunk(off, p, q, tot);
        ghost var (t, b) := Bmap(LAYOUT, fs, inum, fbn);
        ghost var own1 := WriteTurn(LAYOUT, fs, own', inum, off + tot, q[tot..], t, b);
        var x;
        ok, din, x := TakeBlock(inum, din, fbn, own');
        own' := own1;
        if !ok {
          SoFarStops(LAYOUT, fs0, inum, off, q, {}, fs, tot, log, t);
          assert off + |p| <= MAXFILE * 1024 ==> q == p;
          return;
        }
        var n1 := Min(|p| - tot, (fbn + 1) * 1024 - (off + tot));
        ghost var after := PutBytes(t, x, At(off + tot), q[tot..tot + n1]);
        SoFarNext(LAYOUT, fs0, inum, off, q, {}, fs, tot, log, t, x, n1, after);
        assert t == View(inum, din);
        assert t.inodes[inum].size == off by { SizeKept(LAYOUT, fs, inum, fbn, t, x); }
        blocks := blocks[x := blocks[x][..At(off + tot)] + p[tot..tot + n1] + blocks[x][At(off + tot) + n1..]];
        assert View(inum, din) == after;
        tot, log := tot + n1, log + BmapLogs(LAYOUT, fs, inum, fbn) + {x};
      }
      assert q == p;
      SoFarEnds(LAYOUT, fs0, inum, off, p, {}, View(inum, din), log);
      ok := true;
    }
  }

  // Rounding the root directory's size up past a block boundary.
  lemma {:induction false} RootRounded(fs: Fs, own: seq<Option<Slot>>, root: seq<byte>, data: seq<seq<byte>>, u: Fs)
    requires Holds(fs, root, data) && Owned(LAYOUT, fs, own) && |root| < 4096
    requires u == Resized(fs, ROOTINO, (|root| / 1024 + 1) * 1024)
    ensures Owned(LAYOUT, u, own) && |u.inodes| == INODES
    ensures Solid(u, ROOTINO) <==> |root| % 1024 != 0
    ensures u.inodes[ROOTINO].size == (|root| / 1024 + 1) * 1024 <= MAXFILE * 1024
    ensures Contents(u, ROOTINO) == root + seq((|root| / 1024 + 1) * 1024 - |root|, _ => 0)
    ensures forall f :: 0 <= f < |data| ==> Keeps(u, f + 2, data[f])
  {
    hide Owned, FileByte, Mapped;
    var n, size := |root|, (|root| / 1024 + 1) * 1024;
    ResizedSame(LAYOUT, fs, own, ROOTINO, size, u);
    if n % 1024 == 0 {
      assert Bn(n) * 1024 == n && !Mapped(fs, ROOTINO, n);
      assert !Mapped(u, ROOTINO, n);
    } else {
      assert Mapped(fs, ROOTINO, n - 1);
      forall k | 0 <= k < size
        ensures Mapped(u, ROOTINO, k)
      {
        if n <= k {
          SameBlock(fs, ROOTINO, n - 1, k);
        }
      }
    }
    var want := root + seq(size - n, _ => 0);
    forall k | 0 <= k < size
      ensures FileByte(u, ROOTINO, k) == want[k]
    {
      assert Bn(k) < MAXFILE;
      assert k < n ==> root[k] == FileByte(fs, ROOTINO, k);
    }
    assert Contents(u, ROOTINO) == want;
    forall f | 0 <= f < |data|
      ensures Keeps(u, f + 2, data[f])
    {
      OthersKeep(fs, u, f + 2, data[f]);
    }
  }

  lemma {:induction false} EmptyFiles(files: seq<File>, n: nat)
    requires n <= |files| && forall f :: 0 <= f < |files| ==> files[f].data == []
    ensures DataNeed(files, n) == 0
    decreases n
  {
    if n > 0 {
      EmptyFiles(files, n - 1);
    }
  }

  /** The hole is real: 62 files fit, with nothing in them, and their 64 entries fill one block exactly. */
  lemma {:induction false} RootHole() returns (files: seq<File>)
    ensures |files| + 2 <= INODES && Room(files) && 16 * (|files| + 2) % 1024 == 0
    ensures forall f :: 0 <= f < |files| ==> |files[f].name| <= 14
  {
    files := seq(62, _ => File(['f' as int], []));
    EmptyFiles(files, 62);
    assert BlocksFor(1024) == 1;
  }

  /** From inode 208 on, so with more than 206 files, winode() writes where the free map is... */
  lemma {:induction false} InodesFit(inum: nat)
    ensures IBlock(LAYOUT, inum) < LAYOUT.bmapstart <==> inum < INODES
    ensures INODES <= inum < INODES + 16 ==> IBlock(LAYOUT, inum) == BBlock(LAYOUT, 0)
  {
  }

  /** ...and balloc(), which comes last, leaves none of the inodes there a file: the type is the first field, T_FILE is
      2, and the free map has no bit set that follows a clear one. */
  lemma {:induction false} InodeOverwritten(bitmap: seq<bv8>, used: nat, inum: nat)
    requires |bitmap| == 1024 && forall b :: 0 <= b < BPB ==> (TestBit(bitmap, b) <==> b < used)
    requires INODES <= inum < INODES + 16
    ensures bitmap[64 * (inum % 16)] != 2
  {
    var o := 64 * (inum % 16);
    assert TestBit(bitmap, 8 * o + 1) ==> TestBit(bitmap, 8 * o);
    LowBits(bitmap[o]);
  }

  lemma {:induction false} LowBits(x: bv8)
    ensures x == 2 ==> x & Mask(1) != 0 && x & Mask(0) == 0
  {
  }

  lemma {:induction false} OthersKeep(fs: Fs, u: Fs, x: nat, c: seq<byte>)
    requires Keeps(fs, x, c) && |u.inodes| == |fs.inodes| && u.inodes[x] == fs.inodes[x]
    requires forall k :: 0 <= k && Bn(k) < MAXFILE ==>
               FileByte(u, x, k) == FileByte(fs, x, k) && Mapped(u, x, k) == Mapped(fs, x, k)
    ensures Keeps(u, x, c)
  {
    hide FileByte, Mapped;
    assert Contents(u, x) == Contents(fs, x);
  }

  lemma {:induction false} SameBlock(fs: Fs, i: nat, j: nat, k: nat)
    requires i < |fs.inodes| && Bn(j) == Bn(k) < MAXFILE && Mapped(fs, i, j)
    ensures Mapped(fs, i, k)
  {
  }

  lemma {:induction false} HoldsEmpty(fs: Fs, root: seq<byte>, data: seq<seq<byte>>)
    requires Holds(fs, root, data)
    ensures |fs.inodes| == INODES && forall x :: |data| + 2 <= x < INODES ==> fs.inodes[x] == EmptyInode()
  {
  }

  lemma {:induction false} HoldsSize(fs: Fs, root: seq<byte>, data: seq<seq<byte>>)
    requires Holds(fs, root, data)
    ensures fs.inodes[ROOTINO].size == |root|
  {
  }

  lemma {:induction false} KeepsSize(fs: Fs, x: nat, c: seq<byte>)
    requires Keeps(fs, x, c)
    ensures fs.inodes[x].size == |c|
  {
  }

  lemma {:induction false} StartOwned(fs: Fs)
    requires |fs.inodes| == INODES && forall x :: 0 <= x < INODES ==> fs.inodes[x] == EmptyInode()
    requires |fs.blocks| == FSSIZE && forall b :: 0 <= b < FSSIZE ==> |fs.blocks[b]| == 1024
    requires fs.bits == Used(FSSIZE, 46)
    ensures Owned(LAYOUT, fs, seq(FSSIZE, _ => None))
  {
  }

  lemma {:induction false} SizeKept(lay: Layout, fs: Fs, i: nat, bn: nat, t: Fs, a: nat)
    requires Shape(lay, fs) && i < |fs.inodes| && bn < MAXFILE && (t, a) == Bmap(lay, fs, i, bn)
    ensures t.inodes[i].size == fs.inodes[i].size
  {
  }

  lemma {:induction false} ResizedOwned(fs: Fs, own: seq<Option<Slot>>, i: nat, size: nat)
    requires Owned(LAYOUT, fs, own) && i < |fs.inodes|
    ensures Owned(LAYOUT, Resized(fs, i, size), own)
  {
    ResizedSame(LAYOUT, fs, own, i, size, Resized(fs, i, size));
  }
}
