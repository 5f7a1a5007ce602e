/** readi() and writei() of kernel/fs.c against files as byte sequences. */
module FileBytes {
  import opened Options
  import opened Bytes
  import opened FileBlocks

  const MAXFILE: nat := 268 // NDIRECT + NINDIRECT

  function Bn(k: nat): nat {
    k / 1024
  }

  function At(k: nat): nat {
    k % 1024
  }

  function Min(a: nat, b: nat): nat {
    if a < b then a else b
  }

  // Byte k of inode i; bytes of blocks the inode does not hold count as 0.
  ghost function FileByte(fs: Fs, i: nat, k: nat): (r: byte)
    requires i < |fs.inodes| && Bn(k) < MAXFILE
  {
    var a := Addr(fs, SlotOf(i, Bn(k)));
    if a == 0 || |fs.blocks| <= a || |fs.blocks[a]| <= At(k) then 0 else fs.blocks[a][At(k)]
  }

  ghost predicate Mapped(fs: Fs, i: nat, k: nat)
    requires i < |fs.inodes| && Bn(k) < MAXFILE
  {
    Addr(fs, SlotOf(i, Bn(k))) != 0
  }

  // No holes below size, and size within the largest file.
  ghost predicate Solid(fs: Fs, i: nat)
    requires i < |fs.inodes|
  {
    && fs.inodes[i].size <= MAXFILE * 1024
    && forall k :: 0 <= k < fs.inodes[i].size ==> Mapped(fs, i, k)
  }

  ghost function Contents(fs: Fs, i: nat): (r: seq<byte>)
    requires i < |fs.inodes| && fs.inodes[i].size <= MAXFILE * 1024
    ensures |r| == fs.inodes[i].size
    ensures forall k :: 0 <= k < |r| ==> r[k] == FileByte(fs, i, k)
  {
    seq(fs.inodes[i].size, k requires 0 <= k < fs.inodes[i].size => FileByte(fs, i, k))
  }

  // bp->data[at..at + |src|] = src
  ghost function PutBytes(fs: Fs, a: nat, at: nat, src: seq<byte>): (t: Fs)
    requires a < |fs.blocks| && at + |src| <= |fs.blocks[a]|
  {
    fs.(blocks := fs.blocks[a := fs.blocks[a][..at] + src + fs.blocks[a][at + |src|..]])
  }

  // One block's share of a write of src at off.
  function Chunk(off: nat, n: nat): (m: nat)
    ensures 0 < n ==> 0 < m
    ensures m <= n && At(off) + m <= 1024
  {
    Min(n, 1024 - At(off))
  }

  // writei()'s loop: the image and the number of bytes written.
  ghost function WriteFrom(lay: Layout, fs: Fs, i: nat, off: nat, src: seq<byte>): (r: (Fs, nat))
    requires Shape(lay, fs) && i < |fs.inodes| && off + |src| <= MAXFILE * 1024
    ensures Shape(lay, r.0) && |r.0.inodes| == |fs.inodes| && |r.0.bits| == |fs.bits| && r.1 <= |src|
    decreases |src|
  {
    if src == [] then (fs, 0)
    else
      var (t, a) := Bmap(lay, fs, i, Bn(off));
      if a == 0 || |t.blocks| <= a then (t, 0)
      else
        var m := Chunk(off, |src|);
        var (u, w) := WriteFrom(lay, PutBytes(t, a, At(off), src[..m]), i, off + m, src[m..]);
        (u, m + w)
  }

  lemma {:induction false} BmapKeepsByte(
      lay: Layout, fs: Fs, own: seq<Option<Slot>>, t: Fs, own': seq<Option<Slot>>, i: nat, bn: nat, a: nat, x: nat,
      k: nat)
    requires Owned(lay, fs, own) && i < |fs.inodes| && bn < MAXFILE && Maps(lay, fs, own, t, own', i, SlotOf(i, bn), a)
    requires x < |fs.inodes| && Bn(k) < MAXFILE
    ensures FileByte(t, x, k) == FileByte(fs, x, k)
    ensures Mapped(fs, x, k) ==> Mapped(t, x, k)
    ensures x != i ==> (Mapped(fs, x, k) <==> Mapped(t, x, k))
  {
    var s := SlotOf(x, Bn(k));
    assert InRange(fs, s) && s != Direct(i, NDIRECT);
    if Addr(fs, s) != 0 {
      assert Addr(t, s) == Addr(fs, s);
      assert own[Addr(fs, s)] == Some(s);
    } else if s == SlotOf(i, bn) {
      if a != 0 {
        assert t.blocks[a] == Zeros();
      }
    } else {
      assert Addr(t, s) == Addr(fs, s);
    }
  }

  // Writing inside a held data block moves no block and changes only that inode's bytes.
  lemma {:induction false} PutKeepsAddr(
      lay: Layout, fs: Fs, own: seq<Option<Slot>>, i: nat, bn: nat, at: nat, src: seq<byte>, q: Slot)
    requires Owned(lay, fs, own) && i < |fs.inodes| && bn < MAXFILE && at + |src| <= 1024
    requires var a := Addr(fs, SlotOf(i, bn)); 0 < a < |fs.blocks|
    requires InRange(fs, q)
    ensures var t := PutBytes(fs, Addr(fs, SlotOf(i, bn)), at, src); InRange(t, q) && Addr(t, q) == Addr(fs, q)
  {
    var s := SlotOf(i, bn);
    var a := Addr(fs, s);
    assert own[a] == Some(s);
    if q.Entry? {
      assert Addr(fs, Direct(q.i, NDIRECT)) == fs.inodes[q.i].addrs[NDIRECT];
    }
  }

  lemma {:induction false} PutOwned(
      lay: Layout, fs: Fs, own: seq<Option<Slot>>, i: nat, bn: nat, at: nat, src: seq<byte>, t: Fs)
    requires Owned(lay, fs, own) && i < |fs.inodes| && bn < MAXFILE && at + |src| <= 1024
    requires var a := Addr(fs, SlotOf(i, bn)); 0 < a < |fs.blocks| && t == PutBytes(fs, a, at, src)
    ensures Owned(lay, t, own)
    ensures forall q {:trigger Addr(t, q)} :: InRange(fs, q) ==> Addr(t, q) == Addr(fs, q)
  {
    forall q | InRange(fs, q)
      ensures Addr(t, q) == Addr(fs, q)
    {
      PutKeepsAddr(lay, fs, own, i, bn, at, src, q);
    }
    assert forall q :: InRange(t, q) <==> InRange(fs, q);
  }

  lemma {:induction false} PutByte(
      lay: Layout, fs: Fs, own: seq<Option<Slot>>, i: nat, off: nat, src: seq<byte>, t: Fs, x: nat, k: nat)
    requires Owned(lay, fs, own) && i < |fs.inodes| && Bn(off) < MAXFILE && At(off) + |src| <= 1024
    requires var a := Addr(fs, SlotOf(i, Bn(off))); 0 < a < |fs.blocks| && t == PutBytes(fs, a, At(off), src)
    requires x < |fs.inodes| && Bn(k) < MAXFILE
    ensures FileByte(t, x, k) == if x == i && off <= k < off + |src| then src[k - off] else FileByte(fs, x, k)
    ensures Mapped(t, x, k) == Mapped(fs, x, k)
  {
    var s, q := SlotOf(i, Bn(off)), SlotOf(x, Bn(k));
    PutKeepsAddr(lay, fs, own, i, Bn(off), At(off), src, q);
    assert Addr(fs, s) == Addr(fs, q) ==> s == q by {
      assert own[Addr(fs, s)] == Some(s);
    }
    assert s == q <==> x == i && Bn(off) == Bn(k);
  }

  // Byte k of inode x after src[..w] went to [off, off + w) of inode i.
  ghost predicate WroteAt(fs: Fs, t: Fs, i: nat, off: nat, src: seq<byte>, w: nat, x: nat, k: nat)
    requires x < |fs.inodes| == |t.inodes| && Bn(k) < MAXFILE && w <= |src|
  {
    && FileByte(t, x, k) == (if x == i && off <= k < off + w then src[k - off] else FileByte(fs, x, k))
    && (Mapped(fs, x, k) ==> Mapped(t, x, k))
    && (x != i ==> (Mapped(fs, x, k) <==> Mapped(t, x, k)))
    && (x == i && off <= k < off + w ==> Mapped(t, x, k))
  }

  ghost predicate Wrote(fs: Fs, t: Fs, i: nat, off: nat, src: seq<byte>, w: nat) {
    && |t.inodes| == |fs.inodes| && w <= |src|
    && (forall x :: 0 <= x < |fs.inodes| ==> t.inodes[x].size == fs.inodes[x].size)
    && (forall x, k :: 0 <= x < |fs.inodes| && 0 <= k && Bn(k) < MAXFILE ==> WroteAt(fs, t, i, off, src, w, x, k))
    && (w < |src| ==> FirstFree(t.bits, 0) == |t.bits|)
  }

  // One turn of the loop followed by the rest, at one byte.
  lemma {:induction false} TurnThenRest(
      lay: Layout, fs: Fs, own: seq<Option<Slot>>, t: Fs, own1: seq<Option<Slot>>, p: Fs, u: Fs,
      i: nat, off: nat, src: seq<byte>, a: nat, m: nat, w: nat, x: nat, k: nat)
    requires Owned(lay, fs, own) && i < |fs.inodes| && Bn(off) < MAXFILE
    requires Maps(lay, fs, own, t, own1, i, SlotOf(i, Bn(off)), a) && a != 0
    requires m + w <= |src| && At(off) + m <= 1024 && p == PutBytes(t, a, At(off), src[..m])
    requires x < |fs.inodes| == |u.inodes| && Bn(k) < MAXFILE
    requires |p.inodes| == |fs.inodes| && WroteAt(p, u, i, off + m, src[m..], w, x, k)
    ensures WroteAt(fs, u, i, off, src, m + w, x, k)
  {
    BmapKeepsByte(lay, fs, own, t, own1, i, Bn(off), a, x, k);
    PutByte(lay, t, own1, i, off, src[..m], p, x, k);
    if x == i && off <= k < off + m {
      assert Bn(k) == Bn(off);
    }
  }

  lemma {:induction false} StopsShort(
      lay: Layout, fs: Fs, own: seq<Option<Slot>>, t: Fs, own1: seq<Option<Slot>>, i: nat, off: nat, src: seq<byte>)
    requires Owned(lay, fs, own) && i < |fs.inodes| && Bn(off) < MAXFILE
    requires Maps(lay, fs, own, t, own1, i, SlotOf(i, Bn(off)), 0)
    ensures Wrote(fs, t, i, off, src, 0)
  {
    forall x, k | 0 <= x < |fs.inodes| && 0 <= k && Bn(k) < MAXFILE
      ensures WroteAt(fs, t, i, off, src, 0, x, k)
    {
      BmapKeepsByte(lay, fs, own, t, own1, i, Bn(off), 0, x, k);
    }
  }

  lemma {:induction false} TurnWrote(
      lay: Layout, fs: Fs, own: seq<Option<Slot>>, t: Fs, own1: seq<Option<Slot>>, p: Fs, u: Fs,
      i: nat, off: nat, src: seq<byte>, a: nat, m: nat, rest: nat, w: nat)
    requires Owned(lay, fs, own) && i < |fs.inodes| && Bn(off) < MAXFILE
    requires Maps(lay, fs, own, t, own1, i, SlotOf(i, Bn(off)), a) && a != 0
    requires w == m + rest <= |src| && At(off) + m <= 1024 && p == PutBytes(t, a, At(off), src[..m])
    requires Wrote(p, u, i, off + m, src[m..], rest)
    ensures Wrote(fs, u, i, off, src, w)
  {
    forall x, k | 0 <= x < |fs.inodes| && 0 <= k && Bn(k) < MAXFILE
      ensures WroteAt(fs, u, i, off, src, w, x, k)
    {
      TurnThenRest(lay, fs, own, t, own1, p, u, i, off, src, a, m, rest, x, k);
    }
  }

  lemma {:induction false} WriteUnfolds(
      lay: Layout, fs: Fs, i: nat, off: nat, src: seq<byte>, t: Fs, a: nat, m: nat, p: Fs) returns (rest: nat)
    requires Shape(lay, fs) && i < |fs.inodes| && 0 < |src| && off + |src| <= MAXFILE * 1024
    requires (t, a) == Bmap(lay, fs, i, Bn(off)) && 0 < a < |t.blocks|
    requires m == Chunk(off, |src|) && p == PutBytes(t, a, At(off), src[..m])
    ensures Shape(lay, p) && |p.inodes| == |fs.inodes| && rest <= |src| - m
    ensures WriteFrom(lay, fs, i, off, src) == (WriteFrom(lay, p, i, off + m, src[m..]).0, m + rest)
    ensures rest == WriteFrom(lay, p, i, off + m, src[m..]).1
  {
    hide Bmap;
    rest := WriteFrom(lay, p, i, off + m, src[m..]).1;
  }

  /** The loop of writei(): ownership is kept, src[..w] lands exactly on [off, off + w) of inode i, every other
      byte of every inode is unchanged, and it stops short only when no block is free. */
  lemma {:induction false} WriteFromWrites(
      lay: Layout, fs: Fs, own: seq<Option<Slot>>, i: nat, off: nat, src: seq<byte>, u: Fs, w: nat)
    returns (own': seq<Option<Slot>>)
    requires Owned(lay, fs, own) && i < |fs.inodes| && off + |src| <= MAXFILE * 1024
    requires (u, w) == WriteFrom(lay, fs, i, off, src)
    ensures Owned(lay, u, own') && Wrote(fs, u, i, off, src, w)
    decreases |src|
  {
    hide Bmap;
    own' := own;
    if src != [] {
      var (t, a) := Bmap(lay, fs, i, Bn(off));
      own' := BmapOwned(lay, fs, own, i, Bn(off), t, a, SlotOf(i, Bn(off)));
      var own1 := own';
      if a == 0 {
        StopsShort(lay, fs, own, t, own1, i, off, src);
      } else {
        var m := Chunk(off, |src|);
        var p := PutBytes(t, a, At(off), src[..m]);
        PutOwned(lay, t, own1, i, Bn(off), At(off), src[..m], p);
        var rest := WriteUnfolds(lay, fs, i, off, src, t, a, m, p);
        own' := WriteFromWrites(lay, p, own1, i, off + m, src[m..], u, rest);
        TurnWrote(lay, fs, own, t, own1, p, u, i, off, src, a, m, rest, w);
      }
    }
  }

  // c with d written at off, growing if d ends beyond it.
  function Overwrite(c: seq<byte>, off: nat, d: seq<byte>): (r: seq<byte>)
    requires off <= |c|
  {
    c[..off] + d + if off + |d| < |c| then c[off + |d|..] else []
  }

  ghost function Resized(fs: Fs, i: nat, size: nat): (t: Fs)
    requires i < |fs.inodes|
    ensures |t.inodes| == |fs.inodes|
  {
    fs.(inodes := fs.inodes[i := fs.inodes[i].(size := size)])
  }

  // writei(): -1, or the number of bytes written.
  ghost function Writei(lay: Layout, fs: Fs, i: nat, off: nat, src: seq<byte>): (r: (Fs, int))
    requires Shape(lay, fs) && i < |fs.inodes| && off < 0x1_0000_0000 && |src| < 0x1_0000_0000
    ensures Shape(lay, r.0) && |r.0.inodes| == |fs.inodes| && |r.0.bits| == |fs.bits|
  {
    if fs.inodes[i].size < off || 0x1_0000_0000 <= off + |src| || MAXFILE * 1024 < off + |src| then (fs, -1)
    else
      var (t, w) := WriteFrom(lay, fs, i, off, src);
      (Resized(t, i, if t.inodes[i].size < off + w then off + w else t.inodes[i].size), w as int)
  }

  // The size of an inode plays no part in what its blocks hold.
  lemma {:induction false} ResizedSame(lay: Layout, fs: Fs, own: seq<Option<Slot>>, i: nat, size: nat, t: Fs)
    requires Owned(lay, fs, own) && i < |fs.inodes| && t == Resized(fs, i, size)
    ensures Owned(lay, t, own)
    ensures forall x, k :: 0 <= x < |fs.inodes| && 0 <= k && Bn(k) < MAXFILE ==>
              FileByte(t, x, k) == FileByte(fs, x, k) && Mapped(t, x, k) == Mapped(fs, x, k)
  {
    forall s | InRange(fs, s)
      ensures InRange(t, s) && Addr(t, s) == Addr(fs, s)
    {
    }
    assert forall s :: InRange(t, s) <==> InRange(fs, s);
  }

  // An inode whose bytes and size are untouched keeps its contents.
  lemma {:induction false} OtherUntouched(fs: Fs, t: Fs, u: Fs, i: nat, off: nat, src: seq<byte>, w: nat, x: nat)
    requires Wrote(fs, t, i, off, src, w) && x < |fs.inodes| == |u.inodes| && x != i
    requires u.inodes[x].size == fs.inodes[x].size <= MAXFILE * 1024
    requires forall k :: 0 <= k && Bn(k) < MAXFILE ==>
               FileByte(u, x, k) == FileByte(t, x, k) && Mapped(u, x, k) == Mapped(t, x, k)
    ensures Contents(u, x) == Contents(fs, x) && Solid(u, x) == Solid(fs, x)
  {
    hide FileByte, Mapped;
    forall k | 0 <= k < fs.inodes[x].size
      ensures FileByte(u, x, k) == FileByte(fs, x, k) && Mapped(u, x, k) == Mapped(fs, x, k)
    {
      assert WroteAt(fs, t, i, off, src, w, x, k);
    }
  }

  lemma {:induction false} WrittenContents(fs: Fs, t: Fs, u: Fs, i: nat, off: nat, src: seq<byte>, w: nat)
    requires Wrote(fs, t, i, off, src, w) && i < |fs.inodes| == |u.inodes|
    requires off <= fs.inodes[i].size <= MAXFILE * 1024 && off + w <= MAXFILE * 1024
    requires u.inodes[i].size == if fs.inodes[i].size < off + w then off + w else fs.inodes[i].size
    requires forall k :: 0 <= k && Bn(k) < MAXFILE ==>
               FileByte(u, i, k) == FileByte(t, i, k) && Mapped(u, i, k) == Mapped(t, i, k)
    ensures (Solid(fs, i) ==> Solid(u, i)) && Contents(u, i) == Overwrite(Contents(fs, i), off, src[..w])
  {
    hide FileByte, Mapped;
    var want := Overwrite(Contents(fs, i), off, src[..w]);
    forall k | 0 <= k < u.inodes[i].size
      ensures (Solid(fs, i) ==> Mapped(u, i, k)) && FileByte(u, i, k) == want[k]
    {
      assert WroteAt(fs, t, i, off, src, w, i, k);
    }
    assert Contents(u, i) == want;
  }

  /** writei(): it refuses exactly what it must and then changes nothing; otherwise the bytes it reports replace
      exactly [off, off + r) of the file, which grows as needed and gets no holes, also when the disk fills up
      part way; every other file, and who owns which block of it, is as before. */
  lemma {:induction false} WriteiRefines(
      lay: Layout, fs: Fs, own: seq<Option<Slot>>, i: nat, off: nat, src: seq<byte>, u: Fs, r: int)
    returns (own': seq<Option<Slot>>)
    requires Owned(lay, fs, own) && i < |fs.inodes| && off < 0x1_0000_0000 && |src| < 0x1_0000_0000
    requires fs.inodes[i].size <= MAXFILE * 1024 && (u, r) == Writei(lay, fs, i, off, src)
    ensures r == -1 <==> fs.inodes[i].size < off || MAXFILE * 1024 < off + |src|
    ensures r == -1 ==> u == fs
    ensures Owned(lay, u, own') && (Solid(fs, i) ==> Solid(u, i)) && -1 <= r <= |src|
    ensures u.inodes[i].size <= MAXFILE * 1024
    ensures r != -1 ==> Contents(u, i) == Overwrite(Contents(fs, i), off, src[..r])
    ensures 0 <= r < |src| ==> FirstFree(u.bits, 0) == |u.bits|
    ensures forall x :: 0 <= x < |fs.inodes| && x != i ==> u.inodes[x].size == fs.inodes[x].size
    ensures forall x :: 0 <= x < |fs.inodes| && x != i && fs.inodes[x].size <= MAXFILE * 1024 ==>
              Contents(u, x) == Contents(fs, x) && Solid(u, x) == Solid(fs, x)
  {
    own' := own;
    if r != -1 {
      hide WriteFrom, FileByte, Mapped, Owned, Wrote, Solid;
      var (t, w) := WriteFrom(lay, fs, i, off, src);
      own' := WriteFromWrites(lay, fs, own, i, off, src, t, w);
      WroteSizes(fs, t, i, off, src, w);
      ResizedSame(lay, t, own', i, u.inodes[i].size, u);
      WrittenContents(fs, t, u, i, off, src, w);
      forall x | 0 <= x < |fs.inodes| && x != i && fs.inodes[x].size <= MAXFILE * 1024
        ensures Contents(u, x) == Contents(fs, x) && Solid(u, x) == Solid(fs, x)
      {
        OtherUntouched(fs, t, u, i, off, src, w, x);
      }
    }
  }

  lemma {:induction false} WroteSizes(fs: Fs, t: Fs, i: nat, off: nat, src: seq<byte>, w: nat)
    requires Wrote(fs, t, i, off, src, w)
    ensures |t.inodes| == |fs.inodes| && forall x :: 0 <= x < |fs.inodes| ==> t.inodes[x].size == fs.inodes[x].size
    ensures w < |src| ==> FirstFree(t.bits, 0) == |t.bits|
  {
  }

  // readi()'s loop: the image (bmap() may allocate) and the bytes copied out.
  ghost function ReadFrom(lay: Layout, fs: Fs, i: nat, off: nat, n: nat): (r: (Fs, seq<byte>))
    requires Shape(lay, fs) && i < |fs.inodes| && off + n <= MAXFILE * 1024
    ensures Shape(lay, r.0) && |r.0.inodes| == |fs.inodes| && |r.0.bits| == |fs.bits|
    decreases n
  {
    if n == 0 then (fs, [])
    else
      var (t, a) := Bmap(lay, fs, i, Bn(off));
      if a == 0 || |t.blocks| <= a then (t, [])
      else
        var m := Chunk(off, n);
        var (u, d) := ReadFrom(lay, t, i, off + m, n - m);
        (u, t.blocks[a][At(off)..At(off) + m] + d)
  }

  ghost function Readi(lay: Layout, fs: Fs, i: nat, off: nat, n: nat): (r: (Fs, seq<byte>))
    requires Shape(lay, fs) && i < |fs.inodes| && off < 0x1_0000_0000 && n < 0x1_0000_0000
    requires fs.inodes[i].size <= MAXFILE * 1024
  {
    var size := fs.inodes[i].size;
    if size < off || 0x1_0000_0000 <= off + n then (fs, [])
    else ReadFrom(lay, fs, i, off, if size < off + n then size - off else n)
  }

  // bmap() of a block that is there changes nothing.
  lemma {:induction false} BmapOfMapped(lay: Layout, fs: Fs, own: seq<Option<Slot>>, i: nat, bn: nat)
    requires Owned(lay, fs, own) && i < |fs.inodes| && bn < MAXFILE && Addr(fs, SlotOf(i, bn)) != 0
    ensures Bmap(lay, fs, i, bn) == (fs, Addr(fs, SlotOf(i, bn)))
    ensures 0 < Addr(fs, SlotOf(i, bn)) < |fs.blocks|
  {
    assert Addr(fs, Direct(i, NDIRECT)) == fs.inodes[i].addrs[NDIRECT];
  }

  lemma {:induction false} ChunkBytes(lay: Layout, fs: Fs, own: seq<Option<Slot>>, i: nat, off: nat, m: nat)
    requires Owned(lay, fs, own) && i < |fs.inodes| && Solid(fs, i) && off + m <= fs.inodes[i].size
    requires At(off) + m <= 1024 && 0 < m
    requires 0 < Addr(fs, SlotOf(i, Bn(off))) < |fs.blocks|
    ensures fs.blocks[Addr(fs, SlotOf(i, Bn(off)))][At(off)..At(off) + m] == Contents(fs, i)[off..off + m]
  {
    hide Addr, Contents;
    var a := Addr(fs, SlotOf(i, Bn(off)));
    assert |fs.blocks[a]| == 1024;
    var d, e := fs.blocks[a][At(off)..At(off) + m], Contents(fs, i)[off..off + m];
    forall k | 0 <= k < m
      ensures d[k] == e[k]
    {
      assert Bn(off + k) == Bn(off) && At(off + k) == At(off) + k;
      assert Contents(fs, i)[off + k] == FileByte(fs, i, off + k);
    }
  }

  lemma {:induction false} ReadFromReads(lay: Layout, fs: Fs, own: seq<Option<Slot>>, i: nat, off: nat, n: nat)
    requires Owned(lay, fs, own) && i < |fs.inodes| && Solid(fs, i) && off + n <= fs.inodes[i].size
    ensures ReadFrom(lay, fs, i, off, n) == (fs, Contents(fs, i)[off..off + n])
    decreases n
  {
    hide Bmap, Addr, Contents, Owned, Solid, SlotOf;
    OwnedShape(lay, fs, own);
    SolidSize(fs, i);
    if n == 0 {
      assert Contents(fs, i)[off..off] == [];
    } else {
      var m := Chunk(off, n);
      SolidAt(fs, i, off);
      BmapOfMapped(lay, fs, own, i, Bn(off));
      ChunkBytes(lay, fs, own, i, off, m);
      ReadFromReads(lay, fs, own, i, off + m, n - m);
      var c := Contents(fs, i);
      assert c[off..off + m] + c[off + m..off + n] == c[off..off + n];
    }
  }

  /** readi() of a file without holes returns the matching slice of its contents and allocates nothing. */
  lemma {:induction false} ReadiRefines(lay: Layout, fs: Fs, own: seq<Option<Slot>>, i: nat, off: nat, n: nat)
    requires Owned(lay, fs, own) && i < |fs.inodes| && off < 0x1_0000_0000 && n < 0x1_0000_0000 && Solid(fs, i)
    ensures Readi(lay, fs, i, off, n) ==
            (fs, if fs.inodes[i].size < off || 0x1_0000_0000 <= off + n then []
                 else Contents(fs, i)[off..Min(off + n, fs.inodes[i].size)])
  {
    hide Owned, ReadFrom, Contents, Solid;
    SolidSize(fs, i);
    var size := fs.inodes[i].size;
    if off <= size && off + n < 0x1_0000_0000 {
      ReadFromReads(lay, fs, own, i, off, if size < off + n then size - off else n);
    }
  }

  /** What was written reads back. */
  lemma {:induction false} WriteThenRead(
      lay: Layout, fs: Fs, own: seq<Option<Slot>>, i: nat, off: nat, src: seq<byte>, u: Fs, r: int)
    requires Owned(lay, fs, own) && i < |fs.inodes| && off < 0x1_0000_0000 && |src| < 0x1_0000_0000 && Solid(fs, i)
    requires (u, r) == Writei(lay, fs, i, off, src) && r != -1
    ensures u.inodes[i].size <= MAXFILE * 1024 && Readi(lay, u, i, off, r) == (u, src[..r])
  {
    hide Writei, Owned, Solid, Readi;
    SolidSize(fs, i);
    var own' := WriteiRefines(lay, fs, own, i, off, src, u, r);
    SolidSize(u, i);
    ReadiRefines(lay, u, own', i, off, r);
  }

  lemma {:induction false} SolidSize(fs: Fs, i: nat)
    requires i < |fs.inodes| && Solid(fs, i)
    ensures fs.inodes[i].size <= MAXFILE * 1024 && |Contents(fs, i)| == fs.inodes[i].size
  {
  }

  lemma {:induction false} SolidAt(fs: Fs, i: nat, k: nat)
    requires i < |fs.inodes| && Solid(fs, i) && k < fs.inodes[i].size
    ensures InRange(fs, SlotOf(i, Bn(k))) && Addr(fs, SlotOf(i, Bn(k))) != 0
  {
    assert Mapped(fs, i, k);
  }

  lemma {:induction false} OwnedShape(lay: Layout, fs: Fs, own: seq<Option<Slot>>)
    requires Owned(lay, fs, own)
    ensures Shape(lay, fs)
  {
  }

  /** An empty inode has empty contents and no holes; so itrunc() establishes what writei() keeps. */
  lemma {:induction false} TruncatedEmpty(lay: Layout, fs: Fs, own: seq<Option<Slot>>, i: nat)
    requires Owned(lay, fs, own) && i < |fs.inodes|
    ensures Solid(Truncated(fs, own, i), i) && Contents(Truncated(fs, own, i), i) == []
    ensures forall x :: 0 <= x < |fs.inodes| && x != i && fs.inodes[x].size <= MAXFILE * 1024 ==>
              Contents(Truncated(fs, own, i), x) == Contents(fs, x) && Solid(Truncated(fs, own, i), x) == Solid(fs, x)
  {
    var t := Truncated(fs, own, i);
    forall x | 0 <= x < |fs.inodes| && x != i && fs.inodes[x].size <= MAXFILE * 1024
      ensures Contents(t, x) == Contents(fs, x) && Solid(t, x) == Solid(fs, x)
    {
      forall k | 0 <= k < fs.inodes[x].size
        ensures FileByte(t, x, k) == FileByte(fs, x, k) && Mapped(t, x, k) == Mapped(fs, x, k)
      {
        assert InRange(fs, SlotOf(x, Bn(k)));
      }
      assert Contents(t, x) == Contents(fs, x);
    }
  }
}
