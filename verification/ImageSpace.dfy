/** How many blocks a file takes when blocks are handed out in order, as mkfs/mkfs.c does. */
module ImageSpace {
  import opened Options
  import opened Bytes
  import opened FileBlocks
  import opened FileBytes
  import opened FileSystem

  // A disk whose first freeblock blocks are taken.
  function Used(n: nat, freeblock: nat): (r: seq<bool>)
    ensures |r| == n && forall b :: 0 <= b < n ==> (r[b] <==> b < freeblock)
  {
    seq(n, b => b < freeblock)
  }

  // freeblock++ is the choice balloc() would make.
  lemma {:induction false} FirstUnused(n: nat, freeblock: nat)
    ensures FirstFree(Used(n, freeblock), 0) == if freeblock < n then freeblock else n
    ensures freeblock < n ==> Used(n, freeblock)[freeblock := true] == Used(n, freeblock + 1)
  {
    if freeblock < n {
      FirstFreeFrom(Used(n, freeblock), freeblock);
    } else {
      FirstFreeFrom(Used(n, freeblock), n);
    }
  }

  function Ceil(size: nat): (c: nat) {
    (size + 1023) / 1024
  }

  // c data blocks, with the indirect block if there are more than the inode itself can point to.
  function WithIndirect(c: nat): (n: nat) {
    if NDIRECT < c then c + 1 else c
  }

  function BlocksFor(size: nat): (n: nat) {
    WithIndirect(Ceil(size))
  }

  lemma {:induction false} BlocksGrow(a: nat, b: nat)
    requires a <= b
    ensures Ceil(a) <= Ceil(b) && BlocksFor(a) <= BlocksFor(b)
  {
  }

  // Inode i has exactly its first c data blocks, and its indirect block only if it needs it.
  ghost predicate Exactly(fs: Fs, i: nat, c: nat) {
    && i < |fs.inodes| && c <= MAXFILE
    && (forall bn {:trigger SlotOf(i, bn)} :: 0 <= bn < MAXFILE ==> (Addr(fs, SlotOf(i, bn)) != 0 <==> bn < c))
    && (Addr(fs, Direct(i, NDIRECT)) != 0 <==> NDIRECT < c)
  }

  lemma {:induction false} EmptyExactly(fs: Fs, i: nat)
    requires i < |fs.inodes| && |fs.inodes[i].addrs| == NDIRECT + 1
    requires forall k :: 0 <= k <= NDIRECT ==> fs.inodes[i].addrs[k] == 0
    ensures Exactly(fs, i, 0)
  {
  }

  // A file of direct blocks only stays as it is when its record does.
  lemma {:induction false} RecordExactly(fs: Fs, u: Fs, i: nat, c: nat)
    requires Exactly(fs, i, c) && c <= NDIRECT && i < |u.inodes| && u.inodes[i] == fs.inodes[i]
    requires |fs.inodes[i].addrs| == NDIRECT + 1
    ensures Exactly(u, i, c)
  {
    assert u.inodes[i].addrs[NDIRECT] == 0;
    forall bn | 0 <= bn < MAXFILE
      ensures Addr(u, SlotOf(i, bn)) == Addr(fs, SlotOf(i, bn))
    {
    }
  }

  lemma {:induction false} DirectBits(lay: Layout, fs: Fs, i: nat, k: nat, fb: nat, t: Fs, a: nat)
    requires Shape(lay, fs) && i < |fs.inodes| && k <= NDIRECT && fb <= |fs.bits| && fs.bits == Used(|fs.bits|, fb)
    requires fs.inodes[i].addrs[k] == 0 && (t, a) == MapDirect(lay, fs, i, k) && 0 < fb
    ensures a != 0 <==> fb < |fs.bits|
    ensures a != 0 ==> a == fb && t.bits == Used(|fs.bits|, fb + 1) && t == GiveDirect(fs, i, k, a)
    ensures a == 0 ==> t == fs
  {
    FirstUnused(|fs.bits|, fb);
  }

  lemma {:induction false} EntryBits(lay: Layout, fs: Fs, i: nat, j: nat, fb: nat, t: Fs, a: nat)
    requires Shape(lay, fs) && i < |fs.inodes| && j < NINDIRECT && fb <= |fs.bits| && fs.bits == Used(|fs.bits|, fb)
    requires 0 < fs.inodes[i].addrs[NDIRECT] < |fs.blocks| && Addr(fs, Entry(i, j)) == 0
    requires (t, a) == MapEntry(lay, fs, i, j) && 0 < fb
    ensures a != 0 <==> fb < |fs.bits|
    ensures a != 0 ==> t.bits == Used(|fs.bits|, fb + 1)
  {
    FirstUnused(|fs.bits|, fb);
  }

  // The blocks bmap() takes for the next block of a file.
  lemma {:induction false} NextBits(lay: Layout, fs: Fs, own: seq<Option<Slot>>, i: nat, c: nat, fb: nat, t: Fs, a: nat)
    requires Owned(lay, fs, own) && Exactly(fs, i, c) && c < MAXFILE && (t, a) == Bmap(lay, fs, i, c)
    requires fb <= |fs.bits| && fs.bits == Used(|fs.bits|, fb)
    ensures a != 0 <==> fb + (WithIndirect(c + 1) - WithIndirect(c)) <= |fs.bits|
    ensures a != 0 ==> t.bits == Used(|fs.bits|, fb + (WithIndirect(c + 1) - WithIndirect(c)))
    ensures a != 0 && c < NDIRECT ==> Addr(t, Direct(i, NDIRECT)) == 0
  {
    assert 0 < fb by { assert fs.bits[0]; }
    assert Addr(fs, SlotOf(i, c)) == 0;
    if c < NDIRECT {
      DirectBits(lay, fs, i, c, fb, t, a);
    } else if c == NDIRECT {
      var (mid, ind) := MapDirect(lay, fs, i, NDIRECT);
      DirectBits(lay, fs, i, NDIRECT, fb, mid, ind);
      if ind != 0 {
        GiveDirectAddr(lay, fs, own, i, NDIRECT, ind, Entry(i, 0));
        EntryBits(lay, mid, i, 0, fb + 1, t, a);
      }
    } else {
      var ind := fs.inodes[i].addrs[NDIRECT];
      assert Addr(fs, Direct(i, NDIRECT)) == ind;
      EntryBits(lay, fs, i, c - NDIRECT, fb, t, a);
    }
  }

  lemma {:induction false} NextExactly(
      lay: Layout, fs: Fs, own: seq<Option<Slot>>, i: nat, c: nat, fb: nat, t: Fs, a: nat)
    returns (own1: seq<Option<Slot>>)
    requires Owned(lay, fs, own) && Exactly(fs, i, c) && c < MAXFILE && (t, a) == Bmap(lay, fs, i, c)
    requires fb <= |fs.bits| && fs.bits == Used(|fs.bits|, fb)
    ensures Owned(lay, t, own1) && (a != 0 <==> fb + (WithIndirect(c + 1) - WithIndirect(c)) <= |fs.bits|)
    ensures a != 0 ==> a == Addr(t, SlotOf(i, c)) < |t.blocks| && Exactly(t, i, c + 1)
    ensures a != 0 ==> t.bits == Used(|fs.bits|, fb + (WithIndirect(c + 1) - WithIndirect(c)))
  {
    hide Bmap, Owned;
    NextBits(lay, fs, own, i, c, fb, t, a);
    own1 := BmapOwned(lay, fs, own, i, c, t, a, SlotOf(i, c));
    if a != 0 {
      forall bn | 0 <= bn < MAXFILE
        ensures Addr(t, SlotOf(i, bn)) != 0 <==> bn < c + 1
      {
        assert bn != c ==> SlotOf(i, bn) != SlotOf(i, c) && SlotOf(i, bn) != Direct(i, NDIRECT);
      }
      if NDIRECT < c + 1 {
        IndirectThere(t, i, c);
      }
    }
  }

  lemma {:induction false} IndirectThere(fs: Fs, i: nat, bn: nat)
    requires i < |fs.inodes| && NDIRECT <= bn < MAXFILE && Addr(fs, SlotOf(i, bn)) != 0
    ensures Addr(fs, Direct(i, NDIRECT)) != 0
  {
  }

  // Storing bytes into a block moves none.
  lemma {:induction false} PutExactly(
      lay: Layout, fs: Fs, own: seq<Option<Slot>>, i: nat, bn: nat, at: nat, src: seq<byte>, t: Fs, c: nat)
    requires Owned(lay, fs, own) && Exactly(fs, i, c) && bn < MAXFILE && at + |src| <= 1024
    requires var a := Addr(fs, SlotOf(i, bn)); 0 < a < |fs.blocks| && t == PutBytes(fs, a, at, src)
    ensures Owned(lay, t, own) && Exactly(t, i, c) && t.bits == fs.bits
  {
    PutOwned(lay, fs, own, i, bn, at, src, t);
    hide Owned;
    forall bn | 0 <= bn < MAXFILE
      ensures Addr(t, SlotOf(i, bn)) == Addr(fs, SlotOf(i, bn))
    {
      assert InRange(fs, SlotOf(i, bn));
    }
    assert InRange(fs, Direct(i, NDIRECT)) && Addr(t, Direct(i, NDIRECT)) == Addr(fs, Direct(i, NDIRECT));
  }

  // bmap() at the end of a file, inside its last block or at the start of a new one.
  lemma {:induction false} TurnExactly(
      lay: Layout, fs: Fs, own: seq<Option<Slot>>, i: nat, off: nat, fb: nat, t: Fs, a: nat)
    returns (own1: seq<Option<Slot>>)
    requires Owned(lay, fs, own) && i < |fs.inodes| && Exactly(fs, i, Ceil(off)) && off < MAXFILE * 1024
    requires (t, a) == Bmap(lay, fs, i, Bn(off))
    requires fb <= |fs.bits| && fs.bits == Used(|fs.bits|, fb)
    ensures Owned(lay, t, own1) && (a != 0 <==> fb + (WithIndirect(Bn(off) + 1) - BlocksFor(off)) <= |fs.bits|)
    ensures a != 0 ==>
              a == Addr(t, SlotOf(i, Bn(off))) < |t.blocks| && |t.blocks[a]| == 1024 && Exactly(t, i, Bn(off) + 1)
    ensures a != 0 ==> t.bits == Used(|fs.bits|, fb + (WithIndirect(Bn(off) + 1) - BlocksFor(off)))
  {
    hide Bmap, Owned, Exactly;
    if At(off) == 0 {
      own1 := NextExactly(lay, fs, own, i, Bn(off), fb, t, a);
    } else {
      own1 := own;
      assert Ceil(off) == Bn(off) + 1;
      assert Addr(fs, SlotOf(i, Bn(off))) != 0 by { HasBlock(fs, i, Ceil(off), Bn(off)); }
      BmapOfMapped(lay, fs, own, i, Bn(off));
    }
    OwnedShape(lay, t, own1);
  }

  lemma {:induction false} HasBlock(fs: Fs, i: nat, c: nat, bn: nat)
    requires Exactly(fs, i, c) && bn < c
    ensures Addr(fs, SlotOf(i, bn)) != 0
  {
  }

  lemma {:induction false} ChunkEnd(off: nat, n: nat)
    requires 0 < n
    ensures var m := Chunk(off, n); 0 < m <= n && At(off) + m <= 1024 && Ceil(off + m) == Bn(off) + 1
    ensures Bn(off) * 1024 <= off
  {
    assert off == 1024 * Bn(off) + At(off);
  }

  /** writei()'s loop at the end of a file on such a disk: it falls short exactly when the blocks left are fewer than
      the file's growth needs, and otherwise takes just those. */
  lemma {:induction false} WriteExactly(
      lay: Layout, fs: Fs, own: seq<Option<Slot>>, i: nat, off: nat, src: seq<byte>, fb: nat)
    requires Owned(lay, fs, own) && Shape(lay, fs) && i < |fs.inodes| && Exactly(fs, i, Ceil(off))
    requires off + |src| <= MAXFILE * 1024
    requires fb <= |fs.bits| && fs.bits == Used(|fs.bits|, fb)
    ensures var more := BlocksFor(off + |src|) - BlocksFor(off);
            var (u, w) := WriteFrom(lay, fs, i, off, src);
            && (w == |src| <==> fb + more <= |fs.bits|)
            && (w == |src| ==> 0 <= more && u.bits == Used(|fs.bits|, fb + more) && Exactly(u, i, Ceil(off + |src|)))
    decreases |src|
  {
    hide Bmap, Owned, Exactly, WriteFrom, Shape;
    if src == [] {
      WriteNothing(lay, fs, i, off);
    } else {
      var (t, a) := Bmap(lay, fs, i, Bn(off));
      var own1 := TurnExactly(lay, fs, own, i, off, fb, t, a);
      ChunkEnd(off, |src|);
      var m := Chunk(off, |src|);
      BlocksGrow(off, off + m);
      BlocksGrow(off + m, off + |src|);
      if a == 0 {
        WriteStops(lay, fs, i, off, src, t);
      } else {
        var p := PutBytes(t, a, At(off), src[..m]);
        PutExactly(lay, t, own1, i, Bn(off), At(off), src[..m], p, Bn(off) + 1);
        var rest := WriteUnfolds(lay, fs, i, off, src, t, a, m, p);
        WriteExactly(lay, p, own1, i, off + m, src[m..], fb + (BlocksFor(off + m) - BlocksFor(off)));
      }
    }
  }
}
