/** Block ownership in kernel/fs.c: the free map, the block pointers of inodes and their indirect blocks. */
module FileBlocks {
  import opened Options
  import opened Bytes

  const NDIRECT: nat := 12
  const NINDIRECT: nat := 256 // BSIZE / sizeof(uint)

  // addrs[NDIRECT] is the indirect block.
  datatype Inode = Inode(addrs: seq<nat>, size: nat)

  datatype Fs = Fs(bits: seq<bool>, blocks: seq<seq<byte>>, inodes: seq<Inode>)

  // Blocks below nmeta are boot block, superblock, log, inodes and free map.
  datatype Layout = Layout(nmeta: nat, inodestart: nat, bmapstart: nat)

  // A place that can hold a block number: addrs[k] of inode i, or entry j of its indirect block.
  datatype Slot = Direct(i: nat, k: nat) | Entry(i: nat, j: nat)

  ghost predicate Shape(lay: Layout, fs: Fs) {
    && |fs.bits| == |fs.blocks| < 0x1_0000_0000
    && 1 <= lay.nmeta <= |fs.bits|
    && (forall b :: 0 <= b < |fs.blocks| ==> |fs.blocks[b]| == BSIZE)
    && (forall i :: 0 <= i < |fs.inodes| ==> |fs.inodes[i].addrs| == NDIRECT + 1)
  }

  ghost predicate InRange(fs: Fs, s: Slot) {
    match s
    case Direct(i, k) => i < |fs.inodes| && k <= NDIRECT
    case Entry(i, j) => i < |fs.inodes| && j < NINDIRECT
  }

  // The block a place holds, 0 for none.
  ghost function Addr(fs: Fs, s: Slot): (a: nat)
    requires InRange(fs, s)
  {
    if |fs.inodes[s.i].addrs| != NDIRECT + 1 then 0
    else
      match s
      case Direct(i, k) => fs.inodes[i].addrs[k]
      case Entry(i, j) =>
        var ind := fs.inodes[i].addrs[NDIRECT];
        if ind == 0 || |fs.blocks| <= ind || |fs.blocks[ind]| != BSIZE then 0 else Word(fs.blocks[ind], j)
  }

  /** Ownership: own is the inverse of Addr. A block's bit is set exactly when it is metadata or some place
      holds it; because own is a function, no two places hold the same block. */
  ghost predicate Owned(lay: Layout, fs: Fs, own: seq<Option<Slot>>) {
    && Shape(lay, fs) && |own| == |fs.bits|
    && (forall s {:trigger Addr(fs, s)} :: InRange(fs, s) && Addr(fs, s) != 0 ==>
          lay.nmeta <= Addr(fs, s) < |own| && own[Addr(fs, s)] == Some(s))
    && (forall b :: lay.nmeta <= b < |own| ==> (fs.bits[b] <==> own[b].Some?))
    && (forall b :: lay.nmeta <= b < |own| && own[b].Some? ==> InRange(fs, own[b].value) && Addr(fs, own[b].value) == b)
    && (forall b :: 0 <= b < lay.nmeta ==> fs.bits[b] && own[b].None?)
  }

  /** What Owned says without the inverse map. */
  lemma {:induction false} OwnedMeans(lay: Layout, fs: Fs, own: seq<Option<Slot>>)
    requires Owned(lay, fs, own)
    ensures forall s, t {:trigger Addr(fs, s), Addr(fs, t)} ::
              InRange(fs, s) && InRange(fs, t) && Addr(fs, s) == Addr(fs, t) != 0 ==> s == t
    ensures forall b :: 0 <= b < |fs.bits| ==>
              (fs.bits[b] <==> b < lay.nmeta || exists s {:trigger Addr(fs, s)} :: InRange(fs, s) && Addr(fs, s) == b)
    ensures forall s {:trigger Addr(fs, s)} :: InRange(fs, s) && Addr(fs, s) != 0 ==> lay.nmeta <= Addr(fs, s)
  {
  }

  // balloc() has marked and zeroed block r; addrs[k] of inode i takes it.
  ghost function GiveDirect(fs: Fs, i: nat, k: nat, r: nat): (t: Fs)
    requires i < |fs.inodes| && k < |fs.inodes[i].addrs| && r < |fs.bits| && r < |fs.blocks|
  {
    fs.(bits := fs.bits[r := true], blocks := fs.blocks[r := Zeros()],
        inodes := fs.inodes[i := fs.inodes[i].(addrs := fs.inodes[i].addrs[k := r])])
  }

  // balloc() has marked and zeroed block r; entry j of the indirect block of inode i takes it.
  ghost function GiveEntry(fs: Fs, i: nat, j: nat, r: nat): (t: Fs)
    requires i < |fs.inodes| && NDIRECT < |fs.inodes[i].addrs| && r < |fs.bits| && r < |fs.blocks|
    requires j < NINDIRECT && fs.inodes[i].addrs[NDIRECT] < |fs.blocks|
    requires |fs.blocks[fs.inodes[i].addrs[NDIRECT]]| == BSIZE
  {
    var ind := fs.inodes[i].addrs[NDIRECT];
    fs.(bits := fs.bits[r := true], blocks := fs.blocks[r := Zeros()][ind := PutWord(fs.blocks[ind], j, r)])
  }

  lemma {:induction false} GiveDirectAddr(lay: Layout, fs: Fs, own: seq<Option<Slot>>, i: nat, k: nat, r: nat, s: Slot)
    requires Owned(lay, fs, own) && i < |fs.inodes| && k <= NDIRECT && fs.inodes[i].addrs[k] == 0
    requires lay.nmeta <= r < |own| && !fs.bits[r]
    requires InRange(fs, s)
    ensures InRange(GiveDirect(fs, i, k, r), s)
    ensures Addr(GiveDirect(fs, i, k, r), s) == if s == Direct(i, k) then r else Addr(fs, s)
  {
    if s.Entry? {
      if s.i == i && k == NDIRECT {
        ZeroWord(s.j);
      } else {
        assert Addr(fs, Direct(s.i, NDIRECT)) == fs.inodes[s.i].addrs[NDIRECT];
      }
    }
  }

  lemma {:induction false} GiveDirectOwned(lay: Layout, fs: Fs, own: seq<Option<Slot>>, i: nat, k: nat, r: nat)
    requires Owned(lay, fs, own) && i < |fs.inodes| && k <= NDIRECT && fs.inodes[i].addrs[k] == 0
    requires lay.nmeta <= r < |own| && !fs.bits[r]
    ensures Owned(lay, GiveDirect(fs, i, k, r), own[r := Some(Direct(i, k))])
  {
    var t, own' := GiveDirect(fs, i, k, r), own[r := Some(Direct(i, k))];
    forall s | InRange(t, s)
      ensures Addr(t, s) == if s == Direct(i, k) then r else Addr(fs, s)
    {
      GiveDirectAddr(lay, fs, own, i, k, r, s);
    }
  }

  lemma {:induction false} GiveEntryAddr(lay: Layout, fs: Fs, own: seq<Option<Slot>>, i: nat, j: nat, r: nat, s: Slot)
    requires Owned(lay, fs, own) && i < |fs.inodes| && j < NINDIRECT && fs.inodes[i].addrs[NDIRECT] != 0
    requires Addr(fs, Direct(i, NDIRECT)) < |fs.blocks|
    requires Addr(fs, Entry(i, j)) == 0 && lay.nmeta <= r < |own| && !fs.bits[r]
    requires InRange(fs, s)
    ensures InRange(GiveEntry(fs, i, j, r), s)
    ensures Addr(GiveEntry(fs, i, j, r), s) == if s == Entry(i, j) then r else Addr(fs, s)
  {
    var ind := fs.inodes[i].addrs[NDIRECT];
    assert own[ind] == Some(Direct(i, NDIRECT)) by {
      assert Addr(fs, Direct(i, NDIRECT)) == ind;
    }
    if s.Entry? {
      if s.i == i {
        if s.j == j {
          PutWordGets(fs.blocks[ind], j, r);
        } else {
          PutWordKeeps(fs.blocks[ind], j, r, s.j);
        }
      } else {
        assert Addr(fs, Direct(s.i, NDIRECT)) == fs.inodes[s.i].addrs[NDIRECT];
      }
    }
  }

  lemma {:induction false} GiveEntryOwned(lay: Layout, fs: Fs, own: seq<Option<Slot>>, i: nat, j: nat, r: nat)
    requires Owned(lay, fs, own) && i < |fs.inodes| && j < NINDIRECT && fs.inodes[i].addrs[NDIRECT] != 0
    requires Addr(fs, Direct(i, NDIRECT)) < |fs.blocks|
    requires Addr(fs, Entry(i, j)) == 0 && lay.nmeta <= r < |own| && !fs.bits[r]
    ensures Owned(lay, GiveEntry(fs, i, j, r), own[r := Some(Entry(i, j))])
  {
    var t := GiveEntry(fs, i, j, r);
    forall s | InRange(t, s)
      ensures Addr(t, s) == if s == Entry(i, j) then r else Addr(fs, s)
    {
      GiveEntryAddr(lay, fs, own, i, j, r, s);
    }
  }

  lemma {:induction false} DirectGrows(lay: Layout, fs: Fs, own: seq<Option<Slot>>, i: nat, k: nat, r: nat)
    requires Owned(lay, fs, own) && i < |fs.inodes| && k <= NDIRECT && fs.inodes[i].addrs[k] == 0
    requires lay.nmeta <= r < |own| && !fs.bits[r]
    ensures Grows(fs, own, GiveDirect(fs, i, k, r), own[r := Some(Direct(i, k))], i)
  {
    var t := GiveDirect(fs, i, k, r);
    forall s | InRange(fs, s) && (s.i != i || Addr(fs, s) != 0)
      ensures Addr(t, s) == Addr(fs, s)
    {
      GiveDirectAddr(lay, fs, own, i, k, r, s);
    }
  }

  lemma {:induction false} EntryGrows(lay: Layout, fs: Fs, own: seq<Option<Slot>>, i: nat, j: nat, r: nat)
    requires Owned(lay, fs, own) && i < |fs.inodes| && j < NINDIRECT && fs.inodes[i].addrs[NDIRECT] != 0
    requires Addr(fs, Direct(i, NDIRECT)) < |fs.blocks|
    requires Addr(fs, Entry(i, j)) == 0 && lay.nmeta <= r < |own| && !fs.bits[r]
    ensures Grows(fs, own, GiveEntry(fs, i, j, r), own[r := Some(Entry(i, j))], i)
  {
    var t := GiveEntry(fs, i, j, r);
    forall s | InRange(fs, s) && (s.i != i || Addr(fs, s) != 0)
      ensures Addr(t, s) == Addr(fs, s)
    {
      GiveEntryAddr(lay, fs, own, i, j, r, s);
    }
    assert own[fs.inodes[i].addrs[NDIRECT]] == Some(Direct(i, NDIRECT)) by {
      assert Addr(fs, Direct(i, NDIRECT)) == fs.inodes[i].addrs[NDIRECT];
    }
  }

  // The block balloc() picks at or after from: the lowest with a clear bit, |bits| if there is none.
  function FirstFree(bits: seq<bool>, from: nat): (r: nat)
    requires from <= |bits|
    ensures from <= r <= |bits|
    ensures r < |bits| ==> !bits[r]
    ensures forall b :: from <= b < r ==> bits[b]
    decreases |bits| - from
  {
    if from == |bits| then from else if !bits[from] then from else FirstFree(bits, from + 1)
  }

  // The place that holds block bn of inode i.
  function SlotOf(i: nat, bn: nat): (s: Slot) {
    if bn < NDIRECT then Direct(i, bn) else Entry(i, bn - NDIRECT)
  }

  // bmap()'s allocation into addrs[k]: the block now there, 0 if there is none and the disk is full.
  ghost function MapDirect(lay: Layout, fs: Fs, i: nat, k: nat): (r: (Fs, nat))
    requires Shape(lay, fs) && i < |fs.inodes| && k <= NDIRECT
    ensures Shape(lay, r.0) && |r.0.inodes| == |fs.inodes| && |r.0.bits| == |fs.bits|
  {
    var a := fs.inodes[i].addrs[k];
    var b := FirstFree(fs.bits, 0);
    if a != 0 then (fs, a)
    else if b == |fs.bits| then (fs, 0)
    else (GiveDirect(fs, i, k, b), b)
  }

  ghost function MapEntry(lay: Layout, fs: Fs, i: nat, j: nat): (r: (Fs, nat))
    requires Shape(lay, fs) && i < |fs.inodes| && j < NINDIRECT
    requires 0 < fs.inodes[i].addrs[NDIRECT] < |fs.blocks|
    ensures Shape(lay, r.0) && |r.0.inodes| == |fs.inodes| && |r.0.bits| == |fs.bits|
  {
    var a := Addr(fs, Entry(i, j));
    var b := FirstFree(fs.bits, 0);
    if a != 0 then (fs, a)
    else if b == |fs.bits| then (fs, 0)
    else (GiveEntry(fs, i, j, b), b)
  }

  // The part of bmap() that goes through the indirect block, allocating it if necessary.
  ghost function MapIndirect(lay: Layout, fs: Fs, i: nat, j: nat): (r: (Fs, nat))
    requires Shape(lay, fs) && i < |fs.inodes| && j < NINDIRECT
    ensures Shape(lay, r.0) && |r.0.inodes| == |fs.inodes| && |r.0.bits| == |fs.bits|
  {
    var (mid, ind) := MapDirect(lay, fs, i, NDIRECT);
    if ind == 0 || |mid.blocks| <= ind || mid.inodes[i].addrs[NDIRECT] != ind then (mid, 0)
    else MapEntry(lay, mid, i, j)
  }

  ghost function Bmap(lay: Layout, fs: Fs, i: nat, bn: nat): (r: (Fs, nat))
    requires Shape(lay, fs) && i < |fs.inodes| && bn < NDIRECT + NINDIRECT
    ensures Shape(lay, r.0) && |r.0.inodes| == |fs.inodes| && |r.0.bits| == |fs.bits|
  {
    if bn < NDIRECT then MapDirect(lay, fs, i, bn) else MapIndirect(lay, fs, i, bn - NDIRECT)
  }

  // t keeps what fs's inodes hold: only inode i gains blocks, and of the blocks held only its indirect block changes.
  ghost predicate Grows(fs: Fs, own: seq<Option<Slot>>, t: Fs, own': seq<Option<Slot>>, i: nat) {
    && |t.inodes| == |fs.inodes| && |t.blocks| == |fs.blocks| && |own'| == |own| == |fs.blocks|
    && (forall x :: 0 <= x < |fs.inodes| ==> t.inodes[x].size == fs.inodes[x].size)
    && (forall s {:trigger Addr(t, s)} :: InRange(fs, s) && (s.i != i || Addr(fs, s) != 0) ==>
          Addr(t, s) == Addr(fs, s))
    && (forall b :: 0 <= b < |own| && own[b].Some? ==>
          own'[b] == own[b] && (own[b].value != Direct(i, NDIRECT) ==> t.blocks[b] == fs.blocks[b]))
    && (forall b :: 0 <= b < |own| && own[b].None? && own'[b].Some? ==> own'[b].value.i == i)
  }

  // t, a is what mapping place s of inode i must give: the block now held there, new ones zeroed, 0 only when
  // no block is free.
  ghost predicate Maps(
      lay: Layout, fs: Fs, own: seq<Option<Slot>>, t: Fs, own': seq<Option<Slot>>, i: nat, s: Slot, a: nat)
    requires InRange(fs, s)
  {
    && Owned(lay, t, own') && Grows(fs, own, t, own', i) && InRange(t, s)
    && (a != 0 ==> a == Addr(t, s) < |t.blocks|)
    && (a == 0 ==> Addr(t, s) == 0 && FirstFree(t.bits, 0) == |t.bits|)
    && (Addr(fs, s) == 0 && a != 0 ==> t.blocks[a] == Zeros())
    && (forall q {:trigger Addr(t, q)} :: InRange(fs, q) && q != s && q != Direct(i, NDIRECT) ==>
          Addr(t, q) == Addr(fs, q))
  }

  lemma {:induction false} MapDirectOwned(
      lay: Layout, fs: Fs, own: seq<Option<Slot>>, i: nat, k: nat, t: Fs, a: nat, s: Slot)
    returns (own': seq<Option<Slot>>)
    requires Owned(lay, fs, own) && i < |fs.inodes| && k <= NDIRECT
    requires (t, a) == MapDirect(lay, fs, i, k) && s == Direct(i, k)
    ensures Maps(lay, fs, own, t, own', i, s, a)
  {
    var b := FirstFree(fs.bits, 0);
    own' := own;
    if fs.inodes[i].addrs[k] == 0 && b < |fs.bits| {
      assert lay.nmeta <= b;
      own' := own[b := Some(Direct(i, k))];
      GiveDirectOwned(lay, fs, own, i, k, b);
      assert Addr(t, Direct(i, k)) == b;
      DirectGrows(lay, fs, own, i, k, b);
    }
  }

  lemma {:induction false} MapEntryOwned(
      lay: Layout, fs: Fs, own: seq<Option<Slot>>, i: nat, j: nat, t: Fs, a: nat, s: Slot)
    returns (own': seq<Option<Slot>>)
    requires Owned(lay, fs, own) && i < |fs.inodes| && j < NINDIRECT
    requires 0 < fs.inodes[i].addrs[NDIRECT] < |fs.blocks|
    requires (t, a) == MapEntry(lay, fs, i, j) && s == Entry(i, j)
    ensures Maps(lay, fs, own, t, own', i, s, a)
  {
    var b := FirstFree(fs.bits, 0);
    own' := own;
    assert Addr(fs, Direct(i, NDIRECT)) == fs.inodes[i].addrs[NDIRECT];
    if Addr(fs, Entry(i, j)) == 0 && b < |fs.bits| {
      assert lay.nmeta <= b;
      own' := own[b := Some(Entry(i, j))];
      GiveEntryOwned(lay, fs, own, i, j, b);
      GiveEntryAddr(lay, fs, own, i, j, b, Entry(i, j));
      EntryGrows(lay, fs, own, i, j, b);
      assert own[fs.inodes[i].addrs[NDIRECT]].Some?;
    }
  }

  lemma {:induction false} GrowsTransitive(
      fs: Fs, own: seq<Option<Slot>>, t: Fs, own1: seq<Option<Slot>>, u: Fs, own2: seq<Option<Slot>>, i: nat)
    requires Grows(fs, own, t, own1, i) && Grows(t, own1, u, own2, i)
    ensures Grows(fs, own, u, own2, i)
  {
    forall s | InRange(fs, s) && (s.i != i || Addr(fs, s) != 0)
      ensures Addr(u, s) == Addr(fs, s)
    {
      assert Addr(t, s) == Addr(fs, s);
    }
  }

  // Getting the indirect block and then the entry is getting the entry.
  lemma {:induction false} MapsThrough(
      lay: Layout, fs: Fs, own: seq<Option<Slot>>, t: Fs, own1: seq<Option<Slot>>, u: Fs, own2: seq<Option<Slot>>,
      i: nat, ind: nat, s: Slot, a: nat)
    requires s.Entry? && s.i == i && InRange(fs, s) && InRange(fs, Direct(i, NDIRECT))
    requires Maps(lay, fs, own, t, own1, i, Direct(i, NDIRECT), ind) && Maps(lay, t, own1, u, own2, i, s, a)
    ensures Maps(lay, fs, own, u, own2, i, s, a)
  {
    GrowsTransitive(fs, own, t, own1, u, own2, i);
    assert Addr(t, s) == Addr(fs, s);
    forall q | InRange(fs, q) && q != s && q != Direct(i, NDIRECT)
      ensures Addr(u, q) == Addr(fs, q)
    {
      assert Addr(t, q) == Addr(fs, q);
    }
  }

  lemma {:induction false} MapIndirectOwned(
      lay: Layout, fs: Fs, own: seq<Option<Slot>>, i: nat, j: nat, t: Fs, a: nat, s: Slot)
    returns (own': seq<Option<Slot>>)
    requires Owned(lay, fs, own) && i < |fs.inodes| && j < NINDIRECT
    requires (t, a) == MapIndirect(lay, fs, i, j) && s == Entry(i, j)
    ensures Maps(lay, fs, own, t, own', i, s, a)
  {
    var (mid, ind) := MapDirect(lay, fs, i, NDIRECT);
    own' := MapDirectOwned(lay, fs, own, i, NDIRECT, mid, ind, Direct(i, NDIRECT));
    assert Addr(mid, s) == Addr(fs, s);
    assert ind == mid.inodes[i].addrs[NDIRECT] == Addr(mid, Direct(i, NDIRECT));
    if ind != 0 {
      var own1 := own';
      own' := MapEntryOwned(lay, mid, own1, i, j, t, a, s);
      MapsThrough(lay, fs, own, mid, own1, t, own', i, ind, s, a);
    }
  }

  /** bmap(): the block it returns is the one now held for bn; ownership is kept, on the paths that run out
      of space too; a new block comes zeroed; it fails only when no block is free. */
  lemma {:induction false} BmapOwned(
      lay: Layout, fs: Fs, own: seq<Option<Slot>>, i: nat, bn: nat, t: Fs, a: nat, s: Slot)
    returns (own': seq<Option<Slot>>)
    requires Owned(lay, fs, own) && i < |fs.inodes| && bn < NDIRECT + NINDIRECT
    requires (t, a) == Bmap(lay, fs, i, bn) && s == SlotOf(i, bn)
    ensures Maps(lay, fs, own, t, own', i, s, a)
  {
    if bn < NDIRECT {
      own' := MapDirectOwned(lay, fs, own, i, bn, t, a, s);
    } else {
      own' := MapIndirectOwned(lay, fs, own, i, bn - NDIRECT, t, a, s);
    }
  }

  // The image after itrunc() of inode i, given who holds what.
  ghost function Truncated(fs: Fs, own: seq<Option<Slot>>, i: nat): (t: Fs)
    requires i < |fs.inodes| && |own| == |fs.bits|
  {
    Fs(seq(|fs.bits|, b requires 0 <= b < |fs.bits| => fs.bits[b] && !(own[b].Some? && own[b].value.i == i)),
       fs.blocks,
       fs.inodes[i := Inode(seq(NDIRECT + 1, _ => 0), 0)])
  }

  ghost function Disowned(own: seq<Option<Slot>>, i: nat): (r: seq<Option<Slot>>)
    ensures |r| == |own|
  {
    seq(|own|, b requires 0 <= b < |own| => if own[b].Some? && own[b].value.i == i then None else own[b])
  }

  /** itrunc() keeps ownership: exactly the blocks of inode i become free and nobody else's change hands. */
  lemma {:induction false} TruncateOwned(lay: Layout, fs: Fs, own: seq<Option<Slot>>, i: nat)
    requires Owned(lay, fs, own) && i < |fs.inodes|
    ensures Owned(lay, Truncated(fs, own, i), Disowned(own, i))
    ensures forall s {:trigger Addr(fs, s)} :: InRange(fs, s) ==>
              Addr(Truncated(fs, own, i), s) == if s.i == i then 0 else Addr(fs, s)
  {
    var t := Truncated(fs, own, i);
    forall s | InRange(fs, s)
      ensures Addr(t, s) == if s.i == i then 0 else Addr(fs, s)
    {
    }
    forall s | InRange(t, s)
      ensures InRange(fs, s) && Addr(t, s) == if s.i == i then 0 else Addr(fs, s)
    {
    }
  }
}
