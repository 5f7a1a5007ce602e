/** Views of a disk block: bytes, little-endian unsigned ints (indirect blocks), bits (the free map). */
module Bytes {

  const BSIZE: nat := 1024

  type byte = x: int | 0 <= x < 256

  // A little-endian unsigned integer.
  function FromLe(s: seq<byte>): (r: nat) {
    if s == [] then 0 else s[0] + 256 * FromLe(s[1..])
  }

  function ToLe(x: nat, n: nat): (s: seq<byte>)
    ensures |s| == n
  {
    if n == 0 then [] else [x % 256] + ToLe(x / 256, n - 1)
  }

  function Pow256(n: nat): nat {
    if n == 0 then 1 else 256 * Pow256(n - 1)
  }

  lemma {:induction false} LeRoundTrip(x: nat, n: nat)
    requires x < Pow256(n)
    ensures FromLe(ToLe(x, n)) == x
  {
    if n > 0 {
      LeRoundTrip(x / 256, n - 1);
      assert ToLe(x, n)[1..] == ToLe(x / 256, n - 1);
    }
  }

  // ((uint*)bp->data)[j]
  function Word(b: seq<byte>, j: nat): (r: nat)
    requires 4 * j + 4 <= |b|
  {
    FromLe(b[4 * j..4 * j + 4])
  }

  function PutWord(b: seq<byte>, j: nat, x: nat): (r: seq<byte>)
    requires 4 * j + 4 <= |b|
    ensures |r| == |b|
  {
    b[..4 * j] + ToLe(x, 4) + b[4 * j + 4..]
  }

  lemma {:induction false} PutWordGets(b: seq<byte>, j: nat, x: nat)
    requires 4 * j + 4 <= |b| && x < 0x1_0000_0000
    ensures Word(PutWord(b, j, x), j) == x
  {
    assert PutWord(b, j, x)[4 * j..4 * j + 4] == ToLe(x, 4);
    assert Pow256(4) == 256 * Pow256(3) == 65536 * Pow256(2);
    assert Pow256(2) == 256 * Pow256(1) && Pow256(1) == 256 * Pow256(0);
    LeRoundTrip(x, 4);
  }

  lemma {:induction false} PutWordKeeps(b: seq<byte>, j: nat, x: nat, i: nat)
    requires 4 * j + 4 <= |b| && 4 * i + 4 <= |b| && i != j
    ensures Word(PutWord(b, j, x), i) == Word(b, i)
  {
    assert PutWord(b, j, x)[4 * i..4 * i + 4] == b[4 * i..4 * i + 4];
  }

  function Zeros(): (b: seq<byte>)
    ensures |b| == BSIZE && forall k :: 0 <= k < BSIZE ==> b[k] == 0
  {
    seq(BSIZE, _ => 0)
  }

  lemma {:induction false} ZeroWord(j: nat)
    requires 4 * j + 4 <= BSIZE
    ensures Word(Zeros(), j) == 0
  {
    var s := Zeros()[4 * j..4 * j + 4];
    assert FromLe(s[4..]) == 0;
    assert s[3..][1..] == s[4..] && s[2..][1..] == s[3..] && s[1..][1..] == s[2..];
    assert FromLe(s[3..]) == 0;
    assert FromLe(s[2..]) == 0;
    assert FromLe(s[1..]) == 0;
  }

  // 1 << i
  function Mask(i: nat): (m: bv8)
    requires i < 8
  {
    if i == 0 then 1 else if i == 1 then 2 else if i == 2 then 4 else if i == 3 then 8
    else if i == 4 then 16 else if i == 5 then 32 else if i == 6 then 64 else 128
  }

  // data[bi/8] & (1 << (bi%8))
  function TestBit(bm: seq<bv8>, bi: nat): (r: bool)
    requires bi < 8 * |bm|
  {
    bm[bi / 8] & Mask(bi % 8) != 0
  }

  function SetBit(bm: seq<bv8>, bi: nat): (r: seq<bv8>)
    requires bi < 8 * |bm|
    ensures |r| == |bm|
  {
    bm[bi / 8 := bm[bi / 8] | Mask(bi % 8)]
  }

  function ClearBit(bm: seq<bv8>, bi: nat): (r: seq<bv8>)
    requires bi < 8 * |bm|
    ensures |r| == |bm|
  {
    bm[bi / 8 := bm[bi / 8] & !Mask(bi % 8)]
  }

  lemma {:induction false} MaskBits(x: bv8, m: bv8, k: bv8)
    requires m & k == 0
    ensures (x | m) & k == x & k
    ensures (x & !m) & k == x & k
  {
  }

  lemma {:induction false} MasksApart(i: nat, j: nat)
    requires i < 8 && j < 8
    ensures Mask(i) & Mask(j) == 0 <==> i != j
  {
  }

  lemma {:induction false} MaskItself(x: bv8, m: bv8)
    requires m != 0
    ensures (x | m) & m != 0 && (x & !m) & m == 0
  {
    assert (x | m) & m == m;
  }

  /** The free map's byte arithmetic is exactly an array of bits. */
  lemma {:induction false} BitsAreBits(bm: seq<bv8>, bi: nat, bj: nat)
    requires bi < 8 * |bm| && bj < 8 * |bm|
    ensures TestBit(SetBit(bm, bi), bj) <==> bi == bj || TestBit(bm, bj)
    ensures TestBit(ClearBit(bm, bi), bj) <==> bi != bj && TestBit(bm, bj)
  {
    if bi == bj {
      MasksApart(bi % 8, bi % 8);
      MaskItself(bm[bi / 8], Mask(bi % 8));
    } else if bi / 8 == bj / 8 {
      MasksApart(bi % 8, bj % 8);
      MaskBits(bm[bi / 8], Mask(bi % 8), Mask(bj % 8));
    }
  }
}
