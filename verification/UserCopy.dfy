/** What copyout(), copyin() and copyinstr() of kernel/vm.c are for: access to user memory, a byte at a time, through
    the flat map. */
module UserCopy {
  import opened Bytes
  import opened PageTable

  function PageOf(va: nat): nat {
    va / 4096
  }

  function OffsetOf(va: nat): (k: nat)
    ensures k < 4096
  {
    va % 4096
  }

  predicate Readable(m: Mem, r: nat, va: nat) {
    PageOf(va) < MAXPAGE && Flat(m, r, PageOf(va)).v && Flat(m, r, PageOf(va)).u
  }

  predicate Writable(m: Mem, r: nat, va: nat) {
    Readable(m, r, va) && Flat(m, r, PageOf(va)).w
  }

  // The byte at va.
  function ByteAt(m: Mem, r: nat, va: nat): (b: byte) {
    var p := Flat(m, r, PageOf(va)).ppn;
    if p < |m.pages| && m.pages[p].Data? && OffsetOf(va) < |m.pages[p].bytes| then m.pages[p].bytes[OffsetOf(va)] else 0
  }

  // Bytes d stored in page p from offset k.
  function Stored(m: Mem, p: nat, k: nat, d: seq<byte>): (t: Mem) {
    if p < |m.pages| && m.pages[p].Data? && k + |d| <= |m.pages[p].bytes| then
      m.(pages := m.pages[p := Data(m.pages[p].bytes[..k] + d + m.pages[p].bytes[k + |d|..])])
    else m
  }

  /** copyout(), a byte at a time: the memory afterwards, and whether every byte went. */
  function OutBytes(m: Mem, r: nat, va: nat, src: seq<byte>): (t: (Mem, bool))
    decreases |src|
  {
    if src == [] then (m, true)
    else if !Writable(m, r, va) then (m, false)
    else OutBytes(Stored(m, Flat(m, r, PageOf(va)).ppn, OffsetOf(va), [src[0]]), r, va + 1, src[1..])
  }

  /** copyin(): the bytes read before the first unreadable one. */
  function InBytes(m: Mem, r: nat, va: nat, n: nat): (d: (seq<byte>, bool))
    decreases n
  {
    if n == 0 then ([], true)
    else if !Readable(m, r, va) then ([], false)
    else
      var (d, ok) := InBytes(m, r, va + 1, n - 1);
      ([ByteAt(m, r, va)] + d, ok)
  }

  /** copyinstr(): up to and including the first zero byte, within max bytes. */
  function InString(m: Mem, r: nat, va: nat, max: nat): (d: (seq<byte>, bool))
    decreases max
  {
    if max == 0 then ([], false)
    else if !Readable(m, r, va) then ([], false)
    else if ByteAt(m, r, va) == 0 then ([0], true)
    else
      var (d, ok) := InString(m, r, va + 1, max - 1);
      ([ByteAt(m, r, va)] + d, ok)
  }

  // Only user pages may be touched by the user.
  ghost predicate UserOnly(m: Mem, r: nat) {
    forall v :: TRAPFRAME <= v < MAXPAGE ==> !Flat(m, r, v).u
  }

  // The page behind a readable address is a data page of the process.
  lemma {:induction false} ReadablePage(m: Mem, own: seq<Use>, r: nat, va: nat)
    requires Owned(m, own) && UsedAs(own, r, Root) && UserOnly(m, r) && Readable(m, r, va)
    ensures var v, p := PageOf(va), Flat(m, r, PageOf(va)).ppn;
            && v < TRAPFRAME && UsedAs(own, p, Leaf(r, v)) && p < |m.pages| && m.pages[p].Data?
            && |m.pages[p].bytes| == 4096
  {
    var v := PageOf(va);
    LowUse(m, own, r, Hi(v), Mi(v));
    EntryUse(m, own, r, v, LowOf(m, r, Hi(v), Mi(v)).value);
    assert PageOk(m, own, Flat(m, r, v).ppn);
    hide Owned, Hi, Mi, Lo;
  }

  // Storing into a user page changes no table.
  lemma {:induction false} StoredSame(m: Mem, own: seq<Use>, p: nat, k: nat, d: seq<byte>, t: Mem)
    requires Owned(m, own) && p < |own| && own[p].Leaf? && k + |d| <= 4096 && t == Stored(m, p, k, d)
    ensures Owned(t, own)
    ensures forall s: nat, v: nat {:trigger Flat(t, s, v)} :: UsedAs(own, s, Root) ==> Flat(t, s, v) == Flat(m, s, v)
  {
    assert PageOk(m, own, p);
    forall x | 0 <= x < |own|
      ensures PageOk(t, own, x)
    {
      StoredPage(m, own, p, k, d, t, x);
    }
    forall s: nat, v: nat | UsedAs(own, s, Root)
      ensures Flat(t, s, v) == Flat(m, s, v)
    {
      FlatIgnores(m, own, t, p, s, v);
    }
  }

  lemma {:induction false} StoredPage(m: Mem, own: seq<Use>, p: nat, k: nat, d: seq<byte>, t: Mem, x: nat)
    requires Owned(m, own) && p < |own| && own[p].Leaf? && k + |d| <= 4096 && t == Stored(m, p, k, d) && x < |own|
    ensures PageOk(t, own, x)
  {
    assert PageOk(m, own, p) && PageOk(m, own, x);
    if x != p {
      forall i: nat
        ensures Entry(t, x, i) == Entry(m, x, i)
      {
      }
    }
    match own[x]
    case Mid(r, i) => TablesIgnore(m, own, t, p, r, i, 0);
    case Low(r, i, j) => TablesIgnore(m, own, t, p, r, i, j);
    case Leaf(r, v) => FlatIgnores(m, own, t, p, r, v);
    case _ =>
    hide Owned, Entry, MidOf, LowOf, Flat;
  }

  // Addresses within a page.
  lemma {:induction false} SamePage(va: nat, k: nat)
    requires OffsetOf(va) + k < 4096
    ensures PageOf(va + k) == PageOf(va) && OffsetOf(va + k) == OffsetOf(va) + k
  {
  }

  // Storing n bytes in one go or one after the other.
  lemma {:induction false} StoredJoins(m: Mem, p: nat, k: nat, d: seq<byte>)
    requires p < |m.pages| && m.pages[p].Data? && k + |d| <= |m.pages[p].bytes| && 0 < |d|
    ensures Stored(Stored(m, p, k, [d[0]]), p, k + 1, d[1..]) == Stored(m, p, k, d)
  {
    var b := m.pages[p].bytes;
    var b1 := b[..k] + [d[0]] + b[k + 1..];
    assert b1[..k + 1] + d[1..] + b1[k + 1 + |d[1..]|..] == b[..k] + d + b[k + |d|..];
  }

  /** A page's worth of copyout() is that many bytes of the byte-at-a-time copy. */
  lemma {:induction false} OutChunk(m: Mem, own: seq<Use>, r: nat, va: nat, src: seq<byte>, n: nat, p: nat)
    requires Owned(m, own) && UsedAs(own, r, Root) && UserOnly(m, r) && n <= |src| && OffsetOf(va) + n <= 4096
    requires Writable(m, r, va) && p == Flat(m, r, PageOf(va)).ppn && 0 < n
    ensures OutBytes(m, r, va, src) == OutBytes(Stored(m, p, OffsetOf(va), src[..n]), r, va + n, src[n..])
    decreases n
  {
    hide Owned, Flat;
    ReadablePage(m, own, r, va);
    var m1 := Stored(m, p, OffsetOf(va), [src[0]]);
    StoredSame(m, own, p, OffsetOf(va), [src[0]], m1);
    if n == 1 {
      assert src[..1] == [src[0]];
    } else {
      SamePage(va, 1);
      UserOnlyKept(m, own, m1, r);
      OutChunk(m1, own, r, va + 1, src[1..], n - 1, p);
      assert src[1..][..n - 1] == src[..n][1..] && src[1..][n - 1..] == src[n..];
      StoredJoins(m, p, OffsetOf(va), src[..n]);
    }
  }

  lemma {:induction false} UserOnlyKept(m: Mem, own: seq<Use>, t: Mem, r: nat)
    requires UserOnly(m, r) && UsedAs(own, r, Root)
    requires forall s: nat, v: nat {:trigger Flat(t, s, v)} :: UsedAs(own, s, Root) ==> Flat(t, s, v) == Flat(m, s, v)
    ensures UserOnly(t, r)
  {
    hide Flat;
  }

  lemma {:induction false} InByte(m: Mem, r: nat, va: nat, len: nat)
    requires Readable(m, r, va) && 0 < len
    ensures InBytes(m, r, va, len).0 == [ByteAt(m, r, va)] + InBytes(m, r, va + 1, len - 1).0
    ensures InBytes(m, r, va, len).1 == InBytes(m, r, va + 1, len - 1).1
  {
    hide Readable, ByteAt;
  }

  // Bytes k .. k + n - 1 of the page at va.
  lemma {:induction false} InChunk(m: Mem, own: seq<Use>, r: nat, va: nat, len: nat, n: nat, p: nat)
    requires Owned(m, own) && UsedAs(own, r, Root) && UserOnly(m, r) && n <= len && OffsetOf(va) + n <= 4096
    requires Readable(m, r, va) && p == Flat(m, r, PageOf(va)).ppn && 0 < n
    ensures p < |m.pages| && m.pages[p].Data? && |m.pages[p].bytes| == 4096
    ensures InBytes(m, r, va, len).0
         == m.pages[p].bytes[OffsetOf(va)..OffsetOf(va) + n] + InBytes(m, r, va + n, len - n).0
    ensures InBytes(m, r, va, len).1 == InBytes(m, r, va + n, len - n).1
    decreases n
  {
    hide Owned, Flat, InBytes, UserOnly;
    ReadablePage(m, own, r, va);
    InByte(m, r, va, len);
    var b, k := m.pages[p].bytes, OffsetOf(va);
    if n == 1 {
      assert b[k..k + 1] == [ByteAt(m, r, va)];
    } else {
      SamePage(va, 1);
      InChunk(m, own, r, va + 1, len - 1, n - 1, p);
      assert b[k..k + n] == [b[k]] + b[k + 1..k + 1 + (n - 1)];
    }
  }

  // copyin() part way: dst is there, and what is left are the bytes from there on.
  ghost predicate InSoFar(m: Mem, r: nat, va: nat, len: nat, dst: seq<byte>) {
    && |dst| <= len
    && InBytes(m, r, va, len).0 == dst + InBytes(m, r, va + |dst|, len - |dst|).0
    && InBytes(m, r, va, len).1 == InBytes(m, r, va + |dst|, len - |dst|).1
  }

  lemma {:induction false} InStarts(m: Mem, r: nat, va: nat, len: nat)
    ensures InSoFar(m, r, va, len, [])
  {
    hide InBytes;
    assert [] + InBytes(m, r, va, len).0 == InBytes(m, r, va, len).0;
  }

  lemma {:induction false} InStops(m: Mem, r: nat, va: nat, n: nat)
    requires n == 0 || !Readable(m, r, va)
    ensures InBytes(m, r, va, n) == ([], n == 0)
  {
  }

  lemma {:induction false} InEnds(m: Mem, r: nat, va: nat, len: nat, dst: seq<byte>)
    requires InSoFar(m, r, va, len, dst) && (|dst| == len || !Readable(m, r, va + |dst|))
    ensures InBytes(m, r, va, len) == (dst, |dst| == len)
  {
    hide InBytes;
    InStops(m, r, va + |dst|, len - |dst|);
    assert dst + [] == dst;
  }

  lemma {:induction false} InTurn(
      m: Mem, own: seq<Use>, r: nat, va: nat, len: nat, dst: seq<byte>, n: nat, p: nat)
    requires Owned(m, own) && UsedAs(own, r, Root) && UserOnly(m, r) && InSoFar(m, r, va, len, dst)
    requires 0 < n <= len - |dst| && OffsetOf(va + |dst|) + n <= 4096
    requires Readable(m, r, va + |dst|) && p == Flat(m, r, PageOf(va + |dst|)).ppn
    ensures p < |m.pages| && m.pages[p].Data? && |m.pages[p].bytes| == 4096
    ensures var k := OffsetOf(va + |dst|); InSoFar(m, r, va, len, dst + m.pages[p].bytes[k..k + n])
  {
    hide Owned, UserOnly, Flat, Readable, InBytes;
    var a := va + |dst|;
    InChunk(m, own, r, a, len - |dst|, n, p);
    var piece := m.pages[p].bytes[OffsetOf(a)..OffsetOf(a) + n];
    var rest := InBytes(m, r, a + n, len - |dst| - n).0;
    assert dst + (piece + rest) == dst + piece + rest;
    assert va + |dst + piece| == a + n;
  }

  // copyinstr() at an address it cannot read or with no room left.
  lemma {:induction false} StringStops(m: Mem, r: nat, va: nat, max: nat)
    requires max == 0 || !Readable(m, r, va)
    ensures InString(m, r, va, max) == ([], false)
  {
  }

  lemma {:induction false} StringDone(m: Mem, r: nat, va: nat, max: nat)
    requires 0 < max && Readable(m, r, va) && ByteAt(m, r, va) == 0
    ensures InString(m, r, va, max) == ([0], true)
  {
  }

  // One byte of copyinstr() that is not the last.
  lemma {:induction false} StringNext(m: Mem, r: nat, va: nat, max: nat)
    requires Readable(m, r, va) && 0 < max && ByteAt(m, r, va) != 0
    ensures InString(m, r, va, max).0 == [ByteAt(m, r, va)] + InString(m, r, va + 1, max - 1).0
    ensures InString(m, r, va, max).1 == InString(m, r, va + 1, max - 1).1
  {
  }

  // copyinstr() part way: dst is there, and what is left is the string from there on.
  ghost predicate StringSoFar(m: Mem, r: nat, va: nat, max: nat, dst: seq<byte>) {
    && |dst| <= max
    && InString(m, r, va, max).0 == dst + InString(m, r, va + |dst|, max - |dst|).0
    && InString(m, r, va, max).1 == InString(m, r, va + |dst|, max - |dst|).1
  }

  lemma {:induction false} StringStarts(m: Mem, r: nat, va: nat, max: nat)
    ensures StringSoFar(m, r, va, max, [])
  {
    hide InString;
    assert [] + InString(m, r, va, max).0 == InString(m, r, va, max).0;
  }

  lemma {:induction false} StringEnds(m: Mem, r: nat, va: nat, max: nat, dst: seq<byte>)
    requires StringSoFar(m, r, va, max, dst) && (|dst| == max || !Readable(m, r, va + |dst|))
    ensures InString(m, r, va, max) == (dst, false)
  {
    hide InString;
    StringStops(m, r, va + |dst|, max - |dst|);
    assert dst + [] == dst;
  }

  lemma {:induction false} StringTurn(m: Mem, r: nat, va: nat, max: nat, dst: seq<byte>)
    requires StringSoFar(m, r, va, max, dst) && |dst| < max && Readable(m, r, va + |dst|)
    ensures var ch := ByteAt(m, r, va + |dst|);
            if ch == 0 then InString(m, r, va, max) == (dst + [0], true) else StringSoFar(m, r, va, max, dst + [ch])
  {
    hide InString, ByteAt, Readable;
    var ch := ByteAt(m, r, va + |dst|);
    if ch == 0 {
      StringDone(m, r, va + |dst|, max - |dst|);
    } else {
      StringNext(m, r, va + |dst|, max - |dst|);
      assert dst + ([ch] + InString(m, r, va + |dst| + 1, max - |dst| - 1).0)
          == dst + [ch] + InString(m, r, va + |dst| + 1, max - |dst| - 1).0;
    }
  }

  // Byte k of the string, which lies at address a.
  lemma {:induction false} StringByte(m: Mem, r: nat, va: nat, max: nat, k: nat, a: nat)
    requires k < |InString(m, r, va, max).0| && a == va + k
    ensures InString(m, r, va, max).0[k] == ByteAt(m, r, a) && Readable(m, r, a)
    ensures k < |InString(m, r, va, max).0| - 1 ==> ByteAt(m, r, a) != 0
    decreases max
  {
    hide ByteAt, Readable;
    if k > 0 {
      StringByte(m, r, va + 1, max - 1, k - 1, a);
    }
  }

  lemma {:induction false} StringEnd(m: Mem, r: nat, va: nat, max: nat, a: nat)
    requires a == va + |InString(m, r, va, max).0|
    ensures var (d, ok) := InString(m, r, va, max);
            && |d| <= max && (ok <==> |d| > 0 && d[|d| - 1] == 0) && (!ok ==> |d| == max || !Readable(m, r, a))
    decreases max
  {
    hide ByteAt, Readable;
    if max > 0 && Readable(m, r, va) && ByteAt(m, r, va) != 0 {
      StringEnd(m, r, va + 1, max - 1, a);
    }
  }

  /** What copyinstr() delivers: each byte the one at its address, all but the last nonzero; it succeeds exactly when
      the last is zero, and otherwise stopped at max bytes or at an unreadable address. */
  lemma {:induction false} StringIs(m: Mem, r: nat, va: nat, max: nat)
    ensures var (d, ok) := InString(m, r, va, max);
            && |d| <= max && (forall a :: va <= a < va + |d| ==> d[a - va] == ByteAt(m, r, a) && Readable(m, r, a))
            && (forall k :: 0 <= k < |d| - 1 ==> d[k] != 0)
            && (ok <==> |d| > 0 && d[|d| - 1] == 0)
            && (!ok ==> |d| == max || !Readable(m, r, va + |d|))
  {
    hide ByteAt, Readable, InString;
    var d := InString(m, r, va, max).0;
    StringEnd(m, r, va, max, va + |d|);
    forall a | va <= a < va + |d|
      ensures d[a - va] == ByteAt(m, r, a) && Readable(m, r, a)
    {
      StringByte(m, r, va, max, a - va, a);
    }
    forall k | 0 <= k < |d| - 1
      ensures d[k] != 0
    {
      StringByte(m, r, va, max, k, va + k);
    }
  }

  // ---- What copyout() leaves in memory ----

  // Page p of t is page p of m with the first w bytes of src at virtual address va of r.
  ghost predicate PageWrote(
      m: Mem, t: Mem, own: seq<Use>, r: nat, va: nat, src: seq<byte>, w: nat, p: nat)
    requires p < |own| == |m.pages| == |t.pages| && w <= |src|
  {
    if own[p].Leaf? && own[p].r == r then
      && m.pages[p].Data? && t.pages[p].Data? && |m.pages[p].bytes| == |t.pages[p].bytes| == 4096
      && forall o :: 0 <= o < 4096 ==>
           var a := 4096 * own[p].v + o;
           t.pages[p].bytes[o] == if va <= a < va + w then src[a - va] else m.pages[p].bytes[o]
    else t.pages[p] == m.pages[p]
  }

  // Every page is as it should be, and every mapping as before.
  ghost predicate Wrote(m: Mem, t: Mem, own: seq<Use>, r: nat, va: nat, src: seq<byte>, w: nat) {
    && |own| == |m.pages| == |t.pages| && t.free == m.free && w <= |src|
    && (forall s: nat, v: nat {:trigger Flat(t, s, v)} :: UsedAs(own, s, Root) ==> Flat(t, s, v) == Flat(m, s, v))
    && (forall p {:trigger PageWrote(m, t, own, r, va, src, w, p)} ::
          0 <= p < |own| ==> PageWrote(m, t, own, r, va, src, w, p))
  }

  lemma {:induction false} LeafIsData(m: Mem, own: seq<Use>, p: nat)
    requires Owned(m, own) && p < |own| && own[p].Leaf?
    ensures p < |m.pages| && m.pages[p].Data? && |m.pages[p].bytes| == 4096
    ensures UsedAs(own, own[p].r, Root) && Flat(m, own[p].r, own[p].v).ppn == p
  {
    assert PageOk(m, own, p);
  }

  lemma {:induction false} OwnedPages(m: Mem, own: seq<Use>)
    requires Owned(m, own)
    ensures |own| == |m.pages|
  {
  }

  lemma {:induction false} NothingWrote(m: Mem, own: seq<Use>, r: nat, va: nat, src: seq<byte>)
    requires Owned(m, own)
    ensures Wrote(m, m, own, r, va, src, 0)
  {
    hide Owned, Flat;
    OwnedPages(m, own);
    forall p | 0 <= p < |own|
      ensures PageWrote(m, m, own, r, va, src, 0, p)
    {
      if own[p].Leaf? {
        LeafIsData(m, own, p);
      }
    }
  }

  // The first byte alone.
  lemma {:induction false} ByteWrote(m: Mem, own: seq<Use>, r: nat, va: nat, src: seq<byte>, q: nat, t: Mem, p: nat)
    requires Owned(m, own) && |own| == |m.pages| && 0 < |src| && UsedAs(own, q, Leaf(r, PageOf(va))) && p < |own|
    requires t == Stored(m, q, OffsetOf(va), [src[0]]) && |t.pages| == |m.pages|
    requires forall x :: 0 <= x < |own| && own[x] == Leaf(r, PageOf(va)) ==> x == q
    ensures PageWrote(m, t, own, r, va, src, 1, p)
  {
    hide Owned;
    LeafIsData(m, own, q);
    if own[p].Leaf? && own[p].r == r {
      LeafIsData(m, own, p);
      forall o | 0 <= o < 4096
        ensures t.pages[p].bytes[o] == if 4096 * own[p].v + o == va then src[0] else m.pages[p].bytes[o]
      {
        Located(own[p].v, o, va);
      }
    }
  }

  lemma {:induction false} Located(v: nat, o: nat, va: nat)
    requires o < 4096
    ensures 4096 * v + o == va <==> v == PageOf(va) && o == OffsetOf(va)
  {
  }

  lemma {:induction false} LeafAlone(m: Mem, own: seq<Use>, q: nat, u: Use)
    requires Owned(m, own) && UsedAs(own, q, u) && u.Leaf?
    ensures forall x :: 0 <= x < |own| && own[x] == u ==> x == q
  {
    LeafIsData(m, own, q);
    forall x | 0 <= x < |own| && own[x] == u
      ensures x == q
    {
      LeafIsData(m, own, x);
    }
  }

  lemma {:induction false} FirstWrote(m: Mem, own: seq<Use>, r: nat, va: nat, src: seq<byte>, q: nat, t: Mem)
    requires Owned(m, own) && 0 < |src| && UsedAs(own, q, Leaf(r, PageOf(va)))
    requires t == Stored(m, q, OffsetOf(va), [src[0]])
    ensures Owned(t, own) && Wrote(m, t, own, r, va, src, 1)
  {
    hide Owned, Flat, PageWrote;
    StoredSame(m, own, q, OffsetOf(va), [src[0]], t);
    OwnedPages(m, own);
    LeafAlone(m, own, q, Leaf(r, PageOf(va)));
    forall p | 0 <= p < |own|
      ensures PageWrote(m, t, own, r, va, src, 1, p)
    {
      ByteWrote(m, own, r, va, src, q, t, p);
    }
  }

  lemma {:induction false} PagesJoin(
      m: Mem, m1: Mem, t: Mem, own: seq<Use>, r: nat, va: nat, src: seq<byte>, w: nat, p: nat)
    requires |own| == |m.pages| == |m1.pages| == |t.pages| && p < |own| && 0 < |src| && w <= |src[1..]|
    requires PageWrote(m, m1, own, r, va, src, 1, p) && PageWrote(m1, t, own, r, va + 1, src[1..], w, p)
    ensures PageWrote(m, t, own, r, va, src, w + 1, p)
  {
    if own[p].Leaf? && own[p].r == r {
      forall o | 0 <= o < 4096
        ensures t.pages[p].bytes[o]
             == var a := 4096 * own[p].v + o; if va <= a < va + (w + 1) then src[a - va] else m.pages[p].bytes[o]
      {
        var a := 4096 * own[p].v + o;
        assert va + 1 <= a < va + 1 + w ==> src[1..][a - (va + 1)] == src[a - va];
      }
    }
  }

  lemma {:induction false} WroteJoins(
      m: Mem, m1: Mem, t: Mem, own: seq<Use>, r: nat, va: nat, src: seq<byte>, w: nat)
    requires 0 < |src| && Wrote(m, m1, own, r, va, src, 1) && Wrote(m1, t, own, r, va + 1, src[1..], w)
    ensures Wrote(m, t, own, r, va, src, w + 1)
  {
    hide Flat, PageWrote;
    var x := w + 1;
    forall p | 0 <= p < |own|
      ensures PageWrote(m, t, own, r, va, src, x, p)
    {
      PagesJoin(m, m1, t, own, r, va, src, w, p);
    }
  }

  lemma {:induction false} WritableKept(m: Mem, t: Mem, own: seq<Use>, r: nat, va: nat, src: seq<byte>, w: nat, a: nat)
    requires Wrote(m, t, own, r, va, src, w) && UsedAs(own, r, Root)
    ensures Writable(t, r, a) == Writable(m, r, a) && Readable(t, r, a) == Readable(m, r, a)
  {
    hide Flat, PageWrote;
  }

  /** What copyout() does: the first w bytes of src land at va, every other byte of every page and every mapping stays
      as it was, and it stops before the end exactly at an address the user may not write. */
  lemma {:induction false} OutIs(m: Mem, own: seq<Use>, r: nat, va: nat, src: seq<byte>, t: Mem, ok: bool)
    returns (w: nat)
    requires Owned(m, own) && UsedAs(own, r, Root) && UserOnly(m, r) && (t, ok) == OutBytes(m, r, va, src)
    ensures Owned(t, own) && UserOnly(t, r) && Wrote(m, t, own, r, va, src, w)
    ensures (ok <==> w == |src|) && (!ok ==> !Writable(m, r, va + w))
    ensures forall k :: va <= k < va + w ==> Writable(m, r, k)
    decreases |src|
  {
    hide Owned, Flat, Wrote, Stored, UserOnly;
    if src == [] || !Writable(m, r, va) {
      w := 0;
      NothingWrote(m, own, r, va, src);
    } else {
      ReadablePage(m, own, r, va);
      var q := Flat(m, r, PageOf(va)).ppn;
      var m1 := Stored(m, q, OffsetOf(va), [src[0]]);
      FirstWrote(m, own, r, va, src, q, m1);
      WroteUserOnly(m, m1, own, r, va, src, 1);
      var x := OutIs(m1, own, r, va + 1, src[1..], t, ok);
      w := x + 1;
      WroteJoins(m, m1, t, own, r, va, src, x);
      WroteBounded(m1, t, own, r, va + 1, src[1..], x);
      WritableKept(m, m1, own, r, va, src, 1, va + w);
      forall k | va <= k < va + w
        ensures Writable(m, r, k)
      {
        WritableKept(m, m1, own, r, va, src, 1, k);
      }
    }
  }

  lemma {:induction false} WroteBounded(m: Mem, t: Mem, own: seq<Use>, r: nat, va: nat, src: seq<byte>, w: nat)
    requires Wrote(m, t, own, r, va, src, w)
    ensures w <= |src|
  {
  }

  lemma {:induction false} WroteUserOnly(m: Mem, t: Mem, own: seq<Use>, r: nat, va: nat, src: seq<byte>, w: nat)
    requires Wrote(m, t, own, r, va, src, w) && UserOnly(m, r) && UsedAs(own, r, Root)
    ensures UserOnly(t, r)
  {
    hide Flat, PageWrote;
    UserOnlyKept(m, own, t, r);
  }

  /** Seen through the page table: the addresses written hold the bytes given, every other address what it held. */
  lemma {:induction false} WroteBytes(
      m: Mem, t: Mem, own: seq<Use>, r: nat, va: nat, src: seq<byte>, w: nat, a: nat)
    requires Owned(m, own) && UsedAs(own, r, Root) && UserOnly(m, r) && Wrote(m, t, own, r, va, src, w)
    requires Readable(m, r, a)
    ensures Readable(t, r, a)
    ensures ByteAt(t, r, a) == if va <= a < va + w && a - va < |src| then src[a - va] else ByteAt(m, r, a)
  {
    hide Owned, Flat;
    ReadablePage(m, own, r, a);
    var p := Flat(m, r, PageOf(a)).ppn;
    assert PageWrote(m, t, own, r, va, src, w, p);
    Located(PageOf(a), OffsetOf(a), a);
  }

  /** What copyin() does: it delivers the bytes at its addresses, all of them or up to the first unreadable one. */
  lemma {:induction false} InIs(m: Mem, r: nat, va: nat, n: nat)
    ensures var (d, ok) := InBytes(m, r, va, n);
            && |d| <= n && (forall k :: va <= k < va + |d| ==> Readable(m, r, k) && d[k - va] == ByteAt(m, r, k))
            && (ok <==> |d| == n) && (!ok ==> !Readable(m, r, va + |d|))
    decreases n
  {
    hide Readable, ByteAt;
    if n > 0 && Readable(m, r, va) {
      InIs(m, r, va + 1, n - 1);
    }
  }

  lemma {:induction false} InHolds(m: Mem, r: nat, va: nat, d: seq<byte>)
    requires forall k :: va <= k < va + |d| ==> Readable(m, r, k) && ByteAt(m, r, k) == d[k - va]
    ensures InBytes(m, r, va, |d|) == (d, true)
    decreases |d|
  {
    hide Readable, ByteAt;
    if d != [] {
      InHolds(m, r, va + 1, d[1..]);
      assert d == [d[va - va]] + d[1..];
    }
  }

  /** What was copied out is copied in again, if the whole of it went. */
  lemma {:induction false} OutThenIn(m: Mem, own: seq<Use>, r: nat, va: nat, src: seq<byte>, t: Mem)
    requires Owned(m, own) && UsedAs(own, r, Root) && UserOnly(m, r) && (t, true) == OutBytes(m, r, va, src)
    ensures InBytes(t, r, va, |src|) == (src, true)
  {
    hide Owned, Flat, Wrote, UserOnly, OutBytes, InBytes, ByteAt, Readable;
    var w := OutIs(m, own, r, va, src, t, true);
    forall k | va <= k < va + |src|
      ensures Readable(t, r, k) && ByteAt(t, r, k) == src[k - va]
    {
      assert Writable(m, r, k);
      WroteBytes(m, t, own, r, va, src, w, k);
    }
    InHolds(t, r, va, src);
  }
}
