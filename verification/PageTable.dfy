/** Three-level Sv39 page tables (section 4.4 of the RISC-V Privileged Architecture) as kernel/vm.c keeps them, the free
    page list of kernel/kalloc.c, and who uses each physical page. Addresses are page numbers. */
module PageTable {
  import opened Options
  import opened Bytes

  const PGSIZE: nat := 4096
  const MAXPAGE: nat := 0x400_0000   // MAXVA / PGSIZE
  const TRAMPOLINE: nat := 0x3FF_FFFF
  const TRAPFRAME: nat := 0x3FF_FFFE // user pages lie below it

  // The fields of a page-table entry that vm.c uses.
  datatype Pte = Pte(ppn: nat, v: bool, r: bool, w: bool, x: bool, u: bool)

  // A physical page, by use: 512 entries or 4096 bytes.
  datatype Page = Table(ptes: seq<Pte>) | Data(bytes: seq<byte>)

  // free is kmem.freelist, first page first.
  datatype Mem = Mem(pages: seq<Page>, free: seq<nat>)

  // What a physical page is for. Mid(r, i) is the table entry i of root r names, Low(r, i, j) the one its entry j
  // names, Leaf(r, v) the user page r maps at v; Held is everything else in use.
  datatype Use = Free | Held | Root | Mid(r: nat, i: nat) | Low(r: nat, i: nat, j: nat) | Leaf(r: nat, v: nat)

  function Bit(b: bool): nat {
    if b then 1 else 0
  }

  // The low bits: PTE_V, PTE_R, PTE_W, PTE_X, PTE_U.
  function Flags(e: Pte): (f: nat)
    ensures f < 1024
  {
    Bit(e.v) + 2 * Bit(e.r) + 4 * Bit(e.w) + 8 * Bit(e.x) + 16 * Bit(e.u)
  }

  // The 64-bit word: PA2PTE(pa) | flags.
  function Encode(e: Pte): (x: nat) {
    1024 * e.ppn + Flags(e)
  }

  // PTE2PA, PTE_FLAGS and the tests of single bits.
  function Decode(x: nat): (e: Pte) {
    var f := x % 1024;
    Pte(x / 1024, f % 2 == 1, f / 2 % 2 == 1, f / 4 % 2 == 1, f / 8 % 2 == 1, f / 16 % 2 == 1)
  }

  lemma {:induction false} FlagsTell(e: Pte, f: nat)
    requires f == Flags(e)
    ensures f % 2 == Bit(e.v) && f / 2 % 2 == Bit(e.r) && f / 4 % 2 == Bit(e.w)
    ensures f / 8 % 2 == Bit(e.x) && f / 16 % 2 == Bit(e.u)
  {
  }

  lemma {:induction false} SplitWord(q: nat, f: nat, x: nat)
    requires f < 1024 && x == 1024 * q + f
    ensures x / 1024 == q && x % 1024 == f
  {
  }

  /** Entries survive being stored as words. */
  lemma {:induction false} PteRoundTrip(e: Pte)
    ensures Decode(Encode(e)) == e
  {
    SplitWord(e.ppn, Flags(e), Encode(e));
    FlagsTell(e, Flags(e));
    hide Flags, Encode;
  }

  // PX(2, va), PX(1, va), PX(0, va)
  function Hi(v: nat): (i: nat)
    ensures i < 512
  {
    v / 262144 % 512
  }

  function Mi(v: nat): (j: nat)
    ensures j < 512
  {
    v / 512 % 512
  }

  function Lo(v: nat): (k: nat)
    ensures k < 512
  {
    v % 512
  }

  /** Different pages below MAXVA differ in some index. */
  lemma {:induction false} IndicesTell(v: nat, w: nat)
    requires v < MAXPAGE && w < MAXPAGE && Hi(v) == Hi(w) && Mi(v) == Mi(w) && Lo(v) == Lo(w)
    ensures v == w
  {
    PageNoIndices(v);
    PageNoIndices(w);
    hide Hi, Mi, Lo;
  }

  function NoPte(): Pte {
    Pte(0, false, false, false, false, false)
  }

  function Branch(ppn: nat): Pte {
    Pte(ppn, true, false, false, false, false)
  }

  // An entry that freewalk() follows.
  predicate IsBranch(e: Pte) {
    e.v && !e.r && !e.w && !e.x
  }

  predicate IsLeaf(e: Pte) {
    e.v && (e.r || e.w || e.x)
  }

  function BlankTable(): (p: Page)
    ensures p.Table? && |p.ptes| == 512 && forall i :: 0 <= i < 512 ==> p.ptes[i] == NoPte()
  {
    Table(seq(512, _ => NoPte()))
  }

  // Entry i of the table in page p.
  function Entry(m: Mem, p: nat, i: nat): (e: Pte) {
    if p < |m.pages| && m.pages[p].Table? && i < |m.pages[p].ptes| then m.pages[p].ptes[i] else NoPte()
  }

  // The tables on the way to a page, as walk() finds them.
  function MidOf(m: Mem, r: nat, i: nat): (q: Option<nat>) {
    if Entry(m, r, i).v then Some(Entry(m, r, i).ppn) else None
  }

  function LowOf(m: Mem, r: nat, i: nat, j: nat): (q: Option<nat>) {
    if MidOf(m, r, i).None? then None
    else
      var e := Entry(m, MidOf(m, r, i).value, j);
      if e.v then Some(e.ppn) else None
  }

  /** The flat map a table stands for: the entry for page v of root r, or an invalid one. */
  function Flat(m: Mem, r: nat, v: nat): (e: Pte) {
    var t := LowOf(m, r, Hi(v), Mi(v));
    if t.None? then NoPte() else Entry(m, t.value, Lo(v))
  }

  ghost predicate TableAt(m: Mem, p: nat) {
    p < |m.pages| && m.pages[p].Table? && |m.pages[p].ptes| == 512
  }

  ghost predicate UsedAs(own: seq<Use>, p: nat, u: Use) {
    p < |own| && own[p] == u
  }

  // The entries of a root, of a middle and of a low table.
  ghost predicate RootOk(m: Mem, own: seq<Use>, r: nat) {
    && TableAt(m, r)
    && forall i {:trigger Entry(m, r, i)} :: 0 <= i < 512 && Entry(m, r, i).v ==>
         IsBranch(Entry(m, r, i)) && UsedAs(own, Entry(m, r, i).ppn, Mid(r, i))
  }

  ghost predicate MidOk(m: Mem, own: seq<Use>, p: nat, r: nat, i: nat) {
    && TableAt(m, p) && UsedAs(own, r, Root) && i < 256 && MidOf(m, r, i) == Some(p)
    && forall j {:trigger Entry(m, p, j)} :: 0 <= j < 512 && Entry(m, p, j).v ==>
         IsBranch(Entry(m, p, j)) && UsedAs(own, Entry(m, p, j).ppn, Low(r, i, j))
  }

  ghost predicate LowOk(m: Mem, own: seq<Use>, p: nat, r: nat, i: nat, j: nat) {
    && TableAt(m, p) && UsedAs(own, r, Root) && i < 256 && j < 512 && LowOf(m, r, i, j) == Some(p)
    && forall k {:trigger Entry(m, p, k)} :: 0 <= k < 512 && Entry(m, p, k).v ==>
         IsLeaf(Entry(m, p, k))
             && (PageNo(i, j, k) < TRAPFRAME ==> UsedAs(own, Entry(m, p, k).ppn, Leaf(r, PageNo(i, j, k))))
  }

  function PageNo(i: nat, j: nat, k: nat): (v: nat) {
    262144 * i + 512 * j + k
  }

  lemma {:induction false} PageNoIndices(v: nat)
    requires v < MAXPAGE
    ensures PageNo(Hi(v), Mi(v), Lo(v)) == v
  {
    var a := v / 512;
    SplitNumber(v);
    SplitNumber(a);
    DivTwice(v, a, a / 512);
    assert a / 512 < 512;
  }

  lemma {:induction false} HiBelow(v: nat)
    requires v < MAXPAGE
    ensures Hi(v) < 256
  {
  }

  lemma {:induction false} SplitNumber(x: nat)
    ensures x == 512 * (x / 512) + x % 512
  {
  }

  lemma {:induction false} DivTwice(v: nat, a: nat, b: nat)
    requires a == v / 512 && b == a / 512
    ensures v / 262144 == b
  {
    QuotientIs(v, b, v - 262144 * b);
  }

  lemma {:induction false} QuotientIs(x: nat, q: nat, r: int)
    requires x == 262144 * q + r && 0 <= r < 262144
    ensures x / 262144 == q
  {
  }

  lemma {:induction false} IndicesOf(i: nat, j: nat, k: nat)
    requires i < 512 && j < 512 && k < 512
    ensures Hi(PageNo(i, j, k)) == i && Mi(PageNo(i, j, k)) == j && Lo(PageNo(i, j, k)) == k
  {
    assert PageNo(i, j, k) / 512 == 512 * i + j;
    assert PageNo(i, j, k) / 262144 == i;
  }

  ghost predicate LeafOk(m: Mem, p: nat, r: nat, v: nat) {
    && p < |m.pages| && m.pages[p].Data? && |m.pages[p].bytes| == PGSIZE
    && v < TRAPFRAME && Flat(m, r, v).v && Flat(m, r, v).ppn == p
  }

  ghost predicate PageOk(m: Mem, own: seq<Use>, p: nat)
    requires p < |own|
  {
    match own[p]
    case Free => p in m.free
    case Held => true
    case Root => RootOk(m, own, p)
    case Mid(r, i) => MidOk(m, own, p, r, i)
    case Low(r, i, j) => LowOk(m, own, p, r, i, j)
    case Leaf(r, v) => UsedAs(own, r, Root) && LeafOk(m, p, r, v)
  }

  ghost predicate FreeOk(m: Mem, own: seq<Use>) {
    && (forall k :: 0 <= k < |m.free| ==> UsedAs(own, m.free[k], Free) && m.free[k] != 0)
    && (forall j, k :: 0 <= j < k < |m.free| ==> m.free[j] != m.free[k])
  }

  /** Conservation: every physical page has one use and the memory agrees with it. Because own is a function, no page is
      both free and mapped, mapped twice, or used as two tables; because each use points back, none is lost. */
  ghost predicate Owned(m: Mem, own: seq<Use>) {
    && 0 < |own| == |m.pages| && own[0] == Held && FreeOk(m, own) // kalloc() returns 0 for failure
    && forall p {:trigger PageOk(m, own, p)} :: 0 <= p < |own| ==> PageOk(m, own, p)
  }

  /** Distinct pages, of one table or of two, never share an entry. */
  lemma {:induction false} EntriesApart(m: Mem, own: seq<Use>, r: nat, v: nat, s: nat, w: nat)
    requires Owned(m, own) && UsedAs(own, r, Root) && UsedAs(own, s, Root) && v < MAXPAGE && w < MAXPAGE
    requires LowOf(m, r, Hi(v), Mi(v)).Some? && LowOf(m, r, Hi(v), Mi(v)) == LowOf(m, s, Hi(w), Mi(w)) && Lo(v) == Lo(w)
    ensures r == s && v == w
  {
    LowUse(m, own, r, Hi(v), Mi(v));
    LowUse(m, own, s, Hi(w), Mi(w));
    IndicesTell(v, w);
  }

  // The tables walk() finds are in use as such.
  lemma {:induction false} LowUse(m: Mem, own: seq<Use>, r: nat, i: nat, j: nat)
    requires Owned(m, own) && UsedAs(own, r, Root) && i < 512 && j < 512
    ensures MidOf(m, r, i).Some? ==> UsedAs(own, MidOf(m, r, i).value, Mid(r, i)) && TableAt(m, MidOf(m, r, i).value)
    ensures LowOf(m, r, i, j).Some? ==>
              UsedAs(own, LowOf(m, r, i, j).value, Low(r, i, j)) && TableAt(m, LowOf(m, r, i, j).value)
    ensures TableAt(m, r)
  {
    assert PageOk(m, own, r);
    if MidOf(m, r, i).Some? {
      var q := MidOf(m, r, i).value;
      assert PageOk(m, own, q);
      if LowOf(m, r, i, j).Some? {
        assert PageOk(m, own, LowOf(m, r, i, j).value);
      }
    }
  }

  // ---- kalloc() and kfree()

  // The page at the head of the list leaves it, holding what p says.
  function Popped(m: Mem, p: Page): (t: Mem)
    requires 0 < |m.free| && m.free[0] < |m.pages|
  {
    Mem(m.pages[m.free[0] := p], m.free[1..])
  }

  function Pushed(m: Mem, h: nat, p: Page): (t: Mem)
    requires h < |m.pages|
  {
    Mem(m.pages[h := p], [h] + m.free)
  }

  // Tables do not see a page that is none of them change.
  lemma {:induction false} FlatIgnores(m: Mem, own: seq<Use>, t: Mem, h: nat, r: nat, v: nat)
    requires Owned(m, own) && |t.pages| == |m.pages| && h < |m.pages| && UsedAs(own, r, Root)
    requires own[h].Free? || own[h].Held? || own[h].Leaf?
    requires forall p :: 0 <= p < |m.pages| && p != h ==> t.pages[p] == m.pages[p]
    ensures MidOf(t, r, Hi(v)) == MidOf(m, r, Hi(v)) && LowOf(t, r, Hi(v), Mi(v)) == LowOf(m, r, Hi(v), Mi(v))
    ensures Flat(t, r, v) == Flat(m, r, v)
  {
    LowUse(m, own, r, Hi(v), Mi(v));
    hide Owned, Hi, Mi, Lo;
  }

  lemma {:induction false} TablesIgnore(m: Mem, own: seq<Use>, t: Mem, h: nat, r: nat, i: nat, j: nat)
    requires Owned(m, own) && |t.pages| == |m.pages| && h < |m.pages| && UsedAs(own, r, Root) && i < 512 && j < 512
    requires own[h].Free? || own[h].Held? || own[h].Leaf?
    requires forall p :: 0 <= p < |m.pages| && p != h ==> t.pages[p] == m.pages[p]
    ensures MidOf(t, r, i) == MidOf(m, r, i) && LowOf(t, r, i, j) == LowOf(m, r, i, j)
  {
    LowUse(m, own, r, i, j);
    hide Owned;
  }

  // A page in other hands is as it was.
  lemma {:induction false} OthersIgnore(m: Mem, own: seq<Use>, t: Mem, own': seq<Use>, h: nat, p: nat)
    requires Owned(m, own) && |t.pages| == |m.pages| == |own'| && h < |m.pages| && p < |m.pages| && p != h
    requires (own[h].Free? || own[h].Held?) && (own'[h].Free? || own'[h].Held?)
    requires forall q :: 0 <= q < |m.pages| && q != h ==> t.pages[q] == m.pages[q] && own'[q] == own[q]
    requires forall q :: q != h ==> (q in t.free <==> q in m.free)
    ensures PageOk(t, own', p)
  {
    assert PageOk(m, own, p);
    match own[p]
    case Free =>
    case Held =>
    case Root =>
      RootIgnores(m, own, t, own', h, p);
    case Mid(r, i) =>
      TablesIgnore(m, own, t, h, r, i, 0);
      MidIgnores(m, own, t, own', h, p, r, i);
    case Low(r, i, j) =>
      TablesIgnore(m, own, t, h, r, i, j);
      LowIgnores(m, own, t, own', h, p, r, i, j);
    case Leaf(r, v) =>
      FlatIgnores(m, own, t, h, r, v);
  }

  lemma {:induction false} RootIgnores(m: Mem, own: seq<Use>, t: Mem, own': seq<Use>, h: nat, r: nat)
    requires RootOk(m, own, r) && |own'| == |own| == |m.pages| == |t.pages| && r < |own| && r != h < |own|
    requires (own[h].Free? || own[h].Held?)
    requires forall q :: 0 <= q < |m.pages| && q != h ==> t.pages[q] == m.pages[q] && own'[q] == own[q]
    ensures RootOk(t, own', r)
  {
    forall i | 0 <= i < 512 && Entry(t, r, i).v
      ensures IsBranch(Entry(t, r, i)) && UsedAs(own', Entry(t, r, i).ppn, Mid(r, i))
    {
      assert Entry(t, r, i) == Entry(m, r, i);
    }
  }

  lemma {:induction false} MidIgnores(m: Mem, own: seq<Use>, t: Mem, own': seq<Use>, h: nat, p: nat, r: nat, i: nat)
    requires MidOk(m, own, p, r, i) && |own'| == |own| == |m.pages| == |t.pages| && p < |own| && p != h < |own|
    requires (own[h].Free? || own[h].Held?)
    requires forall q :: 0 <= q < |m.pages| && q != h ==> t.pages[q] == m.pages[q] && own'[q] == own[q]
    requires MidOf(t, r, i) == MidOf(m, r, i)
    ensures MidOk(t, own', p, r, i)
  {
    forall j | 0 <= j < 512 && Entry(t, p, j).v
      ensures IsBranch(Entry(t, p, j)) && UsedAs(own', Entry(t, p, j).ppn, Low(r, i, j))
    {
      assert Entry(t, p, j) == Entry(m, p, j);
    }
    hide MidOf;
  }

  lemma {:induction false} LowIgnores(
      m: Mem, own: seq<Use>, t: Mem, own': seq<Use>, h: nat, p: nat, r: nat, i: nat, j: nat)
    requires LowOk(m, own, p, r, i, j) && |own'| == |own| == |m.pages| == |t.pages| && p < |own| && p != h < |own|
    requires own[h].Free? || own[h].Held?
    requires forall q :: 0 <= q < |m.pages| && q != h ==> t.pages[q] == m.pages[q] && own'[q] == own[q]
    requires LowOf(t, r, i, j) == LowOf(m, r, i, j)
    ensures LowOk(t, own', p, r, i, j)
  {
    forall k | 0 <= k < 512 && Entry(t, p, k).v
      ensures IsLeaf(Entry(t, p, k))
      ensures PageNo(i, j, k) < TRAPFRAME ==> UsedAs(own', Entry(t, p, k).ppn, Leaf(r, PageNo(i, j, k)))
    {
      assert Entry(t, p, k) == Entry(m, p, k);
    }
    hide LowOf;
  }

  /** kalloc(): a free page, if there is one, passes into its caller's hands and nothing else changes. */
  lemma {:induction false} PopOwned(m: Mem, own: seq<Use>, page: Page)
    requires Owned(m, own) && 0 < |m.free|
    ensures UsedAs(own, m.free[0], Free) && m.free[0] != 0 && m.free[0] < |m.pages|
    ensures Owned(Popped(m, page), own[m.free[0] := Held])
    ensures forall r, v {:trigger Flat(m, r, v)} :: UsedAs(own, r, Root) ==>
              Flat(Popped(m, page), r, v) == Flat(m, r, v)
  {
    var h := m.free[0];
    var t, own' := Popped(m, page), own[h := Held];
    assert forall q :: q != h ==> (q in t.free <==> q in m.free);
    forall p | 0 <= p < |own|
      ensures PageOk(t, own', p)
    {
      if p != h {
        OthersIgnore(m, own, t, own', h, p);
      }
    }
    forall r: nat, v: nat | UsedAs(own, r, Root)
      ensures Flat(t, r, v) == Flat(m, r, v)
    {
      FlatIgnores(m, own, t, h, r, v);
    }
  }

  /** kfree() of a page in the caller's hands. */
  lemma {:induction false} PushOwned(m: Mem, own: seq<Use>, h: nat, page: Page)
    requires Owned(m, own) && UsedAs(own, h, Held) && h != 0
    ensures h < |m.pages| && Owned(Pushed(m, h, page), own[h := Free])
    ensures forall r, v {:trigger Flat(m, r, v)} :: UsedAs(own, r, Root) ==>
              Flat(Pushed(m, h, page), r, v) == Flat(m, r, v)
  {
    var t, own' := Pushed(m, h, page), own[h := Free];
    assert forall q :: q != h ==> (q in t.free <==> q in m.free);
    assert h in t.free by { assert t.free[0] == h; }
    forall p | 0 <= p < |own|
      ensures PageOk(t, own', p)
    {
      if p != h {
        OthersIgnore(m, own, t, own', h, p);
      }
    }
    forall r: nat, v: nat | UsedAs(own, r, Root)
      ensures Flat(t, r, v) == Flat(m, r, v)
    {
      FlatIgnores(m, own, t, h, r, v);
    }
  }

  // A page in the caller's hands may be filled with anything.
  lemma {:induction false} FillOwned(m: Mem, own: seq<Use>, h: nat, page: Page)
    requires Owned(m, own) && UsedAs(own, h, Held)
    ensures h < |m.pages| && Owned(m.(pages := m.pages[h := page]), own)
    ensures forall r, v {:trigger Flat(m, r, v)} :: UsedAs(own, r, Root) ==>
              Flat(m.(pages := m.pages[h := page]), r, v) == Flat(m, r, v)
  {
    var t := m.(pages := m.pages[h := page]);
    forall p | 0 <= p < |own|
      ensures PageOk(t, own, p)
    {
      if p != h {
        OthersIgnore(m, own, t, own, h, p);
      }
    }
    forall r: nat, v: nat | UsedAs(own, r, Root)
      ensures Flat(t, r, v) == Flat(m, r, v)
    {
      FlatIgnores(m, own, t, h, r, v);
    }
  }

  // ---- writing one entry

  // *pte = e, the entry being number i of page q.
  function Written(m: Mem, q: nat, i: nat, e: Pte): (t: Mem)
    requires q < |m.pages| && m.pages[q].Table? && i < |m.pages[q].ptes|
  {
    m.(pages := m.pages[q := Table(m.pages[q].ptes[i := e])])
  }

  lemma {:induction false} WrittenEntry(m: Mem, q: nat, i: nat, e: Pte, t: Mem, p: nat, k: nat)
    requires q < |m.pages| && m.pages[q].Table? && i < |m.pages[q].ptes| && t == Written(m, q, i, e)
    ensures Entry(t, p, k) == if (p, k) == (q, i) then e else Entry(m, p, k)
    ensures TableAt(t, p) == TableAt(m, p)
  {
  }

  // A new middle table changes no way to a low table.
  lemma {:induction false} GrowMidWays(m: Mem, own: seq<Use>, r: nat, i: nat, h: nat, t: Mem, s: nat, a: nat, b: nat)
    requires Owned(m, own) && UsedAs(own, r, Root) && TableAt(m, r) && i < 256 && !Entry(m, r, i).v
    requires UsedAs(own, h, Held) && 0 < h < |m.pages|
    requires m.pages[h] == BlankTable() && t == Written(m, r, i, Branch(h)) && UsedAs(own, s, Root) && a < 512
    requires b < 512
    ensures MidOf(t, s, a) == if (s, a) == (r, i) then Some(h) else MidOf(m, s, a)
    ensures LowOf(t, s, a, b) == LowOf(m, s, a, b)
  {
    LowUse(m, own, s, a, b);
    WrittenEntry(m, r, i, Branch(h), t, s, a);
    WrittenEntry(m, r, i, Branch(h), t, h, b);
    if MidOf(m, s, a).Some? {
      WrittenEntry(m, r, i, Branch(h), t, MidOf(m, s, a).value, b);
    }
    hide Owned, Written;
  }

  lemma {:induction false} GrowMidPage(m: Mem, own: seq<Use>, r: nat, i: nat, h: nat, t: Mem, own': seq<Use>, p: nat)
    requires Owned(m, own) && UsedAs(own, r, Root) && TableAt(m, r) && i < 256 && !Entry(m, r, i).v
    requires UsedAs(own, h, Held) && 0 < h < |m.pages|
    requires m.pages[h] == BlankTable() && t == Written(m, r, i, Branch(h)) && own' == own[h := Mid(r, i)] && p < |own|
    ensures PageOk(t, own', p)
  {
    assert PageOk(m, own, p) && PageOk(m, own, r);
    forall k: nat
      ensures Entry(t, p, k) == if (p, k) == (r, i) then Branch(h) else Entry(m, p, k)
    {
      WrittenEntry(m, r, i, Branch(h), t, p, k);
    }
    WrittenEntry(m, r, i, Branch(h), t, p, 0);
    if p == h {
      GrowMidWays(m, own, r, i, h, t, r, i, 0);
    } else {
      match own[p]
      case Mid(s, a) => GrowMidWays(m, own, r, i, h, t, s, a, 0);
      case Low(s, a, b) => GrowMidWays(m, own, r, i, h, t, s, a, b);
      case Leaf(s, v) =>
        GrowMidWays(m, own, r, i, h, t, s, Hi(v), Mi(v));
        LowUse(m, own, s, Hi(v), Mi(v));
        FlatFrom(m, t, s, v, r, i, Branch(h));
      case _ =>
    }
    hide Owned, Written, MidOf, LowOf, Hi, Mi, Lo, PageNo;
  }

  // If the way to v's low table is as it was and its entry was not the one written, so is its flat entry.
  lemma {:induction false} FlatFrom(m: Mem, t: Mem, s: nat, v: nat, q: nat, i: nat, e: Pte)
    requires q < |m.pages| && m.pages[q].Table? && i < |m.pages[q].ptes| && t == Written(m, q, i, e)
    requires LowOf(t, s, Hi(v), Mi(v)) == LowOf(m, s, Hi(v), Mi(v))
    requires LowOf(m, s, Hi(v), Mi(v)) == Some(q) ==> Lo(v) != i
    ensures Flat(t, s, v) == Flat(m, s, v)
  {
    if LowOf(m, s, Hi(v), Mi(v)).Some? {
      WrittenEntry(m, q, i, e, t, LowOf(m, s, Hi(v), Mi(v)).value, Lo(v));
    }
    hide LowOf, Written;
  }

  /** walk() adds a middle table: no mapping changes. */
  lemma {:induction false} GrowMid(m: Mem, own: seq<Use>, r: nat, i: nat, h: nat, t: Mem)
    requires Owned(m, own) && UsedAs(own, r, Root) && TableAt(m, r) && i < 256 && !Entry(m, r, i).v
    requires UsedAs(own, h, Held) && 0 < h < |m.pages|
    requires m.pages[h] == BlankTable() && t == Written(m, r, i, Branch(h))
    ensures Owned(t, own[h := Mid(r, i)])
    ensures forall s, v {:trigger Flat(m, s, v)} :: UsedAs(own, s, Root) ==> Flat(t, s, v) == Flat(m, s, v)
  {
    var own' := own[h := Mid(r, i)];
    hide PageOk;
    forall p | 0 <= p < |own'|
      ensures PageOk(t, own', p)
    {
      GrowMidPage(m, own, r, i, h, t, own', p);
    }
    forall s: nat, v: nat | UsedAs(own, s, Root)
      ensures Flat(t, s, v) == Flat(m, s, v)
    {
      GrowMidWays(m, own, r, i, h, t, s, Hi(v), Mi(v));
      LowUse(m, own, s, Hi(v), Mi(v));
      FlatFrom(m, t, s, v, r, i, Branch(h));
    }
  }

  // A new low table.
  lemma {:induction false} GrowLowWays(
      m: Mem, own: seq<Use>, r: nat, i: nat, j: nat, q: nat, h: nat, t: Mem, s: nat, a: nat, b: nat)
    requires Owned(m, own) && UsedAs(own, r, Root) && UsedAs(own, q, Mid(r, i)) && TableAt(m, q) && i < 512 && j < 512
    requires MidOf(m, r, i) == Some(q) && !Entry(m, q, j).v && UsedAs(own, h, Held) && 0 < h < |m.pages|
    requires m.pages[h] == BlankTable() && t == Written(m, q, j, Branch(h)) && UsedAs(own, s, Root) && a < 512
    requires b < 512
    ensures MidOf(t, s, a) == MidOf(m, s, a)
    ensures LowOf(t, s, a, b) == if (s, a, b) == (r, i, j) then Some(h) else LowOf(m, s, a, b)
  {
    LowUse(m, own, s, a, b);
    WrittenEntry(m, q, j, Branch(h), t, s, a);
    if MidOf(m, s, a).Some? {
      WrittenEntry(m, q, j, Branch(h), t, MidOf(m, s, a).value, b);
    }
    hide Owned, Written;
  }

  lemma {:induction false} GrowLowPage(
      m: Mem, own: seq<Use>, r: nat, i: nat, j: nat, q: nat, h: nat, t: Mem, own': seq<Use>, p: nat)
    requires Owned(m, own) && UsedAs(own, r, Root) && UsedAs(own, q, Mid(r, i)) && TableAt(m, q) && i < 512 && j < 512
    requires MidOf(m, r, i) == Some(q) && !Entry(m, q, j).v && UsedAs(own, h, Held) && 0 < h < |m.pages|
    requires m.pages[h] == BlankTable() && t == Written(m, q, j, Branch(h)) && own' == own[h := Low(r, i, j)]
    requires p < |own|
    ensures PageOk(t, own', p)
  {
    assert PageOk(m, own, p) && PageOk(m, own, q);
    forall k: nat
      ensures Entry(t, p, k) == if (p, k) == (q, j) then Branch(h) else Entry(m, p, k)
    {
      WrittenEntry(m, q, j, Branch(h), t, p, k);
    }
    WrittenEntry(m, q, j, Branch(h), t, p, 0);
    if p == h {
      GrowLowWays(m, own, r, i, j, q, h, t, r, i, j);
    } else {
      match own[p]
      case Mid(s, a) => GrowLowWays(m, own, r, i, j, q, h, t, s, a, 0);
      case Low(s, a, b) => GrowLowWays(m, own, r, i, j, q, h, t, s, a, b);
      case Leaf(s, v) => GrowLowFlat(m, own, r, i, j, q, h, t, s, v);
      case _ =>
    }
    hide Owned, Written, MidOf, LowOf, Hi, Mi, Lo, PageNo;
  }

  lemma {:induction false} GrowLowFlat(
      m: Mem, own: seq<Use>, r: nat, i: nat, j: nat, q: nat, h: nat, t: Mem, s: nat, v: nat)
    requires Owned(m, own) && UsedAs(own, r, Root) && UsedAs(own, q, Mid(r, i)) && TableAt(m, q) && i < 512 && j < 512
    requires MidOf(m, r, i) == Some(q) && !Entry(m, q, j).v && UsedAs(own, h, Held) && 0 < h < |m.pages|
    requires m.pages[h] == BlankTable() && t == Written(m, q, j, Branch(h)) && UsedAs(own, s, Root)
    ensures Flat(t, s, v) == Flat(m, s, v)
  {
    GrowLowWays(m, own, r, i, j, q, h, t, s, Hi(v), Mi(v));
    LowUse(m, own, s, Hi(v), Mi(v));
    WrittenEntry(m, q, j, Branch(h), t, h, Lo(v));
    if LowOf(m, s, Hi(v), Mi(v)).Some? {
      WrittenEntry(m, q, j, Branch(h), t, LowOf(m, s, Hi(v), Mi(v)).value, Lo(v));
    }
    hide Owned, Written, Hi, Mi, Lo;
  }

  /** walk() adds a low table: no mapping changes. */
  lemma {:induction false} GrowLow(m: Mem, own: seq<Use>, r: nat, i: nat, j: nat, q: nat, h: nat, t: Mem)
    requires Owned(m, own) && UsedAs(own, r, Root) && UsedAs(own, q, Mid(r, i)) && TableAt(m, q) && i < 512 && j < 512
    requires MidOf(m, r, i) == Some(q) && !Entry(m, q, j).v && UsedAs(own, h, Held) && 0 < h < |m.pages|
    requires m.pages[h] == BlankTable() && t == Written(m, q, j, Branch(h))
    ensures Owned(t, own[h := Low(r, i, j)])
    ensures forall s, v {:trigger Flat(m, s, v)} :: UsedAs(own, s, Root) ==> Flat(t, s, v) == Flat(m, s, v)
  {
    var own' := own[h := Low(r, i, j)];
    hide PageOk;
    forall p | 0 <= p < |own'|
      ensures PageOk(t, own', p)
    {
      GrowLowPage(m, own, r, i, j, q, h, t, own', p);
    }
    forall s: nat, v: nat | UsedAs(own, s, Root)
      ensures Flat(t, s, v) == Flat(m, s, v)
    {
      GrowLowFlat(m, own, r, i, j, q, h, t, s, v);
    }
  }

  // ---- mapping and unmapping one page

  // The entry for page v of root r is number Lo(v) of low table q.
  ghost predicate EntryAt(m: Mem, own: seq<Use>, r: nat, v: nat, q: nat) {
    && UsedAs(own, r, Root) && v < MAXPAGE && LowOf(m, r, Hi(v), Mi(v)) == Some(q)
    && UsedAs(own, q, Low(r, Hi(v), Mi(v))) && TableAt(m, q)
  }

  lemma {:induction false} LeafWays(
      m: Mem, own: seq<Use>, r: nat, v: nat, q: nat, e: Pte, t: Mem, s: nat, a: nat, b: nat)
    requires Owned(m, own) && EntryAt(m, own, r, v, q) && t == Written(m, q, Lo(v), e) && UsedAs(own, s, Root)
    requires a < 512 && b < 512
    ensures MidOf(t, s, a) == MidOf(m, s, a) && LowOf(t, s, a, b) == LowOf(m, s, a, b)
  {
    LowUse(m, own, s, a, b);
    WrittenEntry(m, q, Lo(v), e, t, s, a);
    if MidOf(m, s, a).Some? {
      WrittenEntry(m, q, Lo(v), e, t, MidOf(m, s, a).value, b);
    }
    hide Owned, Written, Lo;
  }

  /** Writing the entry of one page changes the flat map there and nowhere else. */
  lemma {:induction false} LeafFlat(m: Mem, own: seq<Use>, r: nat, v: nat, q: nat, e: Pte, t: Mem, s: nat, w: nat)
    requires Owned(m, own) && EntryAt(m, own, r, v, q) && t == Written(m, q, Lo(v), e) && UsedAs(own, s, Root)
    requires w < MAXPAGE
    ensures Flat(t, s, w) == if (s, w) == (r, v) then e else Flat(m, s, w)
  {
    LeafWays(m, own, r, v, q, e, t, s, Hi(w), Mi(w));
    if LowOf(m, s, Hi(w), Mi(w)).Some? {
      WrittenEntry(m, q, Lo(v), e, t, LowOf(m, s, Hi(w), Mi(w)).value, Lo(w));
      if LowOf(m, s, Hi(w), Mi(w)) == Some(q) && Lo(w) == Lo(v) {
        EntriesApart(m, own, r, v, s, w);
      }
    }
    hide Owned, Written, Hi, Mi, Lo;
  }

  // The use of the page an entry names, before and after.
  ghost function Mapping(own: seq<Use>, r: nat, v: nat, e: Pte): (own': seq<Use>)
    requires v < TRAPFRAME ==> e.ppn < |own|
  {
    if v < TRAPFRAME then own[e.ppn := Leaf(r, v)] else own
  }

  ghost function Unmapping(own: seq<Use>, v: nat, e: Pte): (own': seq<Use>)
    requires v < TRAPFRAME ==> e.ppn < |own|
  {
    if v < TRAPFRAME then own[e.ppn := Held] else own
  }

  ghost predicate CanMap(m: Mem, own: seq<Use>, v: nat, e: Pte) {
    && IsLeaf(e)
    && (v < TRAPFRAME ==>
          && UsedAs(own, e.ppn, Held) && 0 < e.ppn < |m.pages|
          && m.pages[e.ppn].Data? && |m.pages[e.ppn].bytes| == PGSIZE)
  }

  lemma {:induction false} MapLow(m: Mem, own: seq<Use>, r: nat, v: nat, q: nat, e: Pte, t: Mem, own': seq<Use>, p: nat)
    requires Owned(m, own) && EntryAt(m, own, r, v, q) && !Entry(m, q, Lo(v)).v && CanMap(m, own, v, e)
    requires t == Written(m, q, Lo(v), e) && own' == Mapping(own, r, v, e) && p < |own| && own[p].Low?
    ensures PageOk(t, own', p)
  {
    var s, a, b := own[p].r, own[p].i, own[p].j;
    assert PageOk(m, own, p);
    LeafWays(m, own, r, v, q, e, t, s, a, b);
    WrittenEntry(m, q, Lo(v), e, t, p, 0);
    PageNoIndices(v);
    forall k | 0 <= k < 512 && Entry(t, p, k).v
      ensures IsLeaf(Entry(t, p, k))
      ensures (PageNo(a, b, k) < TRAPFRAME ==> UsedAs(own', Entry(t, p, k).ppn, Leaf(s, PageNo(a, b, k))))
    {
      WrittenEntry(m, q, Lo(v), e, t, p, k);
    }
    hide Owned, Written, Hi, Mi, Lo, PageNo, LowOf, MidOf;
  }

  lemma {:induction false} MapPage(
      m: Mem, own: seq<Use>, r: nat, v: nat, q: nat, e: Pte, t: Mem, own': seq<Use>, p: nat)
    requires Owned(m, own) && EntryAt(m, own, r, v, q) && !Entry(m, q, Lo(v)).v && CanMap(m, own, v, e)
    requires t == Written(m, q, Lo(v), e) && own' == Mapping(own, r, v, e) && p < |own|
    ensures PageOk(t, own', p)
  {
    assert PageOk(m, own, p);
    if v < TRAPFRAME && p == e.ppn {
      LeafFlat(m, own, r, v, q, e, t, r, v);
    } else if own[p].Low? {
      MapLow(m, own, r, v, q, e, t, own', p);
    } else {
      forall k: nat
        ensures Entry(t, p, k) == Entry(m, p, k)
      {
        WrittenEntry(m, q, Lo(v), e, t, p, k);
      }
      WrittenEntry(m, q, Lo(v), e, t, p, 0);
      match own[p]
      case Mid(s, a) => LeafWays(m, own, r, v, q, e, t, s, a, 0);
      case Leaf(s, w) => LeafFlat(m, own, r, v, q, e, t, s, w);
      case _ =>
    }
    hide Owned, MidOf, LowOf, Hi, Mi, Lo, PageNo, Flat, Entry;
  }

  /** mappages() of one page: an insertion into the flat map. */
  lemma {:induction false} MapOwned(m: Mem, own: seq<Use>, r: nat, v: nat, q: nat, e: Pte, t: Mem)
    requires Owned(m, own) && EntryAt(m, own, r, v, q) && !Entry(m, q, Lo(v)).v && CanMap(m, own, v, e)
    requires t == Written(m, q, Lo(v), e)
    ensures Owned(t, Mapping(own, r, v, e))
    ensures forall s: nat, w: nat {:trigger Flat(m, s, w)} :: UsedAs(own, s, Root) && w < MAXPAGE ==>
              Flat(t, s, w) == if (s, w) == (r, v) then e else Flat(m, s, w)
  {
    var own' := Mapping(own, r, v, e);
    MapFree(m, own, own', t, e, v);
    hide PageOk, FreeOk;
    forall p | 0 <= p < |own'|
      ensures PageOk(t, own', p)
    {
      MapPage(m, own, r, v, q, e, t, own', p);
    }
    forall s: nat, w: nat | UsedAs(own, s, Root) && w < MAXPAGE
      ensures Flat(t, s, w) == if (s, w) == (r, v) then e else Flat(m, s, w)
    {
      LeafFlat(m, own, r, v, q, e, t, s, w);
    }
  }

  lemma {:induction false} MapFree(m: Mem, own: seq<Use>, own': seq<Use>, t: Mem, e: Pte, v: nat)
    requires FreeOk(m, own) && t.free == m.free && |own'| == |own|
    requires forall p :: 0 <= p < |own| && own[p].Free? ==> own'[p].Free?
    ensures FreeOk(t, own')
  {
  }

  lemma {:induction false} UnmapLow(
      m: Mem, own: seq<Use>, r: nat, v: nat, q: nat, e: Pte, t: Mem, own': seq<Use>, p: nat)
    requires Owned(m, own) && EntryAt(m, own, r, v, q) && e == Entry(m, q, Lo(v)) && e.v
    requires (v < TRAPFRAME ==> UsedAs(own, e.ppn, Leaf(r, v)))
    requires t == Written(m, q, Lo(v), NoPte()) && own' == Unmapping(own, v, e) && p < |own| && own[p].Low?
    ensures PageOk(t, own', p)
  {
    var s, a, b := own[p].r, own[p].i, own[p].j;
    assert PageOk(m, own, p);
    LeafWays(m, own, r, v, q, NoPte(), t, s, a, b);
    WrittenEntry(m, q, Lo(v), NoPte(), t, p, 0);
    PageNoIndices(v);
    forall k | 0 <= k < 512 && Entry(t, p, k).v
      ensures IsLeaf(Entry(t, p, k))
      ensures (PageNo(a, b, k) < TRAPFRAME ==> UsedAs(own', Entry(t, p, k).ppn, Leaf(s, PageNo(a, b, k))))
    {
      WrittenEntry(m, q, Lo(v), NoPte(), t, p, k);
      IndicesOf(a, b, k);
    }
    hide Owned, Written, Hi, Mi, Lo, PageNo, LowOf, MidOf;
  }

  lemma {:induction false} UnmapPage(
      m: Mem, own: seq<Use>, r: nat, v: nat, q: nat, e: Pte, t: Mem, own': seq<Use>, p: nat)
    requires Owned(m, own) && EntryAt(m, own, r, v, q) && e == Entry(m, q, Lo(v)) && e.v
    requires (v < TRAPFRAME ==> UsedAs(own, e.ppn, Leaf(r, v)))
    requires t == Written(m, q, Lo(v), NoPte()) && own' == Unmapping(own, v, e) && p < |own|
    ensures PageOk(t, own', p)
  {
    assert PageOk(m, own, p);
    if own[p].Low? {
      UnmapLow(m, own, r, v, q, e, t, own', p);
    } else {
      forall k: nat
        ensures Entry(t, p, k) == Entry(m, p, k)
      {
        WrittenEntry(m, q, Lo(v), NoPte(), t, p, k);
      }
      WrittenEntry(m, q, Lo(v), NoPte(), t, p, 0);
      match own[p]
      case Mid(s, a) => LeafWays(m, own, r, v, q, NoPte(), t, s, a, 0);
      case Leaf(s, w) =>
        LeafFlat(m, own, r, v, q, NoPte(), t, s, w);
        FlatIs(m, own, r, v, q);
      case _ =>
    }
    hide Owned, MidOf, LowOf, Hi, Mi, Lo, PageNo, Flat, Entry;
  }

  lemma {:induction false} FlatIs(m: Mem, own: seq<Use>, r: nat, v: nat, q: nat)
    requires EntryAt(m, own, r, v, q)
    ensures Flat(m, r, v) == Entry(m, q, Lo(v))
  {
  }

  // What a valid entry of a low table says.
  lemma {:induction false} EntryUse(m: Mem, own: seq<Use>, r: nat, v: nat, q: nat)
    requires Owned(m, own) && EntryAt(m, own, r, v, q) && Entry(m, q, Lo(v)).v
    ensures IsLeaf(Entry(m, q, Lo(v))) && (v < TRAPFRAME ==> UsedAs(own, Entry(m, q, Lo(v)).ppn, Leaf(r, v)))
  {
    assert PageOk(m, own, q);
    PageNoIndices(v);
    hide Owned, Hi, Mi, Lo, PageNo;
  }

  /** uvmunmap() of one page: a removal from the flat map; a user page passes into the caller's hands. */
  lemma {:induction false} UnmapOwned(m: Mem, own: seq<Use>, r: nat, v: nat, q: nat, e: Pte, t: Mem)
    requires Owned(m, own) && EntryAt(m, own, r, v, q) && e == Entry(m, q, Lo(v)) && e.v
    requires t == Written(m, q, Lo(v), NoPte())
    ensures v < TRAPFRAME ==> UsedAs(own, e.ppn, Leaf(r, v))
    ensures Owned(t, Unmapping(own, v, e))
    ensures forall s: nat, w: nat {:trigger Flat(m, s, w)} :: UsedAs(own, s, Root) && w < MAXPAGE ==>
              Flat(t, s, w) == if (s, w) == (r, v) then NoPte() else Flat(m, s, w)
  {
    EntryUse(m, own, r, v, q);
    var own' := Unmapping(own, v, e);
    MapFree(m, own, own', t, e, v);
    hide PageOk, FreeOk;
    forall p | 0 <= p < |own'|
      ensures PageOk(t, own', p)
    {
      UnmapPage(m, own, r, v, q, e, t, own', p);
    }
    forall s: nat, w: nat | UsedAs(own, s, Root) && w < MAXPAGE
      ensures Flat(t, s, w) == if (s, w) == (r, v) then NoPte() else Flat(m, s, w)
    {
      LeafFlat(m, own, r, v, q, NoPte(), t, s, w);
    }
  }
}
