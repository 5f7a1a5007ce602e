/** The user half of kernel/vm.c as it runs: page tables are changed in place and physical pages move between the free
    list, the tables and the process. */
module Uvm {
  import opened Options
  import opened Bytes
  import opened PageTable
  import opened UserCopy

  // From m to t no mapping changed, and no page that was mapped or in the caller's hands.
  ghost predicate SameMaps(m: Mem, own: seq<Use>, t: Mem, own': seq<Use>) {
    && |own| == |m.pages| == |t.pages| == |own'|
    && (forall s {:trigger UsedAs(own', s, Root)} :: UsedAs(own, s, Root) ==> UsedAs(own', s, Root))
    && (forall s: nat, w: nat {:trigger Flat(t, s, w)} :: UsedAs(own, s, Root) && w < MAXPAGE ==>
          Flat(t, s, w) == Flat(m, s, w))
    && (forall p :: 0 <= p < |own| && (own[p].Leaf? || own[p].Held?) ==> own'[p] == own[p] && t.pages[p] == m.pages[p])
  }

  lemma {:induction false} SameMapsJoin(m: Mem, own: seq<Use>, t: Mem, own1: seq<Use>, u: Mem, own2: seq<Use>)
    requires SameMaps(m, own, t, own1) && SameMaps(t, own1, u, own2)
    ensures SameMaps(m, own, u, own2)
  {
    forall s: nat, w: nat | UsedAs(own, s, Root) && w < MAXPAGE
      ensures Flat(u, s, w) == Flat(m, s, w)
    {
      assert UsedAs(own1, s, Root);
      assert Flat(t, s, w) == Flat(m, s, w);
    }
    forall s: nat | UsedAs(own, s, Root)
      ensures UsedAs(own2, s, Root)
    {
      assert UsedAs(own1, s, Root);
    }
  }

  function Junk(x: byte): (p: Page)
    ensures p.Data? && |p.bytes| == PGSIZE
  {
    Data(seq(PGSIZE, _ => x))
  }

  lemma {:induction false} PopSame(m: Mem, own: seq<Use>, page: Page)
    requires Owned(m, own) && 0 < |m.free|
    ensures UsedAs(own, m.free[0], Free) && m.free[0] != 0 && m.free[0] < |m.pages|
    ensures Owned(Popped(m, page), own[m.free[0] := Held])
    ensures SameMaps(m, own, Popped(m, page), own[m.free[0] := Held])
  {
    PopOwned(m, own, page);
    hide Owned, Flat;
  }

  // What walk() must find at each level: the root, the middle table and the low table for page v.
  ghost predicate TableFor(m: Mem, own: seq<Use>, r: nat, v: nat, level: nat, p: nat) {
    if level == 2 then p == r && UsedAs(own, r, Root) && TableAt(m, r)
    else if level == 1 then UsedAs(own, r, Root) && MidOf(m, r, Hi(v)) == Some(p) && UsedAs(own, p, Mid(r, Hi(v)))
        && TableAt(m, p)
    else EntryAt(m, own, r, v, p)
  }

  function Px(level: nat, v: nat): (i: nat)
    ensures i < 512
  {
    if level == 2 then Hi(v) else if level == 1 then Mi(v) else Lo(v)
  }

  // The next table down is there.
  lemma {:induction false} Descends(m: Mem, own: seq<Use>, r: nat, v: nat, level: nat, p: nat)
    requires Owned(m, own) && v < MAXPAGE && 1 <= level <= 2 && TableFor(m, own, r, v, level, p)
    requires Entry(m, p, Px(level, v)).v
    ensures TableFor(m, own, r, v, level - 1, Entry(m, p, Px(level, v)).ppn)
  {
    LowUse(m, own, r, Hi(v), Mi(v));
    hide Owned, Hi, Mi, Lo;
  }

  // The next table down is made from page h.
  lemma {:induction false} Extends(
      m: Mem, own: seq<Use>, r: nat, v: nat, level: nat, p: nat, h: nat, t: Mem)
    returns (own': seq<Use>)
    requires Owned(m, own) && v < MAXPAGE && 1 <= level <= 2 && TableFor(m, own, r, v, level, p)
    requires !Entry(m, p, Px(level, v)).v
    requires UsedAs(own, h, Held) && 0 < h < |m.pages| && m.pages[h] == BlankTable()
    requires t == Written(m, p, Px(level, v), Branch(h))
    ensures Owned(t, own') && TableFor(t, own', r, v, level - 1, h)
    ensures own' == own[h := own'[h]] && |own'| == |own| && !own'[h].Root?
    ensures SameExcept(m, own, t, own', h)
  {
    HiBelow(v);
    if level == 2 {
      GrowMid(m, own, r, Hi(v), h, t);
      own' := own[h := Mid(r, Hi(v))];
    } else {
      GrowLow(m, own, r, Hi(v), Mi(v), p, h, t);
      own' := own[h := Low(r, Hi(v), Mi(v))];
    }
    WrittenEntry(m, p, Px(level, v), Branch(h), t, p, Px(level, v));
    WrittenEntry(m, p, Px(level, v), Branch(h), t, r, Hi(v));
    hide Owned, Hi, Mi, Lo, Flat;
  }

  // SameMaps but for page h, which the caller gave.
  ghost predicate SameExcept(m: Mem, own: seq<Use>, t: Mem, own': seq<Use>, h: nat) {
    && |own| == |m.pages| == |t.pages| == |own'|
    && (forall s {:trigger UsedAs(own', s, Root)} :: UsedAs(own, s, Root) ==> UsedAs(own', s, Root))
    && (forall s: nat, w: nat {:trigger Flat(t, s, w)} :: UsedAs(own, s, Root) && w < MAXPAGE ==>
          Flat(t, s, w) == Flat(m, s, w))
    && (forall p :: 0 <= p < |own| && p != h && (own[p].Leaf? || own[p].Held?) ==>
          own'[p] == own[p] && t.pages[p] == m.pages[p])
  }

  // Taking a free page for a new table leaves the maps alone.
  lemma {:induction false} TakeThenExtend(m: Mem, own: seq<Use>, t: Mem, own1: seq<Use>, u: Mem, own2: seq<Use>, h: nat)
    requires SameMaps(m, own, t, own1) && SameExcept(t, own1, u, own2, h) && UsedAs(own, h, Free)
    ensures SameMaps(m, own, u, own2)
  {
    forall s: nat, w: nat | UsedAs(own, s, Root) && w < MAXPAGE
      ensures Flat(u, s, w) == Flat(m, s, w)
    {
      assert UsedAs(own1, s, Root);
      assert Flat(t, s, w) == Flat(m, s, w);
    }
    forall s: nat | UsedAs(own, s, Root)
      ensures UsedAs(own2, s, Root)
    {
      assert UsedAs(own1, s, Root);
    }
  }

  // Entry e was inserted at page v of r; every page mapped or in the caller's hands holds what it held.
  ghost predicate Inserts(m: Mem, own: seq<Use>, t: Mem, own': seq<Use>, r: nat, v: nat, e: Pte) {
    && |own| == |m.pages| == |t.pages| == |own'|
    && (forall s {:trigger UsedAs(own', s, Root)} :: UsedAs(own, s, Root) ==> UsedAs(own', s, Root))
    && (forall s: nat, w: nat {:trigger Flat(t, s, w)} :: UsedAs(own, s, Root) && w < MAXPAGE ==>
          Flat(t, s, w) == if (s, w) == (r, v) then e else Flat(m, s, w))
    && (forall p :: 0 <= p < |own| && (own[p].Leaf? || own[p].Held?) ==>
          t.pages[p] == m.pages[p] && own'[p] == if v < TRAPFRAME && p == e.ppn then Leaf(r, v) else own[p])
  }

  lemma {:induction false} SameThenInsert(
      m: Mem, own: seq<Use>, t: Mem, own1: seq<Use>, r: nat, v: nat, q: nat, e: Pte, u: Mem)
    requires Owned(t, own1) && SameMaps(m, own, t, own1) && EntryAt(t, own1, r, v, q) && !Entry(t, q, Lo(v)).v
    requires CanMap(m, own, v, e)
    requires UsedAs(own, r, Root) && u == Written(t, q, Lo(v), e)
    ensures CanMap(t, own1, v, e) && Owned(u, Mapping(own1, r, v, e))
    ensures Inserts(m, own, u, Mapping(own1, r, v, e), r, v, e)
    ensures !Flat(m, r, v).v
  {
    FlatIs(t, own1, r, v, q);
    MapOwned(t, own1, r, v, q, e, u);
    hide Owned, Flat, Hi, Mi, Lo, LowOf;
    var own2 := Mapping(own1, r, v, e);
    forall s: nat, w: nat | UsedAs(own, s, Root) && w < MAXPAGE
      ensures Flat(u, s, w) == if (s, w) == (r, v) then e else Flat(m, s, w)
    {
      assert UsedAs(own1, s, Root);
      assert Flat(t, s, w) == Flat(m, s, w);
    }
    forall s: nat | UsedAs(own, s, Root)
      ensures UsedAs(own2, s, Root)
    {
      assert UsedAs(own1, s, Root);
    }
  }

  // A page mappages() may be given.
  ghost predicate PageToMap(m: Mem, own: seq<Use>, p: nat) {
    UsedAs(own, p, Held) && 0 < p < |m.pages| && m.pages[p].Data? && |m.pages[p].bytes| == PGSIZE
  }

  // The n pages from pa were inserted at pages v, v + 1, ... of r.
  ghost predicate InsertsMany(
      m: Mem, own: seq<Use>, t: Mem, own': seq<Use>, r: nat, v: nat, n: nat, pa: nat, perm: Pte)
  {
    && |own| == |m.pages| == |t.pages| == |own'|
    && (forall s {:trigger UsedAs(own', s, Root)} :: UsedAs(own, s, Root) ==> UsedAs(own', s, Root))
    && (forall s: nat, w: nat {:trigger Flat(t, s, w)} :: UsedAs(own, s, Root) && w < MAXPAGE ==>
          Flat(t, s, w) == if s == r && v <= w < v + n then perm.(ppn := pa + (w - v), v := true) else Flat(m, s, w))
    && (forall p :: 0 <= p < |own| && (own[p].Leaf? || own[p].Held?) ==>
          && t.pages[p] == m.pages[p]
          && own'[p] == if pa <= p < pa + n && v + (p - pa) < TRAPFRAME then Leaf(r, v + (p - pa)) else own[p])
  }

  // User page p of r is among pages v .. v + n - 1.
  predicate Among(u: Use, r: nat, v: nat, n: nat) {
    u.Leaf? && u.r == r && v <= u.v < v + n
  }

  // Pages v .. v + n - 1 of r were removed; the user pages went to the free list or into the caller's hands.
  ghost predicate Removes(m: Mem, own: seq<Use>, t: Mem, own': seq<Use>, r: nat, v: nat, n: nat, dofree: bool) {
    && |own| == |m.pages| == |t.pages| == |own'|
    && (forall s: nat, w: nat {:trigger Flat(t, s, w)} :: UsedAs(own, s, Root) && w < MAXPAGE ==>
          Flat(t, s, w) == if s == r && v <= w < v + n then NoPte() else Flat(m, s, w))
    && (forall p :: 0 <= p < |own| ==>
          own'[p] == if Among(own[p], r, v, n) && own[p].v < TRAPFRAME then (if dofree then Free else Held) else own[p])
    && (forall p :: 0 <= p < |own| && !own[p].Free? && !Among(own[p], r, v, n) && !(own[p].Low? && own[p].r == r) ==>
          t.pages[p] == m.pages[p])
  }

  // PGROUNDUP(sz) / PGSIZE
  function Up(sz: nat): (n: nat) {
    (sz + 4095) / 4096
  }

  // The user pages of r are exactly those below n.
  ghost predicate UserPages(m: Mem, r: nat, n: nat) {
    forall v :: 0 <= v < TRAPFRAME ==> (Flat(m, r, v).v <==> v < n)
  }

  // The same mapping, or none in both.
  predicate Alike(e: Pte, f: Pte) {
    e == f || (!e.v && !f.v)
  }

  // What a new page should be: its permissions and its contents.
  datatype Want = Want(perm: Pte, page: Page)

  // A page that has been added as wanted.
  ghost predicate Fresh(m: Mem, r: nat, w: nat, f: nat -> Want) {
    var e := Flat(m, r, w);
    && e == f(w).perm.(ppn := e.ppn, v := true)
    && e.ppn < |m.pages| && m.pages[e.ppn] == f(w).page
  }

  function ZeroPage(): (p: Page)
    ensures p.Data? && |p.bytes| == PGSIZE && forall k :: 0 <= k < PGSIZE ==> p.bytes[k] == 0
  {
    Data(seq(PGSIZE, _ => 0))
  }

  // r has grown from n0 to n user pages; every other mapping, and every page mapped or held before, is as it was.
  ghost predicate Grows(m: Mem, own: seq<Use>, t: Mem, own': seq<Use>, r: nat, n0: nat, n: nat, f: nat -> Want) {
    && |own| == |m.pages| == |t.pages| == |own'| && UserPages(t, r, n)
    && (forall s {:trigger UsedAs(own', s, Root)} :: UsedAs(own, s, Root) ==> UsedAs(own', s, Root))
    && (forall s: nat, w: nat {:trigger Flat(t, s, w)} ::
          UsedAs(own, s, Root) && w < MAXPAGE && !(s == r && n0 <= w < n) ==> Alike(Flat(t, s, w), Flat(m, s, w)))
    && (forall w {:trigger Fresh(t, r, w, f)} :: n0 <= w < n ==> Fresh(t, r, w, f))
    && (forall p :: 0 <= p < |own| && (own[p].Leaf? || own[p].Held?) ==> own'[p] == own[p] && t.pages[p] == m.pages[p])
  }

  // uvmalloc()'s pages.
  ghost function Zeroed(xperm: Pte): (f: nat -> Want) {
    _ => Want(xperm.(r := true, u := true), ZeroPage())
  }

  // uvmcopy()'s pages: those of root r in m.
  ghost function CopyOf(m: Mem, r: nat): (f: nat -> Want) {
    (w: nat) => Want(Flat(m, r, w), if Flat(m, r, w).ppn < |m.pages| then m.pages[Flat(m, r, w).ppn] else ZeroPage())
  }

  datatype MapResult = Mapped | NoMemory | Remap

  class Vm {
    var pages: seq<Page>
    var free: seq<nat>

    function M(): (m: Mem)
      reads this
    {
      Mem(pages, free)
    }

    /** kalloc(): the first free page, in the caller's hands and filled with junk; 0 if there is none. */
    method Kalloc(ghost own: seq<Use>) returns (h: nat, ghost own': seq<Use>)
      requires Owned(M(), own)
      modifies this
      ensures Owned(M(), own') && SameMaps(old(M()), own, M(), own')
      ensures old(free) == [] ==> h == 0 && M() == old(M()) && own' == own
      ensures old(free) != [] ==>
                && h == old(free)[0] != 0 && UsedAs(own, h, Free) && own' == own[h := Held]
                && M() == Popped(old(M()), Junk(5))
    {
      if free == [] {
        return 0, own;
      }
      PopSame(M(), own, Junk(5));
      h, own' := free[0], own[free[0] := Held];
      free := free[1..];
      pages := pages[h := Junk(5)];
    }

    // kfree()
    method Kfree(h: nat)
      requires h < |pages|
      modifies this
      ensures M() == Pushed(old(M()), h, Junk(1))
    {
      pages := pages[h := Junk(1)];
      free := [h] + free;
    }

    // A fresh table: kalloc() and memset() to zero.
    method NewTable(ghost own: seq<Use>) returns (h: nat, ghost own': seq<Use>)
      requires Owned(M(), own)
      modifies this
      ensures Owned(M(), own') && SameMaps(old(M()), own, M(), own')
      ensures old(free) == [] ==> h == 0 && M() == old(M()) && own' == own
      ensures old(free) != [] ==>
                && h == old(free)[0] != 0 && UsedAs(own, h, Free) && own' == own[h := Held]
                && M() == Popped(old(M()), BlankTable())
    {
      if free != [] {
        PopSame(M(), own, BlankTable());
      }
      h, own' := Kalloc(own);
      if h != 0 {
        pages := pages[h := BlankTable()];
        assert M() == Popped(old(M()), BlankTable());
      }
    }

    /** walk(): the low table holding the entry for page v. Without alloc nothing changes and None means a missing
        table; with alloc missing tables are made, no mapping changes, and None means that memory ran out. */
    method Walk(r: nat, v: nat, alloc: bool, ghost own: seq<Use>) returns (q: Option<nat>, ghost own': seq<Use>)
      requires Owned(M(), own) && UsedAs(own, r, Root) && v < MAXPAGE
      modifies this
      ensures Owned(M(), own') && SameMaps(old(M()), own, M(), own')
      ensures q.Some? ==> EntryAt(M(), own', r, v, q.value)
      ensures !alloc ==> M() == old(M()) && own' == own && q == LowOf(M(), r, Hi(v), Mi(v))
      ensures alloc && q.None? ==> free == [] && |old(free)| <= 1
      ensures |old(free)| <= |free| + 2
    {
      hide Owned, Written, MidOf, LowOf, Flat, SameExcept, SameMaps, Hi, Mi, Lo, EntryAt;
      StartsAtRoot(M(), own, r, v);
      var level, p := 2, r;
      own' := own;
      while level > 0
        invariant 0 <= level <= 2 && Owned(M(), own') && TableFor(M(), own', r, v, level, p)
        invariant SameMaps(old(M()), own, M(), own')
        invariant (!alloc ==> M() == old(M()) && own' == own) && |old(free)| <= |free| + 2 - level
      {
        TableForAt(M(), own', r, v, level, p);
        var e := pages[p].ptes[Px(level, v)];
        if e.v {
          Descends(M(), own', r, v, level, p);
          p := e.ppn;
        } else {
          if !alloc {
            NoTable(M(), own', r, v, level, p);
            return None, own';
          }
          ghost var m0, own0 := M(), own';
          var h;
          h, own' := NewTable(own');
          if h == 0 {
            return None, own';
          }
          PopTables(m0, own0, BlankTable(), r, v, level, p);
          ghost var m1, own1 := M(), own';
          pages := pages[p := Table(pages[p].ptes[Px(level, v) := Branch(h)])];
          assert M() == Written(m1, p, Px(level, v), Branch(h)) by { WrittenIs(m1, p, Px(level, v), Branch(h), M()); }
          own' := Extends(m1, own1, r, v, level, p, h, M());
          TakeThenExtend(m0, own0, m1, own1, M(), own', h);
          SameMapsJoin(old(M()), own, m0, own0, M(), own');
          p := h;
        }
        level := level - 1;
      }
      FoundLow(M(), own', r, v, p);
      q := Some(p);
    }

    // One turn of mappages().
    method MapOne(r: nat, v: nat, e: Pte, ghost own: seq<Use>) returns (res: MapResult, ghost own': seq<Use>)
      requires Owned(M(), own) && UsedAs(own, r, Root) && v < MAXPAGE && CanMap(M(), own, v, e)
      modifies this
      ensures Owned(M(), own')
      ensures res.Mapped? ==> !Flat(old(M()), r, v).v && Inserts(old(M()), own, M(), own', r, v, e)
      ensures !res.Mapped? ==> SameMaps(old(M()), own, M(), own')
      ensures res.NoMemory? ==> free == [] && |old(free)| <= 1
      ensures res.Remap? ==> Flat(old(M()), r, v).v
      ensures |old(free)| <= |free| + 2
    {
      hide Owned, Written, LowOf, Flat, SameMaps, Hi, Mi, Lo, Inserts;
      var q;
      q, own' := Walk(r, v, true, own);
      if q.None? {
        return NoMemory, own';
      }
      ghost var m1, own1 := M(), own';
      EntryThere(m1, own1, r, v, q.value);
      if pages[q.value].ptes[Lo(v)].v {
        SameFlat(old(M()), own, m1, own1, r, v);
        return Remap, own1;
      }
      pages := pages[q.value := Table(pages[q.value].ptes[Lo(v) := e])];
      assert M() == Written(m1, q.value, Lo(v), e) by { WrittenIs(m1, q.value, Lo(v), e, M()); }
      SameThenInsert(old(M()), own, m1, own1, r, v, q.value, e, M());
      return Mapped, Mapping(own1, r, v, e);
    }

    /** mappages(): the n pages from pa are inserted at v, v + 1, ... in order; it stops at the first that does not fit,
        the ones before it staying mapped. */
    method MapPages(r: nat, v: nat, n: nat, pa: nat, perm: Pte, ghost own: seq<Use>)
      returns (res: MapResult, ghost done: nat, ghost own': seq<Use>)
      requires Owned(M(), own) && UsedAs(own, r, Root) && 0 < n && v + n <= MAXPAGE && (perm.r || perm.w || perm.x)
      requires forall p :: pa <= p < pa + n && v + (p - pa) < TRAPFRAME ==> PageToMap(M(), own, p)
      modifies this
      ensures Owned(M(), own') && done <= n && (res.Mapped? <==> done == n)
      ensures InsertsMany(old(M()), own, M(), own', r, v, done, pa, perm)
      ensures res.NoMemory? ==> free == [] && |old(free)| <= 2 * done + 1
      ensures res.Remap? ==> Flat(old(M()), r, v + done).v
      ensures |old(free)| <= |free| + 2 * n
    {
      hide Owned, Flat, Inserts, InsertsMany, SameMaps, PageToMap;
      InsertsNone(M(), own, r, v, pa, perm);
      own', done := own, 0;
      var a := 0;
      while a < n
        invariant a <= n && done == a && Owned(M(), own') && UsedAs(own', r, Root)
        invariant InsertsMany(old(M()), own, M(), own', r, v, a, pa, perm) && |old(free)| <= |free| + 2 * a
      {
        var e := perm.(ppn := pa + a, v := true);
        ghost var m1, own1 := M(), own';
        StillToMap(old(M()), own, m1, own1, r, v, a, n, pa, perm);
        res, own' := MapOne(r, v + a, e, own');
        if !res.Mapped? {
          InsertsThenSame(old(M()), own, m1, own1, M(), own', r, v, a, pa, perm);
          if res.Remap? {
            InsertsFlat(old(M()), own, m1, own1, r, v, a, pa, perm, v + a);
          }
          return;
        }
        InsertsNext(old(M()), own, m1, own1, M(), own', r, v, a, pa, perm);
        a := a + 1;
        done := a;
      }
      res := Mapped;
    }

    // One turn of uvmunmap().
    method UnmapOne(r: nat, v: nat, dofree: bool, ghost own: seq<Use>) returns (panic: bool, ghost own': seq<Use>)
      requires Owned(M(), own) && UsedAs(own, r, Root) && v < MAXPAGE && (dofree ==> v < TRAPFRAME)
      modifies this
      ensures Owned(M(), own') && (panic <==> !Flat(old(M()), r, v).v)
      ensures panic ==> M() == old(M()) && own' == own
      ensures !panic ==> Removes(old(M()), own, M(), own', r, v, 1, dofree)
    {
      hide Owned, Written, LowOf, Flat, Hi, Mi, Lo, Removes, EntryAt;
      ghost var m := M();
      var q;
      q, own' := Walk(r, v, false, own);
      if q.None? {
        NoLowNoFlat(m, r, v);
        return true, own;
      }
      EntryThere(m, own, r, v, q.value);
      var e := pages[q.value].ptes[Lo(v)];
      if !e.v {
        return true, own;
      }
      EntryUse(m, own, r, v, q.value);
      if !e.r && !e.w && !e.x && !e.u {
        return true, own;
      }
      UnmapEffect(m, own, r, v, q.value, e, dofree);
      if dofree {
        Kfree(e.ppn);
        PushedPage(m, e.ppn, Junk(1), q.value);
      }
      pages := pages[q.value := Table(pages[q.value].ptes[Lo(v) := NoPte()])];
      own' := if dofree then own[e.ppn := Free] else Unmapping(own, v, e);
      UnmapOrder(m, q.value, Lo(v), e.ppn, dofree, M());
      return false, own';
    }

    /** uvmunmap(): a removal of n pages; it panics exactly when one of them is not mapped. With dofree each page goes
        back on the free list. */
    method UvmUnmap(
        r: nat, v: nat, n: nat, dofree: bool, ghost own: seq<Use>)
      returns (panic: bool, ghost own': seq<Use>)
      requires Owned(M(), own) && UsedAs(own, r, Root) && v + n <= MAXPAGE && (dofree ==> v + n <= TRAPFRAME)
      modifies this
      ensures Owned(M(), own') && UsedAs(own', r, Root)
      ensures panic <==> exists w :: v <= w < v + n && !Flat(old(M()), r, w).v
      ensures !panic ==> Removes(old(M()), own, M(), own', r, v, n, dofree)
    {
      hide Owned, Flat, Removes, UsedAs;
      ghost var m := M();
      RemovesNone(m, own, r, v, dofree);
      own' := own;
      var a := 0;
      while a < n
        invariant a <= n && Owned(M(), own') && UsedAs(own', r, Root)
        invariant Removes(m, own, M(), own', r, v, a, dofree)
        invariant forall w :: v <= w < v + a ==> Flat(m, r, w).v
      {
        ghost var m1, own1 := M(), own';
        RemovesFlat(m, own, m1, own1, r, v, a, dofree, v + a);
        panic, own' := UnmapOne(r, v + a, dofree, own');
        if panic {
          return;
        }
        RemovesNext(m, own, m1, own1, M(), own', r, v, a, dofree);
        a := a + 1;
      }
      panic := false;
    }

    /** uvmdealloc(): afterwards the user pages are exactly those below the new size, the others back on the free
        list. */
    method UvmDealloc(
        r: nat, oldsz: nat, newsz: nat, ghost own: seq<Use>)
      returns (ret: nat, panic: bool, ghost own': seq<Use>)
      requires Owned(M(), own) && UsedAs(own, r, Root) && UserPages(M(), r, Up(oldsz)) && Up(oldsz) <= TRAPFRAME
      modifies this
      ensures !panic && ret == (if oldsz <= newsz then oldsz else newsz) && Owned(M(), own') && UsedAs(own', r, Root)
      ensures UserPages(M(), r, Up(ret)) && Removes(old(M()), own, M(), own', r, Up(ret), Up(oldsz) - Up(ret), true)
    {
      hide Owned, Flat, Removes;
      own', panic := own, false;
      RemovesNone(M(), own, r, Up(oldsz), true);
      if oldsz <= newsz {
        return oldsz, false, own;
      }
      UpOrder(newsz, oldsz);
      if Up(newsz) < Up(oldsz) {
        assert forall w :: Up(newsz) <= w < Up(newsz) + (Up(oldsz) - Up(newsz)) ==> Flat(M(), r, w).v;
        panic, own' := UvmUnmap(r, Up(newsz), Up(oldsz) - Up(newsz), true, own);
        RemovesTop(old(M()), own, M(), own', r, Up(newsz), Up(oldsz));
      }
      return newsz, panic, own';
    }

    /** uvmalloc(): on success the user pages are exactly those below the new size, the new ones zeroed and with the
        asked permissions, the old ones untouched; on failure (0) every mapping is as before. It cannot fail with three
        free pages for each page asked for. No panic is reachable. */
    method UvmAlloc(r: nat, oldsz: nat, newsz: nat, xperm: Pte, ghost own: seq<Use>)
      returns (ret: nat, ok: bool, panic: bool, ghost own': seq<Use>)
      requires Owned(M(), own) && UsedAs(own, r, Root) && UserPages(M(), r, Up(oldsz)) && |pages| <= TRAPFRAME
      modifies this
      ensures !panic && Owned(M(), own') && UsedAs(own', r, Root)
      ensures ok ==> ret == if newsz < oldsz then oldsz else newsz
      ensures ok ==>
                Grows(old(M()), own, M(), own', r, Up(oldsz), if newsz < oldsz then Up(oldsz) else Up(newsz),
                    Zeroed(xperm))
      ensures !ok ==> ret == 0 && Grows(old(M()), own, M(), own', r, Up(oldsz), Up(oldsz), Zeroed(xperm))
      ensures !ok ==> oldsz <= newsz && |old(free)| < 3 * (Up(newsz) - Up(oldsz))
    {
      hide Owned, Flat, Grows, Removes, UserPages;
      ghost var f := Zeroed(xperm);
      GrowsNone(M(), own, r, Up(oldsz), f);
      own', panic, ok, ret := own, false, false, 0;
      if newsz < oldsz {
        return oldsz, true, false, own;
      }
      UpOrder(oldsz, newsz);
      BelowTop(M(), own, r, Up(oldsz));
      var a := Up(oldsz);
      while a * 4096 < newsz
        invariant Up(oldsz) <= a && (a == Up(oldsz) || (a - 1) * 4096 < newsz) && Owned(M(), own')
        invariant UsedAs(own', r, Root)
        invariant Grows(old(M()), own, M(), own', r, Up(oldsz), a, f)
        invariant |pages| == |old(pages)| && |old(free)| <= |free| + 3 * (a - Up(oldsz))
        decreases newsz - a * 4096
      {
        var done;
        done, panic, own' := GrowOne(r, a, xperm.(r := true, u := true), ZeroPage(), f, own', old(M()), own, Up(oldsz));
        if panic {
          return;
        }
        if !done {
          UpAbove(newsz, a);
          panic, own' := Undo(r, Up(oldsz), a, f, own', old(M()), own);
          return;
        }
        a := a + 1;
      }
      UpIs(newsz, a);
      return newsz, true, false, own';
    }

    // One turn of the loops of uvmalloc() and uvmcopy().
    method GrowOne(
        r: nat, a: nat, perm: Pte, page: Page, ghost f: nat -> Want, ghost own: seq<Use>, ghost m0: Mem,
        ghost own0: seq<Use>, ghost n0: nat)
      returns (done: bool, panic: bool, ghost own': seq<Use>)
      requires Owned(M(), own) && UsedAs(own, r, Root) && n0 <= a && |pages| <= TRAPFRAME && UsedAs(own0, r, Root)
      requires Grows(m0, own0, M(), own, r, n0, a, f) && f(a) == Want(perm, page)
      requires (perm.r || perm.w || perm.x) && page.Data? && |page.bytes| == PGSIZE
      modifies this
      ensures !panic && Owned(M(), own') && UsedAs(own', r, Root) && |pages| == |old(pages)|
      ensures done ==> Grows(m0, own0, M(), own', r, n0, a + 1, f) && |old(free)| <= |free| + 3
      ensures !done ==> Grows(m0, own0, M(), own', r, n0, a, f) && |old(free)| < 3
    {
      hide Owned, Flat, Grows, Inserts, InsertsMany, SameMaps;
      GrowsBelow(m0, own0, M(), own, r, n0, a, f);
      var h;
      ghost var m1 := M();
      h, own' := Kalloc(own);
      GrowsThenSame(m0, own0, m1, own, M(), own', r, n0, a, f);
      if h == 0 {
        return false, false, own';
      }
      ghost var m2 := M();
      GrowsFree(m0, own0, m1, own, r, n0, a, f, h);
      pages := pages[h := page];
      ghost var m3, own3 := M(), own';
      GrowsThenFill(m0, own0, m1, own, m2, own3, r, n0, a, f, h, page, m3);
      var res;
      ghost var cnt;
      res, cnt, own' := MapPages(r, a, 1, h, perm, own');
      if res.Mapped? {
        GrowsThenMap(m0, own0, m3, own3, M(), own', r, n0, a, f, h);
        return true, false, own';
      }
      GrowsThenFail(m0, own0, m3, own3, M(), own', r, n0, a, f, h);
      if res.Remap? {
        GrowsUnmapped(m0, own0, m3, own3, r, n0, a, f);
        return false, true, own';
      }
      ghost var m4, own4 := M(), own';
      Kfree(h);
      own' := own'[h := Free];
      GrowsThenPush(m0, own0, m4, own4, r, n0, a, f, h);
      return false, false, own';
    }

    // uvmalloc() gives up: the pages added are taken away again.
    method Undo(r: nat, n0: nat, a: nat, ghost f: nat -> Want, ghost own: seq<Use>, ghost m0: Mem, ghost own0: seq<Use>)
      returns (panic: bool, ghost own': seq<Use>)
      requires Owned(M(), own) && UsedAs(own, r, Root) && n0 <= a && UsedAs(own0, r, Root) && |pages| <= TRAPFRAME
      requires Grows(m0, own0, M(), own, r, n0, a, f) && Owned(m0, own0) && UserPages(m0, r, n0)
      modifies this
      ensures !panic && Owned(M(), own') && UsedAs(own', r, Root) && Grows(m0, own0, M(), own', r, n0, n0, f)
    {
      hide Owned, Flat, Removes;
      ghost var m1 := M();
      GrowsBelow(m0, own0, m1, own, r, n0, a, f);
      UpPages(a);
      UpPages(n0);
      var ret;
      ret, panic, own' := UvmDealloc(r, a * 4096, n0 * 4096, own);
      ShrinksBack(m0, own0, m1, own, M(), own', r, n0, a, f);
    }

    /** uvmcopy(): on success the child has a page of its own for each of the parent's, with the same permissions and
        contents; on failure it has none again; the parent keeps its own either way. It cannot fail with three free
        pages for each page to copy. No panic is reachable. */
    method UvmCopy(r: nat, c: nat, sz: nat, ghost own: seq<Use>) returns (ok: bool, panic: bool, ghost own': seq<Use>)
      requires Owned(M(), own) && UsedAs(own, r, Root) && UsedAs(own, c, Root) && r != c && |pages| <= TRAPFRAME
      requires UserPages(M(), r, Up(sz)) && UserPages(M(), c, 0)
      modifies this
      ensures !panic && Owned(M(), own') && UsedAs(own', c, Root)
      ensures Grows(old(M()), own, M(), own', c, 0, if ok then Up(sz) else 0, CopyOf(old(M()), r))
      ensures !ok ==> |old(free)| < 3 * Up(sz)
    {
      hide Owned, Flat, Grows, Removes, UserPages, EntryAt;
      ghost var m0, f := M(), CopyOf(M(), r);
      BelowTop(m0, own, r, Up(sz));
      GrowsNone(m0, own, c, 0, f);
      own', panic, ok := own, false, false;
      var i := 0;
      while i * 4096 < sz
        invariant (i == 0 || (i - 1) * 4096 < sz) && Owned(M(), own') && UsedAs(own', c, Root) && UsedAs(own', r, Root)
        invariant Grows(m0, own, M(), own', c, 0, i, f) && |pages| == |m0.pages| && |old(free)| <= |free| + 3 * i
        decreases sz - i * 4096
      {
        ghost var m1, own1 := M(), own';
        UpAbove(sz, i);
        ParentPage(m0, own, m1, own1, r, c, i, Up(sz), f);
        var q, _ := Walk(r, i, false, own');
        if q.None? {
          NoLowNoFlat(m1, r, i);
          panic := true;
          return;
        }
        EntryThere(m1, own1, r, i, q.value);
        var e := pages[q.value].ptes[Lo(i)];
        if !e.v {
          panic := true;
          return;
        }
        var done;
        done, panic, own' := GrowOne(c, i, e, pages[e.ppn], f, own', m0, own, 0);
        if panic {
          return;
        }
        if !done {
          ghost var m2, own2 := M(), own';
          GrowsBelow(m0, own, m2, own2, c, 0, i, f);
          AllMapped(m2, c, i);
          panic, own' := UvmUnmap(c, 0, i, true, own');
          RemovesTop(m2, own2, M(), own', c, 0, i);
          ShrinksBack(m0, own, m2, own2, M(), own', c, 0, i, f);
          return;
        }
        GrowsRoot(m0, own, M(), own', c, 0, i + 1, f, r);
        i := i + 1;
      }
      UpIs(sz, i);
      ok := true;
    }

    /** freewalk(): every table under p, and p, goes back on the free list once; nothing else changes. */
    method FreeWalk(
        p: nat, ghost m0: Mem, ghost own0: seq<Use>, ghost own: seq<Use>)
      returns (panic: bool, ghost own': seq<Use>)
      requires Owned(m0, own0) && p < |own0| && (own0[p].Root? || own0[p].Mid? || own0[p].Low?)
      requires Owned(M(), own) && Untouched(m0, own0, p, M(), own) && NoLeaves(m0, own0, p)
      modifies this
      ensures !panic && Owned(M(), own') && FreedUnder(own0, p, old(M()), own, M(), own')
      decreases Rank(own0[p])
    {
      hide Owned, Entry, Written, Freeing, FreedUnder, NoLeaves, Untouched, Sub, TableAt;
      ghost var m := M();
      FreeingStarts(m0, own0, p, m, own);
      own', panic := own, false;
      var i := 0;
      while i < 512
        invariant i <= 512 && Owned(M(), own') && Freeing(m0, own0, p, i, m, own, M(), own')
      {
        ghost var m1, own1 := M(), own';
        FreeingEntry(m0, own0, p, i, m, own, m1, own1);
        var e := pages[p].ptes[i];
        if e.v && !e.r && !e.w && !e.x {
          ChildUntouched(m0, own0, p, i, m, own, m1, own1, e);
          panic, own' := FreeWalk(e.ppn, m0, own0, own');
          if panic {
            return;
          }
          ghost var m2, own2 := M(), own';
          ChildFreed(m0, own0, p, i, m, own, m1, own1, m2, own2, e);
          pages := pages[p := Table(pages[p].ptes[i := NoPte()])];
          EntryZeroed(m0, own0, p, i, m, own, m2, own2, M());
        } else {
          NotALeaf(m0, own0, p, i, e);
          if e.v {
            panic := true;
            return;
          }
          NoChild(m0, own0, p, i, m, own, m1, own1);
        }
        i := i + 1;
      }
      ghost var m3, own3 := M(), own';
      LastPush(m0, own0, p, m, own, m3, own3);
      Kfree(p);
      own' := own'[p := Free];
    }

    /** uvmfree(): every page of r, user page or table, goes back on the free list once; nothing else changes. */
    method UvmFree(r: nat, sz: nat, ghost own: seq<Use>) returns (panic: bool, ghost own': seq<Use>)
      requires Owned(M(), own) && UsedAs(own, r, Root) && UserPages(M(), r, Up(sz)) && Up(sz) <= TRAPFRAME
      requires !Flat(M(), r, TRAPFRAME).v && !Flat(M(), r, TRAMPOLINE).v
      modifies this
      ensures !panic && Owned(M(), own') && Released(old(M()), own, M(), own', r)
    {
      hide Owned, Flat, Removes, FreedUnder, Released, UserPages, Untouched, NoLeaves;
      ghost var m := M();
      own', panic := own, false;
      RemovesNone(m, own, r, 0, true);
      AllMapped(m, r, Up(sz));
      if sz > 0 {
        panic, own' := UvmUnmap(r, 0, Up(sz), true, own);
      }
      if panic {
        return;
      }
      ghost var m1, own1 := M(), own';
      AllRemoved(m, own, m1, own1, r, Up(sz));
      Detach(m1, own1, r);
      ghost var own2 := Detached(own1, r);
      panic, own' := FreeWalk(r, m1, own1, own2);
      AllReleased(m, own, m1, own1, M(), own', r, Up(sz));
    }

    /** proc_freepagetable(): as uvmfree() for a process's table, whose two extra mappings name pages that are not its
        own. */
    method ProcFreePagetable(r: nat, sz: nat, ghost own: seq<Use>) returns (panic: bool, ghost own': seq<Use>)
      requires Owned(M(), own) && UsedAs(own, r, Root) && UserPages(M(), r, Up(sz)) && Up(sz) <= TRAPFRAME
      requires Flat(M(), r, TRAPFRAME).v && Flat(M(), r, TRAMPOLINE).v
      modifies this
      ensures !panic && Owned(M(), own') && Released(old(M()), own, M(), own', r)
    {
      hide Owned, Flat, Removes, Released, UserPages;
      ghost var m := M();
      panic, own' := UnmapOne(r, TRAMPOLINE, false, own);
      if panic {
        return;
      }
      ghost var m1, own1 := M(), own';
      RemovesFlat(m, own, m1, own1, r, TRAMPOLINE, 1, false, TRAPFRAME);
      RemovesRoot(m, own, m1, own1, r, TRAMPOLINE);
      panic, own' := UnmapOne(r, TRAPFRAME, false, own');
      if panic {
        return;
      }
      ghost var m2, own2 := M(), own';
      RemovesTwo(m, own, m1, own1, m2, own2, r, Up(sz));
      panic, own' := UvmFree(r, sz, own');
      ReleasedToo(m, own, m2, own2, M(), own', r);
    }

    // The entry for address va, as copyout() and walkaddr() look it up.
    method Find(r: nat, va: nat, ghost own: seq<Use>) returns (e: Pte)
      requires Owned(M(), own) && UsedAs(own, r, Root)
      modifies this
      ensures M() == old(M()) && e == if PageOf(va) < MAXPAGE then Flat(M(), r, PageOf(va)) else NoPte()
    {
      hide Owned, Flat, EntryAt, LowOf;
      if MAXPAGE <= PageOf(va) {
        return NoPte();
      }
      var q, _ := Walk(r, PageOf(va), false, own);
      if q.None? {
        NoLowFlat(M(), r, PageOf(va));
        return NoPte();
      }
      EntryThere(M(), own, r, PageOf(va), q.value);
      return pages[q.value].ptes[Lo(PageOf(va))];
    }

    /** copyout(), a page at a time, does what copying byte by byte does, also when it fails part way. */
    method CopyOut(r: nat, dstva: nat, src: seq<byte>, ghost own: seq<Use>) returns (ok: bool, ghost w: nat)
      requires Owned(M(), own) && UsedAs(own, r, Root) && UserOnly(M(), r)
      modifies this
      ensures (M(), ok) == OutBytes(old(M()), r, dstva, src) && Owned(M(), own)
      ensures Wrote(old(M()), M(), own, r, dstva, src, w)
      ensures (ok <==> w == |src|) && (!ok ==> !Writable(old(M()), r, dstva + w))
    {
      hide Owned, Flat, UserOnly, OutBytes, Wrote;
      ghost var m0 := M();
      var tot := 0;
      assert src[0..] == src;
      while tot < |src|
        invariant tot <= |src| && Owned(M(), own) && UserOnly(M(), r)
        invariant OutBytes(old(M()), r, dstva, src) == OutBytes(M(), r, dstva + tot, src[tot..])
      {
        var va := dstva + tot;
        ghost var m1, rest := M(), src[tot..];
        var e := Find(r, va, own);
        if !e.v || !e.u || !e.w {
          OutStops(m1, r, va, rest);
          w := OutIs(m0, own, r, dstva, src, M(), false);
          return false, w;
        }
        var n := 4096 - OffsetOf(va);
        if n > |src| - tot {
          n := |src| - tot;
        }
        ReadablePage(m1, own, r, va);
        OutChunk(m1, own, r, va, rest, n, e.ppn);
        assert rest[..n] == src[tot..tot + n] && rest[n..] == src[tot + n..];
        var b, k := pages[e.ppn].bytes, OffsetOf(va);
        pages := pages[e.ppn := Data(b[..k] + src[tot..tot + n] + b[k + n..])];
        assert M() == Stored(m1, e.ppn, k, rest[..n]);
        StoredSame(m1, own, e.ppn, k, rest[..n], M());
        UserOnlyKept(m1, own, M(), r);
        tot := tot + n;
      }
      assert src[tot..] == [];
      OutDone(M(), r, dstva + tot);
      w := OutIs(m0, own, r, dstva, src, M(), true);
      return true, w;
    }

    /** copyin() reads what reading byte by byte does. */
    method CopyIn(r: nat, srcva: nat, len: nat, ghost own: seq<Use>) returns (dst: seq<byte>, ok: bool)
      requires Owned(M(), own) && UsedAs(own, r, Root) && UserOnly(M(), r)
      modifies this
      ensures M() == old(M()) && (dst, ok) == InBytes(M(), r, srcva, len)
      ensures |dst| <= len && forall a :: srcva <= a < srcva + |dst| ==> dst[a - srcva] == ByteAt(M(), r, a)
      ensures (ok <==> |dst| == len) && (!ok ==> !Readable(M(), r, srcva + |dst|))
    {
      hide Owned, Flat, UserOnly, InBytes, ByteAt, InSoFar;
      InIs(M(), r, srcva, len);
      InStarts(M(), r, srcva, len);
      dst := [];
      while |dst| < len
        invariant |dst| <= len && M() == old(M()) && InSoFar(M(), r, srcva, len, dst)
      {
        var va := srcva + |dst|;
        var e := Find(r, va, own);
        if !e.v || !e.u {
          InEnds(M(), r, srcva, len, dst);
          return dst, false;
        }
        var n := 4096 - OffsetOf(va);
        if n > len - |dst| {
          n := len - |dst|;
        }
        InTurn(M(), own, r, srcva, len, dst, n, e.ppn);
        dst := dst + pages[e.ppn].bytes[OffsetOf(va)..OffsetOf(va) + n];
      }
      InEnds(M(), r, srcva, len, dst);
      return dst, true;
    }

    /** copyinstr() reads what reading byte by byte does, up to the first zero. */
    method CopyInStr(r: nat, srcva: nat, max: nat, ghost own: seq<Use>) returns (dst: seq<byte>, ok: bool)
      requires Owned(M(), own) && UsedAs(own, r, Root) && UserOnly(M(), r)
      modifies this
      ensures M() == old(M()) && (dst, ok) == InString(M(), r, srcva, max)
      ensures |dst| <= max && forall a :: srcva <= a < srcva + |dst| ==> dst[a - srcva] == ByteAt(M(), r, a)
      ensures (forall k :: 0 <= k < |dst| - 1 ==> dst[k] != 0) && (ok <==> |dst| > 0 && dst[|dst| - 1] == 0)
      ensures !ok ==> |dst| == max || !Readable(M(), r, srcva + |dst|)
    {
      hide Owned, Flat, UserOnly, InString, ByteAt, StringSoFar;
      dst, ok := [], false;
      StringIs(M(), r, srcva, max);
      StringStarts(M(), r, srcva, max);
      while !ok && |dst| < max
        invariant M() == old(M()) && |dst| <= max
        invariant if ok then (dst, true) == InString(M(), r, srcva, max) else StringSoFar(M(), r, srcva, max, dst)
        decreases !ok, max - |dst|
      {
        var va := srcva + |dst|;
        var e := Find(r, va, own);
        if !e.v || !e.u {
          StringEnds(M(), r, srcva, max, dst);
          return dst, false;
        }
        var n := 4096 - OffsetOf(va);
        if n > max - |dst| {
          n := max - |dst|;
        }
        ReadablePage(M(), own, r, va);
        ghost var before := |dst|;
        var k := 0;
        while k < n
          invariant k <= n && M() == old(M()) && |dst| == before + k && !ok && |dst| <= max
          invariant StringSoFar(M(), r, srcva, max, dst)
        {
          var ch := pages[e.ppn].bytes[OffsetOf(va) + k];
          ByteIs(M(), r, va, k, srcva + |dst|, e.ppn);
          StringTurn(M(), r, srcva, max, dst);
          dst := dst + [ch];
          if ch == 0 {
            ok := true;
            break;
          }
          k := k + 1;
        }
      }
      if !ok {
        StringEnds(M(), r, srcva, max, dst);
      }
    }
  }

  lemma {:induction false} EntryThere(m: Mem, own: seq<Use>, r: nat, v: nat, q: nat)
    requires EntryAt(m, own, r, v, q)
    ensures q < |m.pages| && m.pages[q].Table? && |m.pages[q].ptes| == 512
    ensures Entry(m, q, Lo(v)) == m.pages[q].ptes[Lo(v)]
    ensures Flat(m, r, v) == m.pages[q].ptes[Lo(v)] && v < MAXPAGE && UsedAs(own, r, Root)
  {
  }

  lemma {:induction false} SameFlat(m: Mem, own: seq<Use>, t: Mem, own': seq<Use>, r: nat, v: nat)
    requires SameMaps(m, own, t, own') && UsedAs(own, r, Root) && v < MAXPAGE
    ensures Flat(t, r, v) == Flat(m, r, v)
  {
  }

  lemma {:induction false} WrittenIs(m: Mem, q: nat, i: nat, e: Pte, t: Mem)
    requires q < |m.pages| && m.pages[q].Table? && i < |m.pages[q].ptes|
    requires t == m.(pages := m.pages[q := Table(m.pages[q].ptes[i := e])])
    ensures t == Written(m, q, i, e)
  {
  }

  lemma {:induction false} StartsAtRoot(m: Mem, own: seq<Use>, r: nat, v: nat)
    requires Owned(m, own) && UsedAs(own, r, Root)
    ensures TableFor(m, own, r, v, 2, r) && SameMaps(m, own, m, own)
  {
    assert PageOk(m, own, r);
  }

  lemma {:induction false} TableForAt(m: Mem, own: seq<Use>, r: nat, v: nat, level: nat, p: nat)
    requires TableFor(m, own, r, v, level, p)
    ensures p < |m.pages| && m.pages[p].Table? && |m.pages[p].ptes| == 512
    ensures forall i: nat :: i < 512 ==> Entry(m, p, i) == m.pages[p].ptes[i]
  {
  }

  lemma {:induction false} NoTable(m: Mem, own: seq<Use>, r: nat, v: nat, level: nat, p: nat)
    requires 1 <= level <= 2 && TableFor(m, own, r, v, level, p) && !Entry(m, p, Px(level, v)).v
    ensures LowOf(m, r, Hi(v), Mi(v)).None?
  {
  }

  lemma {:induction false} FoundLow(m: Mem, own: seq<Use>, r: nat, v: nat, p: nat)
    requires TableFor(m, own, r, v, 0, p)
    ensures EntryAt(m, own, r, v, p) && LowOf(m, r, Hi(v), Mi(v)) == Some(p)
  {
  }

  // Taking a page off the free list leaves the tables where they are.
  lemma {:induction false} PopTables(m: Mem, own: seq<Use>, page: Page, r: nat, v: nat, level: nat, p: nat)
    requires Owned(m, own) && 0 < |m.free| && UsedAs(own, m.free[0], Free) && m.free[0] < |m.pages|
    requires v < MAXPAGE && level <= 2 && TableFor(m, own, r, v, level, p)
    ensures var t, own' := Popped(m, page), own[m.free[0] := Held];
            && TableFor(t, own', r, v, level, p) && p != m.free[0] && t.pages[p] == m.pages[p]
            && Entry(t, p, Px(level, v)) == Entry(m, p, Px(level, v))
  {
    TablesIgnore(m, own, Popped(m, page), m.free[0], r, Hi(v), Mi(v));
    hide Owned, Hi, Mi, Lo, LowOf, MidOf;
  }

  lemma {:induction false} InsertsNone(m: Mem, own: seq<Use>, r: nat, v: nat, pa: nat, perm: Pte)
    requires Owned(m, own)
    ensures InsertsMany(m, own, m, own, r, v, 0, pa, perm)
  {
  }

  lemma {:induction false} StillToMap(
      m: Mem, own: seq<Use>, t: Mem, own1: seq<Use>, r: nat, v: nat, a: nat, n: nat, pa: nat, perm: Pte)
    requires InsertsMany(m, own, t, own1, r, v, a, pa, perm) && a < n && v + n <= MAXPAGE
    requires (perm.r || perm.w || perm.x)
    requires forall p :: pa <= p < pa + n && v + (p - pa) < TRAPFRAME ==> PageToMap(m, own, p)
    ensures CanMap(t, own1, v + a, perm.(ppn := pa + a, v := true))
  {
    assert v + a < TRAPFRAME ==> PageToMap(m, own, pa + a);
    hide Flat;
  }

  lemma {:induction false} InsertsFlat(
      m: Mem, own: seq<Use>, t: Mem, own1: seq<Use>, r: nat, v: nat, a: nat, pa: nat, perm: Pte, w: nat)
    requires InsertsMany(m, own, t, own1, r, v, a, pa, perm) && UsedAs(own, r, Root) && w < MAXPAGE && !(v <= w < v + a)
    ensures Flat(t, r, w) == Flat(m, r, w)
  {
    hide Flat;
  }

  lemma {:induction false} InsertsThenSame(
      m: Mem, own: seq<Use>, t: Mem, own1: seq<Use>, u: Mem, own2: seq<Use>, r: nat, v: nat, a: nat, pa: nat, perm: Pte)
    requires InsertsMany(m, own, t, own1, r, v, a, pa, perm) && SameMaps(t, own1, u, own2)
    ensures InsertsMany(m, own, u, own2, r, v, a, pa, perm)
  {
    hide Flat;
    forall s: nat, w: nat | UsedAs(own, s, Root) && w < MAXPAGE
      ensures Flat(u, s, w) == if s == r && v <= w < v + a then perm.(ppn := pa + (w - v), v := true) else Flat(m, s, w)
    {
      assert UsedAs(own1, s, Root);
      assert Flat(t, s, w) == if s == r && v <= w < v + a then perm.(ppn := pa + (w - v), v := true) else Flat(m, s, w);
    }
    forall s: nat | UsedAs(own, s, Root)
      ensures UsedAs(own2, s, Root)
    {
      assert UsedAs(own1, s, Root);
    }
  }

  lemma {:induction false} InsertsNext(
      m: Mem, own: seq<Use>, t: Mem, own1: seq<Use>, u: Mem, own2: seq<Use>, r: nat, v: nat, a: nat, pa: nat, perm: Pte)
    requires InsertsMany(m, own, t, own1, r, v, a, pa, perm)
    requires Inserts(t, own1, u, own2, r, v + a, perm.(ppn := pa + a, v := true))
    ensures InsertsMany(m, own, u, own2, r, v, a + 1, pa, perm) && (UsedAs(own, r, Root) ==> UsedAs(own2, r, Root))
  {
    hide Flat;
    forall s: nat, w: nat | UsedAs(own, s, Root) && w < MAXPAGE
      ensures Flat(u, s, w) ==
              if s == r && v <= w < v + (a + 1) then perm.(ppn := pa + (w - v), v := true) else Flat(m, s, w)
    {
      assert UsedAs(own1, s, Root);
      assert Flat(t, s, w) == if s == r && v <= w < v + a then perm.(ppn := pa + (w - v), v := true) else Flat(m, s, w);
    }
    forall s: nat | UsedAs(own, s, Root)
      ensures UsedAs(own2, s, Root)
    {
      assert UsedAs(own1, s, Root);
    }
  }

  lemma {:induction false} NoLowNoFlat(m: Mem, r: nat, v: nat)
    requires LowOf(m, r, Hi(v), Mi(v)).None?
    ensures !Flat(m, r, v).v
  {
  }

  lemma {:induction false} PushedPage(m: Mem, h: nat, page: Page, q: nat)
    requires h < |m.pages| && q < |m.pages| && h != q
    ensures Pushed(m, h, page).pages[q] == m.pages[q] && |Pushed(m, h, page).pages| == |m.pages|
  {
  }

  // kfree() before *pte = 0 or after it.
  lemma {:induction false} UnmapOrder(m: Mem, q: nat, i: nat, h: nat, dofree: bool, t: Mem)
    requires q < |m.pages| && m.pages[q].Table? && i < |m.pages[q].ptes| && (dofree ==> h < |m.pages| && h != q)
    requires dofree ==>
               t == Pushed(m, h, Junk(1)).(pages := t.pages)
                   && t.pages == m.pages[h := Junk(1)][q := Table(m.pages[q].ptes[i := NoPte()])]
    requires !dofree ==> t == m.(pages := m.pages[q := Table(m.pages[q].ptes[i := NoPte()])])
    ensures t == if dofree then Pushed(Written(m, q, i, NoPte()), h, Junk(1)) else Written(m, q, i, NoPte())
  {
    if dofree {
      assert m.pages[h := Junk(1)][q := Table(m.pages[q].ptes[i := NoPte()])]
             == m.pages[q := Table(m.pages[q].ptes[i := NoPte()])][h := Junk(1)];
    }
  }

  lemma {:induction false} UnmapHeld(m: Mem, own: seq<Use>, r: nat, v: nat, q: nat, e: Pte, t: Mem)
    requires Owned(m, own) && EntryAt(m, own, r, v, q) && e == Entry(m, q, Lo(v)) && e.v
    requires t == Written(m, q, Lo(v), NoPte())
    ensures v < TRAPFRAME ==> UsedAs(own, e.ppn, Leaf(r, v)) && 0 < e.ppn < |m.pages| && e.ppn != q
    ensures Owned(t, Unmapping(own, v, e)) && Removes(m, own, t, Unmapping(own, v, e), r, v, 1, false)
  {
    hide Owned, Flat, Hi, Mi, Lo, LowOf, Entry;
    UnmapOwned(m, own, r, v, q, e, t);
    if v < TRAPFRAME {
      LeafPlace(m, own, r, v, e.ppn);
      HeldNotZero(m, own, e.ppn, r, v);
    }
    OwnedSize(m, own);
    forall s: nat, w: nat | UsedAs(own, s, Root) && w < MAXPAGE
      ensures Flat(t, s, w) == if s == r && v <= w < v + 1 then NoPte() else Flat(m, s, w)
    {
      var was := Flat(m, s, w);
    }
  }

  lemma {:induction false} RemovesPush(m: Mem, own: seq<Use>, t: Mem, own1: seq<Use>, r: nat, v: nat, h: nat)
    requires Owned(t, own1) && Removes(m, own, t, own1, r, v, 1, false) && UsedAs(own, h, Leaf(r, v)) && v < TRAPFRAME
    requires h != 0
    requires forall x :: 0 <= x < |own| && own[x] == Leaf(r, v) ==> x == h
    ensures h < |t.pages| && Owned(Pushed(t, h, Junk(1)), own1[h := Free])
    ensures Removes(m, own, Pushed(t, h, Junk(1)), own1[h := Free], r, v, 1, true)
  {
    PushOwned(t, own1, h, Junk(1));
    hide Owned, Flat;
    forall s: nat, w: nat | UsedAs(own, s, Root) && w < MAXPAGE
      ensures Flat(Pushed(t, h, Junk(1)), s, w) == if s == r && v <= w < v + 1 then NoPte() else Flat(m, s, w)
    {
      assert UsedAs(own1, s, Root);
      assert Flat(t, s, w) == if s == r && v <= w < v + 1 then NoPte() else Flat(m, s, w);
    }
  }

  lemma {:induction false} UnmapEffect(m: Mem, own: seq<Use>, r: nat, v: nat, q: nat, e: Pte, dofree: bool)
    requires Owned(m, own) && EntryAt(m, own, r, v, q) && e == Entry(m, q, Lo(v)) && e.v && (dofree ==> v < TRAPFRAME)
    ensures v < TRAPFRAME ==> UsedAs(own, e.ppn, Leaf(r, v)) && e.ppn != q && e.ppn < |m.pages|
    ensures var t1 := Written(m, q, Lo(v), NoPte());
            var t := if dofree then Pushed(t1, e.ppn, Junk(1)) else t1;
            var own' := if dofree then own[e.ppn := Free] else Unmapping(own, v, e);
            Owned(t, own') && Removes(m, own, t, own', r, v, 1, dofree)
  {
    var t := Written(m, q, Lo(v), NoPte());
    UnmapHeld(m, own, r, v, q, e, t);
    if dofree {
      var own1 := Unmapping(own, v, e);
      LeafPlace(m, own, r, v, e.ppn);
      RemovesPush(m, own, t, own1, r, v, e.ppn);
      assert own1[e.ppn := Free] == own[e.ppn := Free];
    }
    hide Owned, Flat, Hi, Mi, Lo, LowOf, Removes, Entry;
  }

  lemma {:induction false} OwnedSize(m: Mem, own: seq<Use>)
    requires Owned(m, own)
    ensures |own| == |m.pages|
  {
  }

  lemma {:induction false} HeldNotZero(m: Mem, own: seq<Use>, p: nat, r: nat, v: nat)
    requires Owned(m, own) && UsedAs(own, p, Leaf(r, v))
    ensures p != 0
  {
  }

  // A page is mapped at one place only.
  lemma {:induction false} LeafPlace(m: Mem, own: seq<Use>, r: nat, v: nat, p: nat)
    requires Owned(m, own) && UsedAs(own, r, Root) && v < TRAPFRAME && UsedAs(own, p, Leaf(r, v))
    ensures forall x :: 0 <= x < |own| && own[x] == Leaf(r, v) ==> x == p
  {
    assert PageOk(m, own, p);
    forall x | 0 <= x < |own| && own[x] == Leaf(r, v)
      ensures x == p
    {
      assert PageOk(m, own, x);
    }
  }

  lemma {:induction false} RemovesNone(m: Mem, own: seq<Use>, r: nat, v: nat, dofree: bool)
    requires Owned(m, own)
    ensures Removes(m, own, m, own, r, v, 0, dofree)
  {
  }

  lemma {:induction false} RemovesFlat(
      m: Mem, own: seq<Use>, t: Mem, own1: seq<Use>, r: nat, v: nat, a: nat, dofree: bool, w: nat)
    requires Removes(m, own, t, own1, r, v, a, dofree) && UsedAs(own, r, Root) && w < MAXPAGE && !(v <= w < v + a)
    ensures Flat(t, r, w) == Flat(m, r, w)
  {
    hide Flat;
  }

  lemma {:induction false} RemovesNext(
      m: Mem, own: seq<Use>, t: Mem, own1: seq<Use>, u: Mem, own2: seq<Use>, r: nat, v: nat, a: nat, dofree: bool)
    requires Removes(m, own, t, own1, r, v, a, dofree) && Removes(t, own1, u, own2, r, v + a, 1, dofree)
    ensures Removes(m, own, u, own2, r, v, a + 1, dofree) && (UsedAs(own1, r, Root) ==> UsedAs(own2, r, Root))
  {
    hide Flat;
    forall s: nat, w: nat | UsedAs(own, s, Root) && w < MAXPAGE
      ensures Flat(u, s, w) == if s == r && v <= w < v + (a + 1) then NoPte() else Flat(m, s, w)
    {
      assert own1[s] == own[s];
      assert UsedAs(own1, s, Root);
      assert Flat(t, s, w) == if s == r && v <= w < v + a then NoPte() else Flat(m, s, w);
    }
  }

  lemma {:induction false} UpOrder(x: nat, y: nat)
    requires x <= y
    ensures Up(x) <= Up(y)
  {
  }

  lemma {:induction false} UpPages(n: nat)
    ensures Up(n * 4096) == n
  {
  }

  lemma {:induction false} UpIs(sz: nat, a: nat)
    requires sz <= a * 4096 && (a == 0 || (a - 1) * 4096 < sz || a == Up(sz))
    ensures Up(sz) == a
  {
  }

  // A valid user entry names a page in use there.
  lemma {:induction false} FlatUse(m: Mem, own: seq<Use>, r: nat, v: nat)
    requires Owned(m, own) && UsedAs(own, r, Root) && v < TRAPFRAME && Flat(m, r, v).v
    ensures UsedAs(own, Flat(m, r, v).ppn, Leaf(r, v)) && IsLeaf(Flat(m, r, v)) && 0 < Flat(m, r, v).ppn
  {
    LowUse(m, own, r, Hi(v), Mi(v));
    EntryUse(m, own, r, v, LowOf(m, r, Hi(v), Mi(v)).value);
    HeldNotZero(m, own, Flat(m, r, v).ppn, r, v);
  }

  lemma {:induction false} RangeCard(ps: set<nat>, k: nat)
    requires 0 < k && forall p :: p in ps ==> 0 < p < k
    ensures |ps| <= k - 1
  {
    if k == 1 {
      assert ps == {};
    } else {
      RangeCard(ps - {k - 1}, k - 1);
      assert ps <= (ps - {k - 1}) + {k - 1};
      if k - 1 in ps {
        assert |ps - {k - 1}| == |ps| - 1;
      } else {
        assert ps - {k - 1} == ps;
      }
    }
  }

  // n mapped pages need n physical pages.
  lemma {:induction false} CountMapped(m: Mem, own: seq<Use>, r: nat, n: nat) returns (ps: set<nat>)
    requires Owned(m, own) && UsedAs(own, r, Root) && n <= TRAPFRAME && forall v :: 0 <= v < n ==> Flat(m, r, v).v
    ensures |ps| == n && forall p :: p in ps ==> 0 < p < |own| && own[p].Leaf? && own[p].v < n
  {
    hide Owned, Flat;
    if n == 0 {
      ps := {};
    } else {
      var qs := CountMapped(m, own, r, n - 1);
      FlatUse(m, own, r, n - 1);
      ps := qs + {Flat(m, r, n - 1).ppn};
    }
  }

  lemma {:induction false} BelowTop(m: Mem, own: seq<Use>, r: nat, n: nat)
    requires Owned(m, own) && UsedAs(own, r, Root) && UserPages(m, r, n) && |m.pages| <= TRAPFRAME
    ensures n < TRAPFRAME
  {
    var k := if n < TRAPFRAME then n else TRAPFRAME;
    var ps := CountMapped(m, own, r, k);
    OwnedSize(m, own);
    RangeCard(ps, |own|);
  }

  lemma {:induction false} RemovesTop(m: Mem, own: seq<Use>, t: Mem, own': seq<Use>, r: nat, lo: nat, hi: nat)
    requires lo <= hi <= TRAPFRAME && Removes(m, own, t, own', r, lo, hi - lo, true) && UserPages(m, r, hi)
    requires UsedAs(own, r, Root)
    ensures UserPages(t, r, lo)
  {
    hide Flat;
  }

  lemma {:induction false} GrowsNone(m: Mem, own: seq<Use>, r: nat, n0: nat, f: nat -> Want)
    requires Owned(m, own) && UserPages(m, r, n0)
    ensures Grows(m, own, m, own, r, n0, n0, f)
  {
  }

  lemma {:induction false} GrowsBelow(
      m0: Mem, own0: seq<Use>, t: Mem, own: seq<Use>, r: nat, n0: nat, a: nat, f: nat -> Want)
    requires Owned(t, own) && Grows(m0, own0, t, own, r, n0, a, f) && UsedAs(own, r, Root) && |t.pages| <= TRAPFRAME
    ensures a < TRAPFRAME && UserPages(t, r, a)
  {
    BelowTop(t, own, r, a);
  }

  lemma {:induction false} GrowsUnmapped(
      m0: Mem, own0: seq<Use>, t: Mem, own: seq<Use>, r: nat, n0: nat, a: nat, f: nat -> Want)
    requires Grows(m0, own0, t, own, r, n0, a, f) && a < TRAPFRAME
    ensures !Flat(t, r, a).v
  {
  }

  lemma {:induction false} GrowsThenSame(
      m0: Mem, own0: seq<Use>, t: Mem, own1: seq<Use>, u: Mem, own2: seq<Use>, r: nat, n0: nat, a: nat, f: nat -> Want)
    requires Owned(t, own1) && Grows(m0, own0, t, own1, r, n0, a, f) && SameMaps(t, own1, u, own2)
    requires UsedAs(own1, r, Root)
    requires a < TRAPFRAME
    ensures Grows(m0, own0, u, own2, r, n0, a, f) && UsedAs(own2, r, Root) && |u.pages| == |t.pages|
  {
    hide Flat;
    forall s: nat, w: nat | UsedAs(own0, s, Root) && w < MAXPAGE && !(s == r && n0 <= w < a)
      ensures Alike(Flat(u, s, w), Flat(m0, s, w))
    {
      assert UsedAs(own1, s, Root);
      assert Alike(Flat(t, s, w), Flat(m0, s, w));
    }
    forall w | n0 <= w < a
      ensures Fresh(u, r, w, f)
    {
      assert Fresh(t, r, w, f);
      FlatUse(t, own1, r, w);
      assert Flat(u, r, w) == Flat(t, r, w);
    }
    forall s: nat | UsedAs(own0, s, Root)
      ensures UsedAs(own2, s, Root)
    {
      assert UsedAs(own1, s, Root);
    }
    forall v | 0 <= v < TRAPFRAME
      ensures Flat(u, r, v).v <==> v < a
    {
      assert Flat(u, r, v) == Flat(t, r, v);
    }
  }

  // Filling a page in the caller's hands that was free before.
  lemma {:induction false} GrowsThenFill(
      m0: Mem, own0: seq<Use>, t: Mem, own1: seq<Use>, u: Mem, own2: seq<Use>, r: nat, n0: nat, a: nat, f: nat -> Want,
      h: nat, page: Page, w: Mem)
    requires Owned(u, own2) && Grows(m0, own0, u, own2, r, n0, a, f) && Grows(m0, own0, t, own1, r, n0, a, f)
    requires UsedAs(own1, h, Free) && UsedAs(own2, h, Held) && h < |u.pages| && w == u.(pages := u.pages[h := page])
    requires page.Data? && |page.bytes| == PGSIZE && UsedAs(own2, r, Root) && a < TRAPFRAME && h != 0
    ensures Owned(w, own2) && Grows(m0, own0, w, own2, r, n0, a, f) && PageToMap(w, own2, h) && |w.pages| == |u.pages|
  {
    FillOwned(u, own2, h, page);
    GrowsFree(m0, own0, t, own1, r, n0, a, f, h);
    hide Flat, Owned;
    forall x | n0 <= x < a
      ensures Fresh(w, r, x, f)
    {
      assert Fresh(u, r, x, f);
      FlatUse(u, own2, r, x);
    }
    GrowsFill(m0, own0, u, own2, r, n0, a, f, h, w);
  }

  lemma {:induction false} GrowsFree(
      m0: Mem, own0: seq<Use>, t: Mem, own1: seq<Use>, r: nat, n0: nat, a: nat, f: nat -> Want, h: nat)
    requires Grows(m0, own0, t, own1, r, n0, a, f) && UsedAs(own1, h, Free)
    ensures h < |own0| && !own0[h].Leaf? && !own0[h].Held?
  {
  }

  lemma {:induction false} GrowsFill(
      m0: Mem, own0: seq<Use>, u: Mem, own2: seq<Use>, r: nat, n0: nat, a: nat, f: nat -> Want, h: nat, w: Mem)
    requires Grows(m0, own0, u, own2, r, n0, a, f) && h < |own0| && !own0[h].Leaf? && !own0[h].Held?
    requires UsedAs(own2, r, Root)
    requires |w.pages| == |u.pages| && forall p :: 0 <= p < |u.pages| && p != h ==> w.pages[p] == u.pages[p]
    requires forall s, v {:trigger Flat(u, s, v)} :: UsedAs(own2, s, Root) ==> Flat(w, s, v) == Flat(u, s, v)
    requires forall x {:trigger Fresh(w, r, x, f)} :: n0 <= x < a ==> Fresh(w, r, x, f)
    ensures Grows(m0, own0, w, own2, r, n0, a, f)
  {
    hide Flat;
    forall s: nat, v: nat | UsedAs(own0, s, Root) && v < MAXPAGE && !(s == r && n0 <= v < a)
      ensures Alike(Flat(w, s, v), Flat(m0, s, v))
    {
      assert UsedAs(own2, s, Root);
      assert Alike(Flat(u, s, v), Flat(m0, s, v));
      assert Flat(w, s, v) == Flat(u, s, v);
    }
    forall v | 0 <= v < TRAPFRAME
      ensures Flat(w, r, v).v <==> v < a
    {
      assert Flat(w, r, v) == Flat(u, r, v);
    }
  }

  // The new page is mapped.
  lemma {:induction false} GrowsThenMap(
      m0: Mem, own0: seq<Use>, t: Mem, own1: seq<Use>, u: Mem, own2: seq<Use>, r: nat, n0: nat, a: nat, f: nat -> Want,
      h: nat)
    requires Owned(t, own1) && Grows(m0, own0, t, own1, r, n0, a, f) && UsedAs(own1, r, Root) && UsedAs(own1, h, Held)
    requires h < |own0| && !own0[h].Leaf? && !own0[h].Held? && a < TRAPFRAME && n0 <= a
    requires h < |t.pages| && t.pages[h] == f(a).page
    requires InsertsMany(t, own1, u, own2, r, a, 1, h, f(a).perm)
    ensures Grows(m0, own0, u, own2, r, n0, a + 1, f) && UsedAs(own2, r, Root) && |u.pages| == |t.pages|
  {
    hide Flat;
    forall s: nat, v: nat | UsedAs(own0, s, Root) && v < MAXPAGE && !(s == r && n0 <= v < a + 1)
      ensures Alike(Flat(u, s, v), Flat(m0, s, v))
    {
      assert UsedAs(own1, s, Root);
      assert Alike(Flat(t, s, v), Flat(m0, s, v));
    }
    forall x | n0 <= x < a + 1
      ensures Fresh(u, r, x, f)
    {
      if x < a {
        assert Fresh(t, r, x, f);
        FlatUse(t, own1, r, x);
      }
      assert UsedAs(own1, r, Root) && x < MAXPAGE;
      assert Flat(u, r, x) == if x == a then f(a).perm.(ppn := h, v := true) else Flat(t, r, x);
    }
    forall s: nat | UsedAs(own0, s, Root)
      ensures UsedAs(own2, s, Root)
    {
      assert UsedAs(own1, s, Root);
    }
    forall v | 0 <= v < TRAPFRAME
      ensures Flat(u, r, v).v <==> v < a + 1
    {
      assert Flat(t, r, v).v <==> v < a;
    }
  }

  // mappages() had no memory, or would have remapped.
  lemma {:induction false} GrowsThenFail(
      m0: Mem, own0: seq<Use>, t: Mem, own1: seq<Use>, u: Mem, own2: seq<Use>, r: nat, n0: nat, a: nat, f: nat -> Want,
      h: nat)
    requires Owned(t, own1) && Grows(m0, own0, t, own1, r, n0, a, f) && UsedAs(own1, r, Root) && UsedAs(own1, h, Held)
    requires a < TRAPFRAME
    requires InsertsMany(t, own1, u, own2, r, a, 0, h, f(a).perm)
    ensures Grows(m0, own0, u, own2, r, n0, a, f) && UsedAs(own2, r, Root) && |u.pages| == |t.pages|
    ensures UsedAs(own2, h, Held)
  {
    hide Flat;
    forall s: nat, w: nat | UsedAs(own1, s, Root) && w < MAXPAGE
      ensures Flat(u, s, w) == Flat(t, s, w)
    {
    }
    assert SameMaps(t, own1, u, own2);
    GrowsThenSame(m0, own0, t, own1, u, own2, r, n0, a, f);
  }

  // The page that could not be mapped goes back.
  lemma {:induction false} GrowsThenPush(
      m0: Mem, own0: seq<Use>, t: Mem, own1: seq<Use>, r: nat, n0: nat, a: nat, f: nat -> Want, h: nat)
    requires Owned(t, own1) && Grows(m0, own0, t, own1, r, n0, a, f) && UsedAs(own1, r, Root) && UsedAs(own1, h, Held)
    requires h != 0
    requires h < |own0| && !own0[h].Leaf? && !own0[h].Held? && a < TRAPFRAME
    ensures h < |t.pages| && Owned(Pushed(t, h, Junk(1)), own1[h := Free])
    ensures Grows(m0, own0, Pushed(t, h, Junk(1)), own1[h := Free], r, n0, a, f) && UsedAs(own1[h := Free], r, Root)
  {
    PushOwned(t, own1, h, Junk(1));
    hide Flat, Owned;
    var u := Pushed(t, h, Junk(1));
    forall x | n0 <= x < a
      ensures Fresh(u, r, x, f)
    {
      assert Fresh(t, r, x, f);
      FlatUse(t, own1, r, x);
    }
    GrowsFill(m0, own0, t, own1, r, n0, a, f, h, u);
    GrowsGives(m0, own0, u, own1, r, n0, a, f, h);
  }

  lemma {:induction false} GrowsGives(
      m0: Mem, own0: seq<Use>, t: Mem, own1: seq<Use>, r: nat, n0: nat, a: nat, f: nat -> Want, h: nat)
    requires Grows(m0, own0, t, own1, r, n0, a, f) && UsedAs(own1, h, Held) && h < |own0| && !own0[h].Leaf?
    requires !own0[h].Held?
    ensures Grows(m0, own0, t, own1[h := Free], r, n0, a, f)
  {
    hide Flat, UserPages, Fresh;
    forall s: nat | UsedAs(own0, s, Root)
      ensures UsedAs(own1[h := Free], s, Root)
    {
      assert UsedAs(own1, s, Root);
    }
  }

  // Taking the new pages away again.
  lemma {:induction false} ShrinksBack(
      m0: Mem, own0: seq<Use>, t: Mem, own1: seq<Use>, u: Mem, own2: seq<Use>, r: nat, n0: nat, a: nat, f: nat -> Want)
    requires n0 <= a < TRAPFRAME && Grows(m0, own0, t, own1, r, n0, a, f)
    requires Removes(t, own1, u, own2, r, n0, a - n0, true)
    requires UserPages(m0, r, n0) && Owned(m0, own0) && UserPages(u, r, n0) && UsedAs(own0, r, Root)
    ensures Grows(m0, own0, u, own2, r, n0, n0, f)
  {
    hide Flat;
    forall s: nat, v: nat | UsedAs(own0, s, Root) && v < MAXPAGE
      ensures Alike(Flat(u, s, v), Flat(m0, s, v))
    {
      assert UsedAs(own1, s, Root);
      if s == r && n0 <= v < a {
        assert !Flat(m0, r, v).v;
      } else {
        assert Alike(Flat(t, s, v), Flat(m0, s, v));
      }
    }
    forall p | 0 <= p < |own0| && (own0[p].Leaf? || own0[p].Held?)
      ensures own2[p] == own0[p] && u.pages[p] == m0.pages[p]
    {
      OldLeafBelow(m0, own0, p, r, n0);
    }
    forall s: nat | UsedAs(own0, s, Root)
      ensures UsedAs(own2, s, Root)
    {
      assert UsedAs(own1, s, Root);
    }
  }

  lemma {:induction false} OldLeafBelow(m: Mem, own: seq<Use>, p: nat, r: nat, n: nat)
    requires Owned(m, own) && UserPages(m, r, n) && p < |own|
    ensures own[p].Leaf? && own[p].r == r ==> own[p].v < n
  {
    assert PageOk(m, own, p);
  }

  lemma {:induction false} UpAbove(sz: nat, i: nat)
    requires i * 4096 < sz
    ensures i < Up(sz)
  {
  }

  lemma {:induction false} AllMapped(m: Mem, r: nat, n: nat)
    requires UserPages(m, r, n) && n <= TRAPFRAME
    ensures forall w :: 0 <= w < 0 + n ==> Flat(m, r, w).v
  {
    hide Flat;
  }

  lemma {:induction false} GrowsRoot(
      m0: Mem, own0: seq<Use>, t: Mem, own: seq<Use>, c: nat, n0: nat, n: nat, f: nat -> Want, r: nat)
    requires Grows(m0, own0, t, own, c, n0, n, f) && UsedAs(own0, r, Root)
    ensures UsedAs(own, r, Root) && |t.pages| == |m0.pages|
  {
  }

  // While the child grows the parent's page i stays where and what it was.
  lemma {:induction false} ParentPage(
      m0: Mem, own0: seq<Use>, t: Mem, own: seq<Use>, r: nat, c: nat, i: nat, n: nat, f: nat -> Want)
    requires Owned(m0, own0) && Grows(m0, own0, t, own, c, 0, i, f) && UsedAs(own0, r, Root) && r != c
    requires UserPages(m0, r, n) && i < n < TRAPFRAME && f == CopyOf(m0, r)
    ensures Flat(t, r, i) == Flat(m0, r, i) && Flat(t, r, i).v && IsLeaf(Flat(t, r, i))
    ensures var p := Flat(t, r, i).ppn;
            && p < |t.pages| && t.pages[p].Data? && |t.pages[p].bytes| == PGSIZE
            && f(i) == Want(Flat(t, r, i), t.pages[p])
  {
    FlatUse(m0, own0, r, i);
    assert PageOk(m0, own0, Flat(m0, r, i).ppn);
    hide Flat, Owned;
    assert Alike(Flat(t, r, i), Flat(m0, r, i));
  }

  /** After a successful uvmcopy() parent and child share no page, and page by page have equal contents and
      permissions. */
  lemma {:induction false} CopiedApart(
      m0: Mem, own0: seq<Use>, t: Mem, own: seq<Use>, r: nat, c: nat, n: nat, v: nat, w: nat)
    requires Owned(m0, own0) && Owned(t, own) && Grows(m0, own0, t, own, c, 0, n, CopyOf(m0, r))
    requires UsedAs(own0, r, Root) && UsedAs(own0, c, Root) && r != c && UserPages(m0, r, n) && v < n < TRAPFRAME
    requires w < n
    ensures Flat(t, c, v).ppn != Flat(t, r, w).ppn
    ensures Flat(t, c, v) == Flat(t, r, v).(ppn := Flat(t, c, v).ppn)
    ensures Flat(t, c, v).ppn < |t.pages| && Flat(t, r, v).ppn < |t.pages|
    ensures t.pages[Flat(t, c, v).ppn] == t.pages[Flat(t, r, v).ppn]
    ensures UserPages(t, r, n) && UserPages(t, c, n)
  {
    var f := CopyOf(m0, r);
    GrowsRoot(m0, own0, t, own, c, 0, n, f, r);
    GrowsRoot(m0, own0, t, own, c, 0, n, f, c);
    forall x | 0 <= x < TRAPFRAME
      ensures Flat(t, r, x).v <==> x < n
    {
      assert Alike(Flat(t, r, x), Flat(m0, r, x));
    }
    ParentThere(m0, own0, t, own, r, c, n, v);
    ParentThere(m0, own0, t, own, r, c, n, w);
    assert Fresh(t, c, v, f);
    hide Grows, Owned, Flat;
    FlatUse(t, own, c, v);
    FlatUse(t, own, r, w);
  }

  lemma {:induction false} ParentThere(m0: Mem, own0: seq<Use>, t: Mem, own: seq<Use>, r: nat, c: nat, n: nat, v: nat)
    requires Owned(m0, own0) && Grows(m0, own0, t, own, c, 0, n, CopyOf(m0, r)) && UsedAs(own0, r, Root) && r != c
    requires UserPages(m0, r, n) && v < n < TRAPFRAME
    ensures Flat(t, r, v) == Flat(m0, r, v) && Flat(t, r, v).v && Flat(t, r, v).ppn < |t.pages| == |m0.pages|
    ensures t.pages[Flat(t, r, v).ppn] == m0.pages[Flat(m0, r, v).ppn]
  {
    FlatUse(m0, own0, r, v);
    assert Alike(Flat(t, r, v), Flat(m0, r, v));
    hide Flat, Owned;
  }

  // ---- freewalk()

  function Rank(u: Use): nat {
    if u.Root? then 2 else if u.Mid? then 1 else 0
  }

  // Page x is p or a table under it.
  predicate Sub(own: seq<Use>, p: nat, x: nat) {
    && p < |own| && x < |own|
    && (x == p
        || (own[p].Root? && (own[x].Mid? || own[x].Low?) && own[x].r == p)
        || (own[p].Mid? && own[x].Low? && own[x].r == own[p].r && own[x].i == own[p].i))
  }

  // The entry of p that leads to x.
  function Way(own: seq<Use>, p: nat, x: nat): (i: nat)
    requires p < |own| && x < |own|
  {
    if own[p].Root? && (own[x].Mid? || own[x].Low?) then own[x].i else if own[x].Low? then own[x].j else 0
  }

  // The tables under p are still as they were in m0.
  ghost predicate Untouched(m0: Mem, own0: seq<Use>, p: nat, m: Mem, own: seq<Use>) {
    && |own| == |own0| == |m.pages| == |m0.pages|
    && forall x :: 0 <= x < |own0| && Sub(own0, p, x) ==> own[x] == Held && m.pages[x] == m0.pages[x]
  }

  // No low table under p maps anything.
  ghost predicate NoLeaves(m0: Mem, own0: seq<Use>, p: nat) {
    forall x: nat, k: nat {:trigger Entry(m0, x, k)} :: Sub(own0, p, x) && own0[x].Low? ==> !Entry(m0, x, k).v
  }

  ghost predicate FreedUnder(own0: seq<Use>, p: nat, m: Mem, own: seq<Use>, t: Mem, own': seq<Use>) {
    && |own'| == |own| == |own0| == |m.pages| == |t.pages|
    && forall x :: 0 <= x < |own| ==>
         own'[x] == (if Sub(own0, p, x) then Free else own[x]) && (!Sub(own0, p, x) ==> t.pages[x] == m.pages[x])
  }

  // freewalk(p) has dealt with the entries below i.
  ghost predicate Freeing(m0: Mem, own0: seq<Use>, p: nat, i: nat, m: Mem, own: seq<Use>, t: Mem, own': seq<Use>) {
    && |own'| == |own| == |own0| == |m.pages| == |t.pages| == |m0.pages| && p < |own0|
    && TableAt(t, p) && own'[p] == Held
    && (forall k {:trigger Entry(t, p, k)} :: i <= k < 512 ==> Entry(t, p, k) == Entry(m0, p, k))
    && (forall x :: 0 <= x < |own| && !Sub(own0, p, x) ==> own'[x] == own[x] && t.pages[x] == m.pages[x])
    && (forall x :: 0 <= x < |own| && x != p && Sub(own0, p, x) ==>
          if Way(own0, p, x) < i then own'[x] == Free else own'[x] == Held && t.pages[x] == m0.pages[x])
  }

  lemma {:induction false} FreeingStarts(m0: Mem, own0: seq<Use>, p: nat, m: Mem, own: seq<Use>)
    requires Owned(m0, own0) && p < |own0| && (own0[p].Root? || own0[p].Mid? || own0[p].Low?)
    requires Untouched(m0, own0, p, m, own)
    ensures Freeing(m0, own0, p, 0, m, own, m, own)
  {
    assert PageOk(m0, own0, p);
    hide Owned, MidOf, LowOf;
    forall k | 0 <= k < 512
      ensures Entry(m, p, k) == Entry(m0, p, k)
    {
    }
  }

  lemma {:induction false} FreeingEntry(
      m0: Mem, own0: seq<Use>, p: nat, i: nat, m: Mem, own: seq<Use>, t: Mem, own': seq<Use>)
    requires Freeing(m0, own0, p, i, m, own, t, own') && i < 512
    ensures p < |t.pages| && t.pages[p].Table? && |t.pages[p].ptes| == 512 && t.pages[p].ptes[i] == Entry(m0, p, i)
  {
    assert Entry(t, p, i) == Entry(m0, p, i);
    hide Sub;
  }

  // Entry i of p leads to exactly the tables it should.
  lemma {:induction false} ChildSub(m0: Mem, own0: seq<Use>, p: nat, i: nat, e: Pte, x: nat)
    requires Owned(m0, own0) && p < |own0| && (own0[p].Root? || own0[p].Mid?) && i < 512 && e == Entry(m0, p, i) && e.v
    requires x < |own0|
    ensures e.ppn < |own0| && e.ppn != p && Rank(own0[e.ppn]) < Rank(own0[p]) && (own0[e.ppn].Mid? || own0[e.ppn].Low?)
    ensures Sub(own0, e.ppn, x) <==> x != p && Sub(own0, p, x) && Way(own0, p, x) == i
  {
    assert PageOk(m0, own0, p) && PageOk(m0, own0, x);
    assert IsBranch(e) && (own0[p].Root? ==> UsedAs(own0, e.ppn, Mid(p, i)))
           && (own0[p].Mid? ==> UsedAs(own0, e.ppn, Low(own0[p].r, own0[p].i, i)));
    hide Owned;
  }

  // An entry that leads nowhere has no tables.
  lemma {:induction false} NothingUnder(m0: Mem, own0: seq<Use>, p: nat, i: nat, x: nat)
    requires Owned(m0, own0) && p < |own0| && (own0[p].Root? || own0[p].Mid? || own0[p].Low?) && i < 512
    requires !Entry(m0, p, i).v && x < |own0|
    ensures x != p && Sub(own0, p, x) ==> Way(own0, p, x) != i
  {
    assert PageOk(m0, own0, p) && PageOk(m0, own0, x);
    hide Owned;
  }

  lemma {:induction false} NotALeaf(m0: Mem, own0: seq<Use>, p: nat, i: nat, e: Pte)
    requires Owned(m0, own0) && p < |own0| && (own0[p].Root? || own0[p].Mid? || own0[p].Low?) && i < 512
    requires NoLeaves(m0, own0, p)
    requires e == Entry(m0, p, i) && !(e.v && !e.r && !e.w && !e.x)
    ensures !e.v
  {
    assert PageOk(m0, own0, p) && Sub(own0, p, p);
    hide Owned;
  }

  lemma {:induction false} ChildUntouched(
      m0: Mem, own0: seq<Use>, p: nat, i: nat, m: Mem, own: seq<Use>, t: Mem, own': seq<Use>, e: Pte)
    requires Owned(m0, own0) && p < |own0| && (own0[p].Root? || own0[p].Mid? || own0[p].Low?) && i < 512
    requires NoLeaves(m0, own0, p)
    requires Freeing(m0, own0, p, i, m, own, t, own') && e == Entry(m0, p, i) && e.v
    ensures e.ppn < |own0| && (own0[e.ppn].Mid? || own0[e.ppn].Low?) && Rank(own0[e.ppn]) < Rank(own0[p])
    ensures Untouched(m0, own0, e.ppn, t, own') && NoLeaves(m0, own0, e.ppn)
  {
    assert Sub(own0, p, p);
    forall x | 0 <= x < |own0|
      ensures Sub(own0, e.ppn, x) <==> x != p && Sub(own0, p, x) && Way(own0, p, x) == i
    {
      ChildSub(m0, own0, p, i, e, x);
    }
    ChildSub(m0, own0, p, i, e, p);
    hide Owned, Sub, Entry;
    forall x: nat, k: nat | Sub(own0, e.ppn, x) && own0[x].Low?
      ensures !Entry(m0, x, k).v
    {
      SubIn(own0, e.ppn, x);
    }
  }

  lemma {:induction false} SubIn(own: seq<Use>, p: nat, x: nat)
    requires Sub(own, p, x)
    ensures x < |own|
  {
  }

  lemma {:induction false} ChildFreed(
      m0: Mem, own0: seq<Use>, p: nat, i: nat, m: Mem, own: seq<Use>, t: Mem, own1: seq<Use>, u: Mem, own2: seq<Use>,
      e: Pte)
    requires Owned(m0, own0) && p < |own0| && (own0[p].Root? || own0[p].Mid?) && i < 512
    requires Freeing(m0, own0, p, i, m, own, t, own1) && e == Entry(m0, p, i) && e.v
    requires FreedUnder(own0, e.ppn, t, own1, u, own2)
    ensures Freed1(m0, own0, p, i, m, own, u, own2)
    ensures p < |u.pages| && u.pages[p].Table? && |u.pages[p].ptes| == 512
  {
    forall x | 0 <= x < |own0|
      ensures Sub(own0, e.ppn, x) <==> x != p && Sub(own0, p, x) && Way(own0, p, x) == i
    {
      ChildSub(m0, own0, p, i, e, x);
    }
    hide Owned, Sub;
    forall k | i <= k < 512
      ensures Entry(u, p, k) == Entry(m0, p, k)
    {
      assert Entry(t, p, k) == Entry(m0, p, k);
    }
  }

  // Between freewalk(child) and pagetable[i] = 0.
  ghost predicate Freed1(m0: Mem, own0: seq<Use>, p: nat, i: nat, m: Mem, own: seq<Use>, t: Mem, own': seq<Use>) {
    && |own'| == |own| == |own0| == |m.pages| == |t.pages| == |m0.pages| && p < |own0|
    && TableAt(t, p) && own'[p] == Held
    && (forall k {:trigger Entry(t, p, k)} :: i <= k < 512 ==> Entry(t, p, k) == Entry(m0, p, k))
    && (forall x :: 0 <= x < |own| && !Sub(own0, p, x) ==> own'[x] == own[x] && t.pages[x] == m.pages[x])
    && (forall x :: 0 <= x < |own| && x != p && Sub(own0, p, x) ==>
          if Way(own0, p, x) <= i then own'[x] == Free else own'[x] == Held && t.pages[x] == m0.pages[x])
  }

  lemma {:induction false} EntryZeroed(
      m0: Mem, own0: seq<Use>, p: nat, i: nat, m: Mem, own: seq<Use>, t: Mem, own': seq<Use>, u: Mem)
    requires Owned(t, own') && i < 512 && Freed1(m0, own0, p, i, m, own, t, own') && TableAt(t, p)
    requires u == t.(pages := t.pages[p := Table(t.pages[p].ptes[i := NoPte()])])
    ensures Owned(u, own') && Freeing(m0, own0, p, i + 1, m, own, u, own')
  {
    FillOwned(t, own', p, Table(t.pages[p].ptes[i := NoPte()]));
    hide Owned, Flat;
    assert Sub(own0, p, p);
    hide Sub;
    forall k | i + 1 <= k < 512
      ensures Entry(u, p, k) == Entry(m0, p, k)
    {
      assert Entry(t, p, k) == Entry(m0, p, k);
    }
  }

  lemma {:induction false} NoChild(
      m0: Mem, own0: seq<Use>, p: nat, i: nat, m: Mem, own: seq<Use>, t: Mem, own': seq<Use>)
    requires Owned(m0, own0) && p < |own0| && (own0[p].Root? || own0[p].Mid? || own0[p].Low?) && i < 512
    requires !Entry(m0, p, i).v
    requires Freeing(m0, own0, p, i, m, own, t, own')
    ensures Freeing(m0, own0, p, i + 1, m, own, t, own')
  {
    forall x | 0 <= x < |own0|
      ensures x != p && Sub(own0, p, x) ==> Way(own0, p, x) != i
    {
      NothingUnder(m0, own0, p, i, x);
    }
    hide Owned, Sub, Entry;
  }

  lemma {:induction false} WayBelow(m0: Mem, own0: seq<Use>, p: nat, x: nat)
    requires Owned(m0, own0) && p < |own0| && (own0[p].Root? || own0[p].Mid? || own0[p].Low?) && x < |own0| && x != p
    requires Sub(own0, p, x)
    ensures Way(own0, p, x) < 512
  {
    assert PageOk(m0, own0, x);
  }

  lemma {:induction false} LastPush(m0: Mem, own0: seq<Use>, p: nat, m: Mem, own: seq<Use>, t: Mem, own': seq<Use>)
    requires Owned(m0, own0) && Owned(t, own') && p < |own0| && (own0[p].Root? || own0[p].Mid? || own0[p].Low?)
    requires Freeing(m0, own0, p, 512, m, own, t, own')
    ensures p < |t.pages| == |own'| && Owned(Pushed(t, p, Junk(1)), own'[p := Free])
    ensures FreedUnder(own0, p, m, own, Pushed(t, p, Junk(1)), own'[p := Free])
  {
    assert p != 0;
    PushOwned(t, own', p, Junk(1));
    forall x | 0 <= x < |own0| && x != p && Sub(own0, p, x)
      ensures Way(own0, p, x) < 512
    {
      WayBelow(m0, own0, p, x);
    }
    assert Sub(own0, p, p);
    hide Owned, Sub, Flat;
  }

  // ---- giving a whole table up

  // Page p, used as u, belongs to root r.
  predicate Belongs(u: Use, p: nat, r: nat) {
    (u.Root? && p == r) || ((u.Mid? || u.Low? || u.Leaf?) && u.r == r)
  }

  ghost predicate Released(m: Mem, own: seq<Use>, t: Mem, own': seq<Use>, r: nat) {
    && |own'| == |own| == |m.pages| == |t.pages|
    && (forall p :: 0 <= p < |own| ==> own'[p] == if Belongs(own[p], p, r) then Free else own[p])
    && (forall p :: 0 <= p < |own| && !Belongs(own[p], p, r) && !own[p].Free? ==> t.pages[p] == m.pages[p])
  }

  // The tables of r pass into freewalk()'s hands.
  ghost function Detached(own: seq<Use>, r: nat): (own': seq<Use>)
    ensures |own'| == |own|
    ensures forall p :: 0 <= p < |own| ==> own'[p] == if Belongs(own[p], p, r) then Held else own[p]
  {
    seq(|own|, p requires 0 <= p < |own| => if Belongs(own[p], p, r) then Held else own[p])
  }

  ghost predicate Unmapped(m: Mem, own: seq<Use>, r: nat) {
    && (forall v :: 0 <= v < MAXPAGE ==> !Flat(m, r, v).v)
    && (forall p :: 0 <= p < |own| ==> !(own[p].Leaf? && own[p].r == r))
  }

  lemma {:induction false} DetachPage(m: Mem, own: seq<Use>, r: nat, p: nat)
    requires Owned(m, own) && UsedAs(own, r, Root) && Unmapped(m, own, r) && p < |own|
    ensures PageOk(m, Detached(own, r), p)
  {
    assert PageOk(m, own, p);
    hide Owned, Flat, MidOf, LowOf, Unmapped;
  }

  lemma {:induction false} LowHasNone(m: Mem, own: seq<Use>, r: nat, x: nat, k: nat)
    requires Owned(m, own) && Unmapped(m, own, r) && x < |own| && own[x].Low? && own[x].r == r
    ensures !Entry(m, x, k).v
  {
    assert PageOk(m, own, x);
    if k < 512 {
      var i, j := own[x].i, own[x].j;
      IndicesOf(i, j, k);
      assert PageNo(i, j, k) < MAXPAGE;
      assert Flat(m, r, PageNo(i, j, k)) == Entry(m, x, k);
    }
  }

  lemma {:induction false} Detach(m: Mem, own: seq<Use>, r: nat)
    requires Owned(m, own) && UsedAs(own, r, Root) && Unmapped(m, own, r)
    ensures Owned(m, Detached(own, r)) && Untouched(m, own, r, m, Detached(own, r)) && NoLeaves(m, own, r)
  {
    forall p | 0 <= p < |own|
      ensures PageOk(m, Detached(own, r), p)
    {
      DetachPage(m, own, r, p);
    }
    forall x: nat, k: nat | Sub(own, r, x) && own[x].Low?
      ensures !Entry(m, x, k).v
    {
      LowHasNone(m, own, r, x, k);
    }
    hide PageOk, Flat, Entry, Unmapped;
  }

  lemma {:induction false} AllRemoved(m: Mem, own: seq<Use>, t: Mem, own': seq<Use>, r: nat, n: nat)
    requires Owned(m, own) && UsedAs(own, r, Root) && UserPages(m, r, n) && n <= TRAPFRAME
    requires !Flat(m, r, TRAPFRAME).v && !Flat(m, r, TRAMPOLINE).v && Removes(m, own, t, own', r, 0, n, true)
    ensures Unmapped(t, own', r) && UsedAs(own', r, Root)
  {
    forall p | 0 <= p < |own|
      ensures own[p].Leaf? && own[p].r == r ==> own[p].v < n && own[p].v < TRAPFRAME
    {
      OldLeafBelow(m, own, p, r, n);
      assert PageOk(m, own, p);
    }
    hide Owned, Flat;
  }

  lemma {:induction false} AllReleased(
      m: Mem, own: seq<Use>, t: Mem, own1: seq<Use>, u: Mem, own': seq<Use>, r: nat, n: nat)
    requires Owned(m, own) && UsedAs(own, r, Root) && UserPages(m, r, n) && n <= TRAPFRAME
    requires Removes(m, own, t, own1, r, 0, n, true)
    requires UsedAs(own1, r, Root) && FreedUnder(own1, r, t, Detached(own1, r), u, own') && Unmapped(t, own1, r)
    ensures Released(m, own, u, own', r)
  {
    forall p | 0 <= p < |own|
      ensures own[p].Leaf? && own[p].r == r ==> own[p].v < n && own[p].v < TRAPFRAME
    {
      OldLeafBelow(m, own, p, r, n);
      assert PageOk(m, own, p);
    }
    hide Owned, Flat;
  }

  // Unmapping a page that is not a user page moves no page.
  lemma {:induction false} RemovesRoot(m: Mem, own: seq<Use>, t: Mem, own1: seq<Use>, r: nat, v: nat)
    requires Removes(m, own, t, own1, r, v, 1, false) && UsedAs(own, r, Root) && TRAPFRAME <= v < MAXPAGE
    ensures own1 == own && !Flat(t, r, v).v
  {
    hide Flat;
  }

  lemma {:induction false} RemovesTwo(
      m: Mem, own: seq<Use>, t: Mem, own1: seq<Use>, u: Mem, own2: seq<Use>, r: nat, n: nat)
    requires Removes(m, own, t, own1, r, TRAMPOLINE, 1, false) && Removes(t, own1, u, own2, r, TRAPFRAME, 1, false)
    requires UsedAs(own, r, Root) && UserPages(m, r, n)
    ensures own2 == own && UserPages(u, r, n) && !Flat(u, r, TRAPFRAME).v && !Flat(u, r, TRAMPOLINE).v
    ensures |u.pages| == |m.pages| == |own|
    ensures forall p :: 0 <= p < |own| && !own[p].Free? && !((own[p].Low? || own[p].Leaf?) && own[p].r == r) ==>
              u.pages[p] == m.pages[p]
  {
    RemovesRoot(m, own, t, own1, r, TRAMPOLINE);
    RemovesRoot(t, own1, u, own2, r, TRAPFRAME);
    hide Flat;
  }

  lemma {:induction false} ReleasedToo(m: Mem, own: seq<Use>, t: Mem, own2: seq<Use>, u: Mem, own': seq<Use>, r: nat)
    requires own2 == own && |t.pages| == |m.pages| == |own| && Released(t, own2, u, own', r)
    requires forall p :: 0 <= p < |own| && !own[p].Free? && !((own[p].Low? || own[p].Leaf?) && own[p].r == r) ==>
               t.pages[p] == m.pages[p]
    ensures Released(m, own, u, own', r)
  {
  }

  /** Giving one table up changes no mapping of another. */
  lemma {:induction false} ReleasedOthers(m: Mem, own: seq<Use>, t: Mem, own': seq<Use>, r: nat, s: nat, v: nat)
    requires Owned(m, own) && Released(m, own, t, own', r) && UsedAs(own, s, Root) && s != r
    ensures UsedAs(own', s, Root) && Flat(t, s, v) == Flat(m, s, v)
  {
    LowUse(m, own, s, Hi(v), Mi(v));
    hide Owned, Hi, Mi, Lo;
  }

  // ---- copying to and from user memory

  lemma {:induction false} NoLowFlat(m: Mem, r: nat, v: nat)
    requires LowOf(m, r, Hi(v), Mi(v)).None?
    ensures Flat(m, r, v) == NoPte()
  {
  }

  lemma {:induction false} OutStops(m: Mem, r: nat, va: nat, src: seq<byte>)
    requires 0 < |src| && !Writable(m, r, va)
    ensures OutBytes(m, r, va, src) == (m, false)
  {
  }

  lemma {:induction false} OutDone(m: Mem, r: nat, va: nat)
    ensures OutBytes(m, r, va, []) == (m, true)
  {
  }

  // Byte k of the page chunk at va.
  lemma {:induction false} ByteIs(m: Mem, r: nat, va: nat, k: nat, a: nat, p: nat)
    requires Readable(m, r, va) && OffsetOf(va) + k < 4096 && a == va + k && p == Flat(m, r, PageOf(va)).ppn
    requires p < |m.pages| && m.pages[p].Data? && |m.pages[p].bytes| == 4096
    ensures Readable(m, r, a) && ByteAt(m, r, a) == m.pages[p].bytes[OffsetOf(va) + k]
  {
    hide Flat;
    SamePage(va, k);
  }
}
