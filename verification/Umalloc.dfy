/** The Kernighan and Ritchie allocator of user/umalloc.c. Addresses and sizes are in units of one Header. */
module Umalloc {
  import opened Options

  const BASE: nat := 1 // &base, below everything sbrk() returns; 0 is the null pointer

  // A block on the free list.
  datatype Node = Node(addr: nat, size: nat)

  // The list in address order from base: circular by construction, blocks disjoint and never adjacent.
  ghost predicate Ordered(fl: seq<Node>) {
    && 0 < |fl| && fl[0] == Node(BASE, 0)
    && (forall i :: 0 < i < |fl| ==> 0 < fl[i].size)
    && (forall i :: 0 <= i < |fl| - 1 ==> fl[i].addr + fl[i].size < fl[i + 1].addr)
  }

  lemma {:induction false} OrderedFar(fl: seq<Node>, i: nat, j: nat)
    requires Ordered(fl) && i < j < |fl|
    ensures fl[i].addr + fl[i].size < fl[j].addr
    decreases j - i
  {
    if i + 1 < j {
      OrderedFar(fl, i + 1, j);
    }
  }

  predicate Within(u: nat, a: nat, n: nat) {
    a <= u < a + n
  }

  function Range(a: nat, n: nat): (r: set<nat>) {
    set u: nat | a <= u < a + n && Within(u, a, n)
  }

  ghost function FreeUnits(fl: seq<Node>): (r: set<nat>) {
    set i: nat, u: nat | i < |fl| && u in Range(fl[i].addr, fl[i].size) :: u
  }

  ghost function AllocUnits(alloc: map<nat, nat>): (r: set<nat>) {
    set b: nat, u: nat | b in alloc && u in Range(b, alloc[b]) :: u
  }

  ghost predicate InFree(fl: seq<Node>, u: nat) {
    exists i :: 0 <= i < |fl| && fl[i].addr <= u < fl[i].addr + fl[i].size
  }

  lemma {:induction false} FreeUnitsMeans(fl: seq<Node>, u: nat)
    ensures u in FreeUnits(fl) <==> InFree(fl, u)
  {
    if InFree(fl, u) {
      var i :| 0 <= i < |fl| && fl[i].addr <= u < fl[i].addr + fl[i].size;
      assert u in Range(fl[i].addr, fl[i].size);
    }
  }

  // Place j for a block at b: the last node below it.
  ghost predicate Place(fl: seq<Node>, j: nat, b: nat) {
    j < |fl| && fl[j].addr < b && (j + 1 < |fl| ==> b < fl[j + 1].addr)
  }

  // free()'s effect: the block goes in after node j, joined with its neighbours where they touch.
  function Joined(fl: seq<Node>, j: nat, b: nat, n: nat): (r: seq<Node>)
    requires j < |fl|
  {
    var up := j + 1 < |fl| && b + n == fl[j + 1].addr;
    var n1 := if up then n + fl[j + 1].size else n;
    var rest := if up then fl[j + 2..] else fl[j + 1..];
    if fl[j].addr + fl[j].size == b then fl[..j] + [Node(fl[j].addr, fl[j].size + n1)] + rest
    else fl[..j + 1] + [Node(b, n1)] + rest
  }

  // The block meets no free block.
  ghost predicate Clear(fl: seq<Node>, j: nat, b: nat, n: nat) {
    && Place(fl, j, b) && 0 < n
    && fl[j].addr + fl[j].size <= b && (j + 1 < |fl| ==> b + n <= fl[j + 1].addr)
  }

  /** free() keeps the list in order and fully joined. */
  lemma {:induction false} JoinedOrdered(fl: seq<Node>, j: nat, b: nat, n: nat)
    requires Ordered(fl) && Clear(fl, j, b, n)
    ensures Ordered(Joined(fl, j, b, n))
  {
    var r := Joined(fl, j, b, n);
    var down, up := fl[j].addr + fl[j].size == b, j + 1 < |fl| && b + n == fl[j + 1].addr;
    assert down ==> j > 0;
    forall i | 0 <= i < |r| - 1
      ensures r[i].addr + r[i].size < r[i + 1].addr
    {
      JoinedAt(fl, j, b, n, i);
      JoinedAt(fl, j, b, n, i + 1);
      hide Joined;
    }
    forall i | 0 < i < |r|
      ensures 0 < r[i].size
    {
      JoinedAt(fl, j, b, n, i);
      hide Joined;
    }
    JoinedAt(fl, j, b, n, 0);
  }

  // Node i of the new list.
  lemma {:induction false} JoinedAt(fl: seq<Node>, j: nat, b: nat, n: nat, i: nat)
    requires j < |fl| && i < |Joined(fl, j, b, n)|
    ensures var up, down := j + 1 < |fl| && b + n == fl[j + 1].addr, fl[j].addr + fl[j].size == b;
            var at, skip := (if down then j else j + 1), (if up then 1 else 0);
            var n1 := if up then n + fl[j + 1].size else n;
            && |Joined(fl, j, b, n)| == |fl| + 1 - skip - (if down then 1 else 0)
            && Joined(fl, j, b, n)[i] ==
               if i < at then fl[i]
               else if i == at then (if down then Node(fl[j].addr, fl[j].size + n1) else Node(b, n1))
               else fl[i + skip - (if down then 0 else 1)]
  {
  }

  // A unit of a node is a unit of the list.
  lemma {:induction false} InNode(fl: seq<Node>, i: nat, u: nat)
    requires i < |fl| && fl[i].addr <= u < fl[i].addr + fl[i].size
    ensures InFree(fl, u)
  {
  }

  lemma {:induction false} JoinedSub(fl: seq<Node>, j: nat, b: nat, n: nat, u: nat)
    requires Ordered(fl) && Clear(fl, j, b, n) && InFree(Joined(fl, j, b, n), u)
    ensures InFree(fl, u) || b <= u < b + n
  {
    var r := Joined(fl, j, b, n);
    var i :| 0 <= i < |r| && r[i].addr <= u < r[i].addr + r[i].size;
    var up, down := j + 1 < |fl| && b + n == fl[j + 1].addr, fl[j].addr + fl[j].size == b;
    var at, skip := (if down then j else j + 1), (if up then 1 else 0);
    JoinedAt(fl, j, b, n, i);
    hide Joined, InFree, Ordered;
    if i < at {
      InNode(fl, i, u);
    } else if i > at {
      InNode(fl, i + skip - (if down then 0 else 1), u);
    } else if up && fl[j + 1].addr <= u {
      InNode(fl, j + 1, u);
    } else if down && u < b {
      InNode(fl, j, u);
    }
  }

  lemma {:induction false} JoinedSupNode(fl: seq<Node>, j: nat, b: nat, n: nat, i: nat, u: nat)
    requires Clear(fl, j, b, n) && i < |fl| && fl[i].addr <= u < fl[i].addr + fl[i].size
    ensures InFree(Joined(fl, j, b, n), u)
  {
    var up, down := j + 1 < |fl| && b + n == fl[j + 1].addr, fl[j].addr + fl[j].size == b;
    var at, skip := (if down then j else j + 1), (if up then 1 else 0);
    var k := if i < at then i else if i <= j + skip then at else i - skip + (if down then 0 else 1);
    JoinedSize(fl, j, b, n);
    JoinedAt(fl, j, b, n, k);
    hide Joined, InFree;
    InNode(Joined(fl, j, b, n), k, u);
  }

  lemma {:induction false} JoinedSupBlock(fl: seq<Node>, j: nat, b: nat, n: nat, u: nat)
    requires Clear(fl, j, b, n) && b <= u < b + n
    ensures InFree(Joined(fl, j, b, n), u)
  {
    var at := if fl[j].addr + fl[j].size == b then j else j + 1;
    JoinedSize(fl, j, b, n);
    JoinedAt(fl, j, b, n, at);
    hide Joined, InFree;
    InNode(Joined(fl, j, b, n), at, u);
  }

  lemma {:induction false} JoinedSup(fl: seq<Node>, j: nat, b: nat, n: nat, u: nat)
    requires Clear(fl, j, b, n) && (InFree(fl, u) || b <= u < b + n)
    ensures InFree(Joined(fl, j, b, n), u)
  {
    hide Joined;
    if b <= u < b + n {
      JoinedSupBlock(fl, j, b, n, u);
    } else {
      var i :| 0 <= i < |fl| && fl[i].addr <= u < fl[i].addr + fl[i].size;
      JoinedSupNode(fl, j, b, n, i, u);
    }
  }

  lemma {:induction false} JoinedSize(fl: seq<Node>, j: nat, b: nat, n: nat)
    requires j < |fl|
    ensures |Joined(fl, j, b, n)| == |fl| + 1 - (if j + 1 < |fl| && b + n == fl[j + 1].addr then 1 else 0)
                                     - (if fl[j].addr + fl[j].size == b then 1 else 0)
  {
  }

  /** free() adds exactly the block's units to the free ones. */
  lemma {:induction false} JoinedUnits(fl: seq<Node>, j: nat, b: nat, n: nat)
    requires Ordered(fl) && Clear(fl, j, b, n)
    ensures FreeUnits(Joined(fl, j, b, n)) == FreeUnits(fl) + Range(b, n)
  {
    hide Joined, FreeUnits, InFree, Ordered;
    forall u: nat
      ensures u in FreeUnits(Joined(fl, j, b, n)) <==> u in FreeUnits(fl) + Range(b, n)
    {
      FreeUnitsMeans(fl, u);
      FreeUnitsMeans(Joined(fl, j, b, n), u);
      if InFree(Joined(fl, j, b, n), u) {
        JoinedSub(fl, j, b, n, u);
      }
      if InFree(fl, u) || b <= u < b + n {
        JoinedSup(fl, j, b, n, u);
      }
    }
  }

  // malloc()'s effect on the list: node k loses n units at its end, or goes altogether.
  function Carved(fl: seq<Node>, k: nat, n: nat): (r: seq<Node>)
    requires k < |fl| && n <= fl[k].size
  {
    if fl[k].size == n then fl[..k] + fl[k + 1..] else fl[k := Node(fl[k].addr, fl[k].size - n)]
  }

  /** malloc() keeps the list in order and fully joined. */
  lemma {:induction false} CarvedOrdered(fl: seq<Node>, k: nat, n: nat)
    requires Ordered(fl) && 0 < k < |fl| && 0 < n <= fl[k].size
    ensures Ordered(Carved(fl, k, n))
  {
    if k + 1 < |fl| {
      OrderedFar(fl, k - 1, k + 1);
    }
  }

  lemma {:induction false} CarvedSub(fl: seq<Node>, k: nat, n: nat, u: nat)
    requires Ordered(fl) && 0 < k < |fl| && 0 < n <= fl[k].size && InFree(Carved(fl, k, n), u)
    ensures InFree(fl, u) && !(fl[k].addr + (fl[k].size - n) <= u < fl[k].addr + fl[k].size)
  {
    var r := Carved(fl, k, n);
    var i :| 0 <= i < |r| && r[i].addr <= u < r[i].addr + r[i].size;
    var o := if fl[k].size == n && k <= i then i + 1 else i;
    assert fl[o].addr <= u < fl[o].addr + fl[o].size;
    InNode(fl, o, u);
    if o < k {
      OrderedFar(fl, o, k);
    } else if k < o {
      OrderedFar(fl, k, o);
    }
    hide InFree, Ordered;
  }

  lemma {:induction false} CarvedSup(fl: seq<Node>, k: nat, n: nat, u: nat)
    requires 0 < k < |fl| && 0 < n <= fl[k].size
    requires InFree(fl, u) && !(fl[k].addr + (fl[k].size - n) <= u < fl[k].addr + fl[k].size)
    ensures InFree(Carved(fl, k, n), u)
  {
    var o :| 0 <= o < |fl| && fl[o].addr <= u < fl[o].addr + fl[o].size;
    hide InFree;
    InNode(Carved(fl, k, n), if fl[k].size == n && k < o then o - 1 else o, u);
  }

  /** malloc() takes exactly the block's units from the free ones. */
  lemma {:induction false} CarvedUnits(fl: seq<Node>, k: nat, n: nat)
    requires Ordered(fl) && 0 < k < |fl| && 0 < n <= fl[k].size
    ensures FreeUnits(Carved(fl, k, n)) == FreeUnits(fl) - Range(fl[k].addr + (fl[k].size - n), n)
    ensures Range(fl[k].addr + (fl[k].size - n), n) <= FreeUnits(fl)
  {
    forall u: nat
      ensures u in FreeUnits(Carved(fl, k, n)) <==> u in FreeUnits(fl) - Range(fl[k].addr + (fl[k].size - n), n)
      ensures u in Range(fl[k].addr + (fl[k].size - n), n) ==> u in FreeUnits(fl)
    {
      FreeUnitsMeans(fl, u);
      FreeUnitsMeans(Carved(fl, k, n), u);
      if InFree(Carved(fl, k, n), u) {
        CarvedSub(fl, k, n, u);
      }
      if InFree(fl, u) && !(fl[k].addr + (fl[k].size - n) <= u < fl[k].addr + fl[k].size) {
        CarvedSup(fl, k, n, u);
      }
      if u in Range(fl[k].addr + (fl[k].size - n), n) {
        InNode(fl, k, u);
      }
      hide Carved, InFree, FreeUnits;
    }
  }

  // ---- the list in memory

  function Succ(i: nat, n: nat): (r: nat)
    requires i < n
    ensures r < n
  {
    if i + 1 < n then i + 1 else 0
  }

  // Steps from node i on to node j.
  function Dist(i: nat, j: nat, n: nat): (d: nat)
    requires i < n && j < n
  {
    if i <= j then j - i else j + n - i
  }

  ghost predicate NodeAt(fl: seq<Node>, ptr: map<nat, nat>, size: map<nat, nat>, i: nat)
    requires i < |fl|
  {
    && fl[i].addr in ptr && ptr[fl[i].addr] == fl[Succ(i, |fl|)].addr
    && fl[i].addr in size && size[fl[i].addr] == fl[i].size
  }

  ghost predicate Linked(fl: seq<Node>, ptr: map<nat, nat>, size: map<nat, nat>) {
    forall i {:trigger NodeAt(fl, ptr, size, i)} :: 0 <= i < |fl| ==> NodeAt(fl, ptr, size, i)
  }

  // u lies in block b.
  ghost predicate Covers(alloc: map<nat, nat>, b: nat, u: nat) {
    b in alloc && Within(u, b, alloc[b])
  }

  ghost predicate Apart(alloc: map<nat, nat>) {
    forall b, c, u {:trigger Covers(alloc, b, u), Covers(alloc, c, u)} :: Covers(alloc, b, u) && Covers(alloc, c, u) ==>
        b == c
  }

  // Allocated blocks: disjoint from each other and from the free ones; together they are all that was obtained.
  ghost predicate Blocks(fl: seq<Node>, alloc: map<nat, nat>, obtained: set<nat>) {
    && (forall b :: b in alloc ==> BASE < b && 0 < alloc[b])
    && Apart(alloc)
    && FreeUnits(fl) !! AllocUnits(alloc) && FreeUnits(fl) + AllocUnits(alloc) == obtained
  }

  lemma {:induction false} AllocUnitsMeans(alloc: map<nat, nat>, u: nat)
    ensures u in AllocUnits(alloc) <==> exists b :: Covers(alloc, b, u)
  {
    if b :| Covers(alloc, b, u) {
      assert u in Range(b, alloc[b]);
    }
    if u in AllocUnits(alloc) {
      var b: nat :| b in alloc && u in Range(b, alloc[b]);
      assert Covers(alloc, b, u);
    }
  }

  // Every address above base has a place.
  lemma {:induction false} PlaceExists(fl: seq<Node>, b: nat, i: nat) returns (j: nat)
    requires Ordered(fl) && i < |fl| && fl[i].addr < b && forall k :: 0 <= k < |fl| ==> fl[k].addr != b
    ensures Place(fl, j, b)
    decreases |fl| - i
  {
    if i + 1 == |fl| || b < fl[i + 1].addr {
      j := i;
    } else {
      j := PlaceExists(fl, b, i + 1);
    }
  }

  /** An allocated block is clear of the free list. */
  lemma {:induction false} AllocClear(fl: seq<Node>, alloc: map<nat, nat>, obtained: set<nat>, b: nat) returns (j: nat)
    requires Ordered(fl) && Blocks(fl, alloc, obtained) && b in alloc
    ensures Clear(fl, j, b, alloc[b])
  {
    AllocUnitsMeans(alloc, b);
    assert Covers(alloc, b, b);
    FreeUnitsMeans(fl, b);
    assert !InFree(fl, b);
    assert forall k :: 0 < k < |fl| ==> fl[k].addr <= fl[k].addr < fl[k].addr + fl[k].size;
    j := PlaceExists(fl, b, 0);
    if j + 1 < |fl| {
      var c := fl[j + 1].addr;
      AllocUnitsMeans(alloc, c);
      InNode(fl, j + 1, c);
      FreeUnitsMeans(fl, c);
      assert !Covers(alloc, b, c);
    }
    hide FreeUnits, AllocUnits;
  }

  lemma {:induction false} AllocMinus(alloc: map<nat, nat>, b: nat, u: nat)
    requires Apart(alloc) && b in alloc
    ensures u in AllocUnits(alloc) <==> u in AllocUnits(alloc - {b}) || u in Range(b, alloc[b])
    ensures u in AllocUnits(alloc - {b}) ==> u !in Range(b, alloc[b])
  {
    AllocUnitsMeans(alloc, u);
    AllocUnitsMeans(alloc - {b}, u);
    hide AllocUnits;
    assert u in Range(b, alloc[b]) <==> Covers(alloc, b, u);
    if c :| Covers(alloc - {b}, c, u) {
      assert Covers(alloc, c, u);
    }
    if c :| Covers(alloc, c, u) {
      assert c != b ==> Covers(alloc - {b}, c, u);
    }
  }

  lemma {:induction false} AllocPlus(alloc: map<nat, nat>, b: nat, n: nat, u: nat, more: map<nat, nat>)
    requires b !in alloc && more == alloc[b := n]
    ensures u in AllocUnits(more) <==> u in AllocUnits(alloc) || u in Range(b, n)
  {
    AllocUnitsMeans(alloc, u);
    AllocUnitsMeans(more, u);
    hide AllocUnits;
    assert u in Range(b, n) <==> Covers(more, b, u);
    if c :| Covers(alloc, c, u) {
      assert Covers(more, c, u);
    }
    if c :| Covers(more, c, u) {
      assert c != b ==> Covers(alloc, c, u);
    }
  }

  lemma {:induction false} ApartMinus(alloc: map<nat, nat>, b: nat)
    requires Apart(alloc)
    ensures Apart(alloc - {b})
  {
    forall x, c, u | Covers(alloc - {b}, x, u) && Covers(alloc - {b}, c, u)
      ensures x == c
    {
      assert Covers(alloc, x, u) && Covers(alloc, c, u);
    }
  }

  lemma {:induction false} ApartPlus(alloc: map<nat, nat>, b: nat, n: nat, more: map<nat, nat>)
    requires Apart(alloc) && b !in alloc && AllocUnits(alloc) !! Range(b, n) && more == alloc[b := n]
    ensures Apart(more)
  {
    forall x, c, u | Covers(more, x, u) && Covers(more, c, u)
      ensures x == c
    {
      AllocUnitsMeans(alloc, u);
      assert u in Range(b, n) <==> Within(u, b, n);
      assert x != b ==> Covers(alloc, x, u);
      assert c != b ==> Covers(alloc, c, u);
      hide AllocUnits, Range;
    }
  }

  // Giving a block back.
  lemma {:induction false} GivenBack(fl: seq<Node>, j: nat, alloc: map<nat, nat>, obtained: set<nat>, b: nat)
    requires Ordered(fl) && Blocks(fl, alloc, obtained) && b in alloc && Clear(fl, j, b, alloc[b])
    ensures Blocks(Joined(fl, j, b, alloc[b]), alloc - {b}, obtained)
  {
    JoinedUnits(fl, j, b, alloc[b]);
    ApartMinus(alloc, b);
    hide FreeUnits, AllocUnits, Joined, Range, Apart;
    forall u: nat
      ensures u in AllocUnits(alloc) <==> u in AllocUnits(alloc - {b}) || u in Range(b, alloc[b])
      ensures u in AllocUnits(alloc - {b}) ==> u !in Range(b, alloc[b])
    {
      AllocMinus(alloc, b, u);
    }
  }

  // Handing a block out.
  lemma {:induction false} HandedOut(fl: seq<Node>, k: nat, n: nat, alloc: map<nat, nat>, obtained: set<nat>, b: nat)
    requires Ordered(fl) && Blocks(fl, alloc, obtained) && 0 < k < |fl| && 0 < n <= fl[k].size
    requires b == fl[k].addr + (fl[k].size - n)
    ensures b !in alloc && Blocks(Carved(fl, k, n), alloc[b := n], obtained)
  {
    CarvedUnits(fl, k, n);
    OrderedFar(fl, 0, k);
    assert Within(b, b, n) && b in Range(b, n);
    AllocUnitsMeans(alloc, b);
    assert b in alloc ==> Covers(alloc, b, b);
    ApartPlus(alloc, b, n, alloc[b := n]);
    hide FreeUnits, AllocUnits, Carved, Range, Apart;
    forall u: nat
      ensures u in AllocUnits(alloc[b := n]) <==> u in AllocUnits(alloc) || u in Range(b, n)
    {
      AllocPlus(alloc, b, n, u, alloc[b := n]);
    }
  }

  // sbrk() supplies fresh units, handed out as one block.
  lemma {:induction false} FreshBlock(fl: seq<Node>, alloc: map<nat, nat>, obtained: set<nat>, b: nat, n: nat)
    requires Blocks(fl, alloc, obtained) && BASE < b && 0 < n && forall u :: u in obtained ==> u < b
    ensures b !in alloc && Blocks(fl, alloc[b := n], obtained + Range(b, n))
  {
    AllocUnitsMeans(alloc, b);
    assert b in alloc ==> Covers(alloc, b, b);
    forall u | u in Range(b, n)
      ensures u !in obtained
    {
    }
    ApartPlus(alloc, b, n, alloc[b := n]);
    hide FreeUnits, AllocUnits, Range, Apart;
    forall u: nat
      ensures u in AllocUnits(alloc[b := n]) <==> u in AllocUnits(alloc) || u in Range(b, n)
    {
      AllocPlus(alloc, b, n, u, alloc[b := n]);
    }
  }

  // ---- the pointers

  // free()'s stores.
  function FreeSizes(size: map<nat, nat>, p: nat, nxt: nat, b: nat): (r: map<nat, nat>)
    requires b in size && p in size && nxt in size && b != p
  {
    var s1 := if b + size[b] == nxt then size[b := size[b] + size[nxt]] else size;
    if p + s1[p] == b then s1[p := s1[p] + s1[b]] else s1
  }

  function FreePtrs(ptr: map<nat, nat>, size: map<nat, nat>, p: nat, nxt: nat, b: nat): (r: map<nat, nat>)
    requires b in size && p in size && nxt in ptr && b != p
  {
    var p1 := if b + size[b] == nxt then ptr[b := ptr[nxt]] else ptr[b := nxt];
    if p + size[p] == b then p1[p := p1[b]] else p1[p := b]
  }

  // Addresses on the list are all different.
  lemma {:induction false} AddrsApart(fl: seq<Node>, i: nat, k: nat)
    requires Ordered(fl) && i < |fl| && k < |fl| && fl[i].addr == fl[k].addr
    ensures i == k
  {
    if i < k {
      OrderedFar(fl, i, k);
    } else if k < i {
      OrderedFar(fl, k, i);
    }
  }

  // No node is at b, and node j shares its address with no other.
  ghost predicate Lone(fl: seq<Node>, j: nat, b: nat) {
    && j < |fl| && (forall k :: 0 <= k < |fl| ==> fl[k].addr != b)
    && (forall k :: 0 <= k < |fl| && k != j ==> fl[k].addr != fl[j].addr)
  }

  lemma {:induction false} LinksInsert(
      fl: seq<Node>, ptr: map<nat, nat>, size: map<nat, nat>, j: nat, b: nat, n: nat, p: nat, nxt: nat,
      ptr': map<nat, nat>, r: seq<Node>)
    requires Linked(fl, ptr, size) && Lone(fl, j, b) && b in size && size[b] == n && p == fl[j].addr
    requires nxt == fl[Succ(j, |fl|)].addr
    requires ptr' == ptr[b := nxt][p := b] && r == fl[..j + 1] + [Node(b, n)] + fl[j + 1..]
    ensures Linked(r, ptr', size)
  {
    forall i | 0 <= i < |r|
      ensures NodeAt(r, ptr', size, i)
    {
      assert i <= j ==> NodeAt(fl, ptr, size, i);
      assert i > j + 1 ==> NodeAt(fl, ptr, size, i - 1);
      hide Linked;
    }
  }

  lemma {:induction false} LinksJoinUp(
      fl: seq<Node>, ptr: map<nat, nat>, size: map<nat, nat>, j: nat, b: nat, n: nat, p: nat, nxt: nat,
      ptr': map<nat, nat>, size': map<nat, nat>, r: seq<Node>)
    requires Linked(fl, ptr, size) && Lone(fl, j, b) && j + 1 < |fl| && p == fl[j].addr && nxt == fl[j + 1].addr
    requires nxt in ptr && ptr' == ptr[b := ptr[nxt]][p := b] && size' == size[b := n + fl[j + 1].size]
    requires r == fl[..j + 1] + [Node(b, n + fl[j + 1].size)] + fl[j + 2..]
    ensures Linked(r, ptr', size')
  {
    assert NodeAt(fl, ptr, size, j + 1);
    forall i | 0 <= i < |r|
      ensures NodeAt(r, ptr', size', i)
    {
      assert NodeAt(fl, ptr, size, i);
      hide Linked;
    }
  }

  lemma {:induction false} LinksJoinDown(
      fl: seq<Node>, ptr: map<nat, nat>, size: map<nat, nat>, j: nat, b: nat, n: nat, p: nat, nxt: nat,
      ptr': map<nat, nat>, size': map<nat, nat>, r: seq<Node>)
    requires Linked(fl, ptr, size) && Lone(fl, j, b) && p == fl[j].addr && nxt == fl[Succ(j, |fl|)].addr
    requires ptr' == ptr[b := nxt][p := nxt] && size' == size[p := fl[j].size + n]
    requires r == fl[j := Node(p, fl[j].size + n)]
    ensures Linked(r, ptr', size')
  {
    forall i | 0 <= i < |r|
      ensures NodeAt(r, ptr', size', i)
    {
      assert NodeAt(fl, ptr, size, i);
      hide Linked;
    }
  }

  lemma {:induction false} LinksJoinBoth(
      fl: seq<Node>, ptr: map<nat, nat>, size: map<nat, nat>, j: nat, b: nat, n: nat, p: nat, nxt: nat,
      ptr': map<nat, nat>, size': map<nat, nat>, r: seq<Node>)
    requires Linked(fl, ptr, size) && Lone(fl, j, b) && j + 1 < |fl| && p == fl[j].addr && nxt == fl[j + 1].addr
    requires nxt in ptr && ptr' == ptr[b := ptr[nxt]][p := ptr[nxt]]
    requires size' == size[b := n + fl[j + 1].size][p := fl[j].size + (n + fl[j + 1].size)]
    requires r == fl[..j] + [Node(p, fl[j].size + (n + fl[j + 1].size))] + fl[j + 2..]
    ensures Linked(r, ptr', size')
  {
    assert NodeAt(fl, ptr, size, j + 1);
    forall i | 0 <= i < |r|
      ensures NodeAt(r, ptr', size', i)
    {
      assert i <= j ==> NodeAt(fl, ptr, size, i);
      assert i > j ==> NodeAt(fl, ptr, size, i + 1);
      hide Linked;
    }
  }

  lemma {:induction false} ClearLone(fl: seq<Node>, j: nat, b: nat, n: nat)
    requires Ordered(fl) && Clear(fl, j, b, n)
    ensures Lone(fl, j, b)
  {
    forall k | 0 <= k < |fl|
      ensures fl[k].addr != b && (k != j ==> fl[k].addr != fl[j].addr)
    {
      if k < j {
        OrderedFar(fl, k, j);
      } else if j < k {
        OrderedFar(fl, j, k);
        if j + 1 < k {
          OrderedFar(fl, j + 1, k);
        }
      }
    }
  }

  // The stores of free(), case by case.
  lemma {:induction false} StoresApart(ptr: map<nat, nat>, size: map<nat, nat>, p: nat, nxt: nat, b: nat)
    requires b in size && p in size && nxt in size && nxt in ptr && b != p && p + size[p] != b
    ensures b + size[b] != nxt ==>
              FreePtrs(ptr, size, p, nxt, b) == ptr[b := nxt][p := b] && FreeSizes(size, p, nxt, b) == size
    ensures b + size[b] == nxt ==>
              FreePtrs(ptr, size, p, nxt, b) == ptr[b := ptr[nxt]][p := b]
                  && FreeSizes(size, p, nxt, b) == size[b := size[b] + size[nxt]]
  {
  }

  lemma {:induction false} StoresTouching(ptr: map<nat, nat>, size: map<nat, nat>, p: nat, nxt: nat, b: nat)
    requires b in size && p in size && nxt in size && nxt in ptr && b != p && p + size[p] == b
    ensures b + size[b] != nxt ==>
              FreePtrs(ptr, size, p, nxt, b) == ptr[b := nxt][p := nxt]
                  && FreeSizes(size, p, nxt, b) == size[p := size[p] + size[b]]
    ensures b + size[b] == nxt ==>
              && FreePtrs(ptr, size, p, nxt, b) == ptr[b := ptr[nxt]][p := ptr[nxt]]
              && FreeSizes(size, p, nxt, b) == size[b := size[b] + size[nxt]][p := size[p] + (size[b] + size[nxt])]
  {
  }

  lemma {:induction false} JoinedForms(fl: seq<Node>, j: nat, b: nat, n: nat)
    requires j < |fl|
    ensures var up, down, p := j + 1 < |fl| && b + n == fl[j + 1].addr, fl[j].addr + fl[j].size == b, fl[j].addr;
            && (!up && !down ==> Joined(fl, j, b, n) == fl[..j + 1] + [Node(b, n)] + fl[j + 1..])
            && (up && !down ==> Joined(fl, j, b, n) == fl[..j + 1] + [Node(b, n + fl[j + 1].size)] + fl[j + 2..])
            && (!up && down ==> Joined(fl, j, b, n) == fl[j := Node(p, fl[j].size + n)])
            && (up && down ==>
                  Joined(fl, j, b, n) == fl[..j] + [Node(p, fl[j].size + (n + fl[j + 1].size))] + fl[j + 2..])
  {
  }

  // What free() reads.
  lemma {:induction false} FreeReads(fl: seq<Node>, ptr: map<nat, nat>, size: map<nat, nat>, j: nat, b: nat, n: nat)
    requires Ordered(fl) && Linked(fl, ptr, size) && Clear(fl, j, b, n)
    ensures fl[j].addr in ptr && fl[j].addr in size && fl[j].addr != b && size[fl[j].addr] == fl[j].size
    ensures ptr[fl[j].addr] == fl[Succ(j, |fl|)].addr && ptr[fl[j].addr] in ptr && ptr[fl[j].addr] in size
    ensures size[ptr[fl[j].addr]] == fl[Succ(j, |fl|)].size
    ensures b + n == ptr[fl[j].addr] <==> j + 1 < |fl| && b + n == fl[j + 1].addr
  {
    assert NodeAt(fl, ptr, size, j) && NodeAt(fl, ptr, size, Succ(j, |fl|));
    if j > 0 {
      OrderedFar(fl, 0, j);
    }
  }

  /** free()'s pointer stores build the new list. */
  lemma {:induction false} FreeLinks(
      fl: seq<Node>, ptr: map<nat, nat>, size: map<nat, nat>, j: nat, b: nat, n: nat, p: nat, nxt: nat,
      ptr': map<nat, nat>, size': map<nat, nat>)
    requires Ordered(fl) && Linked(fl, ptr, size) && Clear(fl, j, b, n) && b in size && size[b] == n
    requires p == fl[j].addr && nxt == fl[Succ(j, |fl|)].addr && p in size && nxt in ptr && nxt in size && b != p
    requires ptr' == FreePtrs(ptr, size, p, nxt, b) && size' == FreeSizes(size, p, nxt, b)
    ensures Linked(Joined(fl, j, b, n), ptr', size')
  {
    FreeReads(fl, ptr, size, j, b, n);
    ClearLone(fl, j, b, n);
    JoinedForms(fl, j, b, n);
    var r := Joined(fl, j, b, n);
    hide Linked, Lone, Ordered, Joined, FreePtrs, FreeSizes, Clear;
    if fl[j].addr + fl[j].size != b {
      StoresApart(ptr, size, p, nxt, b);
      if b + n == nxt {
        LinksJoinUp(fl, ptr, size, j, b, n, p, nxt, ptr', size', r);
      } else {
        LinksInsert(fl, ptr, size, j, b, n, p, nxt, ptr', r);
      }
    } else {
      StoresTouching(ptr, size, p, nxt, b);
      if b + n == nxt {
        LinksJoinBoth(fl, ptr, size, j, b, n, p, nxt, ptr', size', r);
      } else {
        LinksJoinDown(fl, ptr, size, j, b, n, p, nxt, ptr', size', r);
      }
    }
  }

  /** malloc()'s stores build the new list. */
  lemma {:induction false} NodesApart(fl: seq<Node>, i: nat, j: nat)
    requires Ordered(fl) && i < |fl| && j < |fl| && i != j
    ensures fl[i].addr != fl[j].addr && (i < j ==> fl[i].addr + fl[i].size < fl[j].addr)
    ensures j < i ==> fl[j].addr + fl[j].size < fl[i].addr
  {
    OrderedFar(fl, if i < j then i else j, if i < j then j else i);
  }

  // Node k is unlinked.
  lemma {:induction false} UnlinkNode(
      fl: seq<Node>, ptr: map<nat, nat>, size: map<nat, nat>, k: nat, ptr': map<nat, nat>, r: seq<Node>, i: nat)
    requires Ordered(fl) && 0 < k < |fl| && r == fl[..k] + fl[k + 1..] && i < |r|
    requires ptr' == ptr[fl[k - 1].addr := fl[Succ(k, |fl|)].addr]
    requires NodeAt(fl, ptr, size, if i < k then i else i + 1)
    ensures NodeAt(r, ptr', size, i)
  {
    hide Ordered;
    var o := if i < k then i else i + 1;
    assert r[i] == fl[o];
    if o != k - 1 {
      NodesApart(fl, o, k - 1);
    }
  }

  // Node k gives up its tail.
  lemma {:induction false} ShrinkNode(
      fl: seq<Node>, ptr: map<nat, nat>, size: map<nat, nat>, k: nat, n: nat, size': map<nat, nat>, r: seq<Node>,
          i: nat)
    requires Ordered(fl) && 0 < k < |fl| && 0 < n < fl[k].size && r == fl[k := Node(fl[k].addr, fl[k].size - n)]
    requires size' == size[fl[k].addr := fl[k].size - n][fl[k].addr + (fl[k].size - n) := n]
    requires i < |fl| && NodeAt(fl, ptr, size, i)
    ensures NodeAt(r, ptr, size', i)
  {
    hide Ordered;
    if i != k {
      NodesApart(fl, i, k);
    }
  }

  lemma {:induction false} CarveLinks(
      fl: seq<Node>, ptr: map<nat, nat>, size: map<nat, nat>, k: nat, n: nat, ptr': map<nat, nat>, size': map<nat, nat>)
    requires Ordered(fl) && Linked(fl, ptr, size) && 0 < k < |fl| && 0 < n <= fl[k].size
    requires fl[k].size == n ==> ptr' == ptr[fl[k - 1].addr := fl[Succ(k, |fl|)].addr] && size' == size
    requires fl[k].size != n ==>
               ptr' == ptr && size' == size[fl[k].addr := fl[k].size - n][fl[k].addr + (fl[k].size - n) := n]
    ensures Linked(Carved(fl, k, n), ptr', size')
  {
    hide Ordered, NodeAt;
    var r := Carved(fl, k, n);
    forall i | 0 <= i < |r|
      ensures NodeAt(r, ptr', size', i)
    {
      if fl[k].size == n {
        UnlinkNode(fl, ptr, size, k, ptr', r, i);
      } else {
        ShrinkNode(fl, ptr, size, k, n, size', r, i);
      }
    }
  }

  // Allocated blocks keep their recorded sizes.
  ghost predicate Sizes(alloc: map<nat, nat>, size: map<nat, nat>) {
    forall b :: b in alloc ==> b in size && size[b] == alloc[b]
  }

  // No node is an allocated block.
  lemma {:induction false} NodeNotAlloc(fl: seq<Node>, alloc: map<nat, nat>, obtained: set<nat>, i: nat)
    requires Ordered(fl) && Blocks(fl, alloc, obtained) && i < |fl|
    ensures fl[i].addr !in alloc
  {
    var a := fl[i].addr;
    if i > 0 {
      InNode(fl, i, a);
      FreeUnitsMeans(fl, a);
      AllocUnitsMeans(alloc, a);
      assert a in alloc ==> Covers(alloc, a, a);
    }
    hide FreeUnits, AllocUnits;
  }

  // ---- sbrk()

  // morecore() asks for no less than 4096 units.
  function AtLeast(nu: nat): (n: nat) {
    if nu < 4096 then 4096 else nu
  }

  // A request passed as an int.
  function AsInt(x: nat): (n: int) {
    var r := x % 0x1_0000_0000;
    if r < 0x8000_0000 then r else r - 0x1_0000_0000
  }

  // growproc(): the units below the break when it has been moved up or down from brk; down, but not below address 0.
  function Sbrk(memory: set<nat>, brk: nat, bytes: int): (r: set<nat>) {
    if bytes > 0 then memory + Range(brk, bytes / 16)
    else if 0 <= 16 * brk + bytes then set u | u in memory && 16 * u < 16 * brk + bytes
    else memory
  }

  /** The n units at the break are there after sbrk(16 * n) if and only if 16 * n fits an int. */
  lemma {:induction false} SbrkExact(obtained: set<nat>, memory: set<nat>, brk: nat, n: nat)
    requires obtained <= memory && (forall u :: u in memory ==> u < brk) && 0 < n
    ensures obtained + Range(brk, n) <= Sbrk(memory, brk, AsInt(16 * n)) <==> 16 * n < 0x8000_0000
  {
    var bytes := AsInt(16 * n);
    if 16 * n < 0x8000_0000 {
      assert bytes == 16 * n && bytes / 16 == n;
    } else {
      assert bytes < 16 * n;
      assert brk + (n - 1) in Range(brk, n);
      assert brk + (n - 1) !in Sbrk(memory, brk, bytes);
    }
  }

  /** So malloc() may grow for a request of at most 2147483616 bytes. */
  lemma {:induction false} RequestFits(nbytes: nat)
    ensures 16 * AtLeast(Units(nbytes)) < 0x8000_0000 <==> nbytes <= 2147483616
  {
  }

  /** Beyond it: malloc(0xffffffff) obtains one unit and hands out 268435456 that are not there, and malloc(0x80000000)
      in a process smaller than that obtains none. */
  lemma {:induction false} HugeRequest(brk: nat)
    ensures Units(0xffff_ffff) == 268435457 && AsInt(16 * AtLeast(Units(0xffff_ffff))) == 16
    ensures Sbrk({}, brk, 16) == {brk} && !(Range(brk, 268435457) <= {brk})
    ensures AsInt(16 * AtLeast(Units(0x8000_0000))) < 0 && Sbrk({}, brk, AsInt(16 * AtLeast(Units(0x8000_0000)))) == {}
    ensures !(Range(brk, AtLeast(Units(0x8000_0000))) <= {})
  {
    assert Within(brk + 1, brk, 268435457) && brk + 1 in Range(brk, 268435457);
    assert brk in Range(brk, AtLeast(Units(0x8000_0000)));
    assert Range(brk, 1) == {brk};
  }

  // What malloc() for n units adds to the list's units and to memory.
  ghost predicate Supply(
      obtained: set<nat>, memory: set<nat>, grew: bool, region: Option<nat>, n: nat, obtained': set<nat>,
      memory': set<nat>)
  {
    if grew then
      && region.Some? && obtained' == obtained + Range(region.value, AtLeast(n))
      && memory' == Sbrk(memory, region.value, AsInt(16 * AtLeast(n)))
    else obtained' == obtained && memory' == memory
  }

  lemma {:induction false} NothingSupplied(obtained: set<nat>, memory: set<nat>, region: Option<nat>, n: nat)
    ensures Supply(obtained, memory, false, region, n, obtained, memory)
  {
  }

  lemma {:induction false} NotYetSupplied(
      obtained: set<nat>, memory: set<nat>, region: Option<nat>, n: nat, obtained': set<nat>, memory': set<nat>)
    requires Supply(obtained, memory, false, region, n, obtained', memory')
    ensures obtained' == obtained && memory' == memory
  {
  }

  lemma {:induction false} OnceSupplied(
      obtained: set<nat>, memory: set<nat>, region: Option<nat>, n: nat, obtained': set<nat>, memory': set<nat>)
    requires region.Some? && obtained' == obtained + Range(region.value, AtLeast(n))
    requires memory' == Sbrk(memory, region.value, AsInt(16 * AtLeast(n)))
    ensures Supply(obtained, memory, true, region, n, obtained', memory')
  {
  }

  lemma {:induction false} SupplyExact(
      obtained: set<nat>, memory: set<nat>, grew: bool, region: Option<nat>, n: nat, obtained': set<nat>,
      memory': set<nat>)
    requires Supply(obtained, memory, grew, region, n, obtained', memory')
    ensures grew ==> region.Some?
    ensures grew && obtained <= memory && (forall u :: u in memory ==> u < region.value) ==>
              (obtained' <= memory' <==> 16 * AtLeast(n) < 0x8000_0000)
  {
    if grew && obtained <= memory && forall u :: u in memory ==> u < region.value {
      SbrkExact(obtained, memory, region.value, AtLeast(n));
    }
  }

  class Heap {
    var ptr: map<nat, nat>
    var size: map<nat, nat>
    var freep: nat
    ghost var fl: seq<Node>
    ghost var at: nat                // freep is node at of fl
    ghost var alloc: map<nat, nat>   // blocks handed out, with their sizes in units
    ghost var obtained: set<nat>     // units the list and the blocks are made of
    ghost var memory: set<nat>       // units sbrk() has really supplied

    // Every unit handed out or kept for later is there.
    ghost predicate Backed()
      reads this
    {
      obtained <= memory
    }

    ghost predicate Valid()
      reads this
    {
      if freep == 0 then alloc == map[] && obtained == {}
      else
        && Ordered(fl) && Linked(fl, ptr, size) && at < |fl| && freep == fl[at].addr
        && Blocks(fl, alloc, obtained) && Sizes(alloc, size)
    }

    constructor ()
      ensures Valid() && freep == 0 && memory == {} && Backed()
    {
      ptr, size, freep := map[], map[], 0;
      fl, at, alloc, obtained, memory := [], 0, map[], {}, {};
    }

    // free()'s search: the node the block goes after.
    method FindPlace(b: nat, ghost j: nat) returns (p: nat)
      requires freep != 0 && Ordered(fl) && Linked(fl, ptr, size) && at < |fl| && freep == fl[at].addr
      requires Place(fl, j, b)
      ensures p == fl[j].addr
    {
      p := freep;
      ghost var i: nat := at;
      while true
        invariant i < |fl| && p == fl[i].addr
        decreases Dist(i, j, |fl|)
      {
        assert NodeAt(fl, ptr, size, i);
        SearchTurn(fl, i, j, b);
        if b > p && b < ptr[p] {
          break;
        }
        if p >= ptr[p] && (b > p || b < ptr[p]) {
          break;
        }
        p := ptr[p];
        i := Succ(i, |fl|);
      }
    }

    /** free(): the block's units become free and the list stays circular, ordered and fully joined. */
    method Free(b: nat) returns (ghost j: nat)
      requires Valid() && b in alloc
      modifies this
      ensures Valid() && freep != 0 && alloc == old(alloc) - {b} && obtained == old(obtained) && memory == old(memory)
      ensures Clear(old(fl), j, b, old(alloc)[b]) && fl == Joined(old(fl), j, b, old(alloc)[b]) && at == j
    {
      hide Ordered, Linked, Blocks, Joined, FreePtrs, FreeSizes;
      j := AllocClear(fl, alloc, obtained, b);
      JoinedOrdered(fl, j, b, alloc[b]);
      GivenBack(fl, j, alloc, obtained, b);
      FreeReads(fl, ptr, size, j, b, alloc[b]);
      NodeNotAlloc(fl, alloc, obtained, j);
      NotNull(fl, j);
      var p := FindPlace(b, j);
      var nxt := ptr[p];
      FreeLinks(fl, ptr, size, j, b, alloc[b], p, nxt, FreePtrs(ptr, size, p, nxt, b), FreeSizes(size, p, nxt, b));
      SizesKept(alloc, size, p, nxt, b);
      JoinedFirst(fl, j, b, alloc[b]);
      ghost var ptr0, size0 := ptr, size;
      if b + size[b] == nxt {
        size := size[b := size[b] + size[nxt]];
        ptr := ptr[b := ptr[nxt]];
      } else {
        ptr := ptr[b := nxt];
      }
      if p + size[p] == b {
        size := size[p := size[p] + size[b]];
        ptr := ptr[p := ptr[b]];
      } else {
        ptr := ptr[p := b];
      }
      Stores(ptr0, size0, p, nxt, b, ptr, size);
      freep := p;
      fl, at, alloc := Joined(fl, j, b, alloc[b]), j, alloc - {b};
    }

    /** morecore(): at least nu units from sbrk() join the free list, in a block beside the node freep names. */
    method MoreCore(nu: nat, region: nat) returns (p: nat)
      requires Valid() && freep != 0 && 0 < nu && BASE < region && forall u :: u in obtained ==> u < region
      modifies this
      ensures Valid() && p == freep != 0 && alloc == old(alloc)
      ensures obtained == old(obtained) + Range(region, AtLeast(nu))
      ensures memory == Sbrk(old(memory), region, AsInt(16 * AtLeast(nu)))
      ensures nu <= fl[at].size || nu <= fl[Succ(at, |fl|)].size
    {
      hide Ordered, Linked, Blocks, Joined;
      var n := nu;
      if n < 4096 {
        n := 4096;
      }
      FreshBlock(fl, alloc, obtained, region, n);
      NewHeader(fl, ptr, size, alloc, obtained, region, n);
      size := size[region := n];
      alloc, obtained := alloc[region := n], obtained + Range(region, n);
      memory := Sbrk(memory, region, AsInt(16 * n));
      ghost var fl0, was := fl, alloc - {region};
      ghost var j := Free(region);
      assert was == old(alloc);
      JoinedHolds(fl0, j, region, n);
      p := freep;
    }

    // The first malloc() makes base the whole list.
    method Start()
      requires Valid() && freep == 0
      modifies this
      ensures Valid() && freep != 0 && alloc == old(alloc) && obtained == old(obtained) && memory == old(memory)
    {
      StartBlocks();
      ptr, size, freep := map[BASE := BASE], map[BASE := 0], BASE;
      fl, at := [Node(BASE, 0)], 0;
      assert NodeAt(fl, ptr, size, 0);
    }

    // The stores at the end of malloc(): node k gives up n units.
    method Take(p: nat, prevp: nat, n: nat, ghost k: nat) returns (b: nat)
      requires Valid() && freep != 0 && 0 < k < |fl| && p == fl[k].addr && prevp == fl[k - 1].addr
      requires 0 < n <= fl[k].size
      modifies this
      ensures Valid() && freep != 0 && b == CutAt(old(fl), k, n) && b !in old(alloc) && alloc == old(alloc)[b := n]
      ensures obtained == old(obtained) && memory == old(memory)
    {
      hide Ordered, Linked, Blocks, Carved;
      CarvedOrdered(fl, k, n);
      HandedOut(fl, k, n, alloc, obtained, CutAt(fl, k, n));
      NodeReads(fl, ptr, size, k);
      NodeNotAlloc(fl, alloc, obtained, k);
      NotNull(fl, k - 1);
      ghost var ptr0, size0 := ptr, size;
      if size[p] == n {
        ptr := ptr[prevp := ptr[p]];
        b := p;
      } else {
        size := size[p := size[p] - n];
        b := p + size[p];
        size := size[b := n];
      }
      CarveLinks(fl, ptr0, size0, k, n, ptr, size);
      CarvedPrev(fl, k, n);
      freep := prevp;
      fl, at, alloc := Carved(fl, k, n), k - 1, alloc[b := n];
    }

    /** malloc()'s search, once the list exists. */
    method Search(n: nat, region: Option<nat>) returns (ap: nat, ghost grew: bool)
      requires Valid() && freep != 0 && 0 < n
      requires region.Some? ==> BASE < region.value && forall u :: u in obtained ==> u < region.value
      modifies this
      ensures Valid()
      ensures ap == 0 ==> region.None? && alloc == old(alloc) && obtained == old(obtained)
      ensures ap != 0 ==> ap - 1 !in old(alloc) && alloc == old(alloc)[ap - 1 := n]
      ensures Supply(old(obtained), old(memory), grew, region, n, obtained, memory)
      ensures ap == 0 || grew ==> NoneFits(old(fl), n)
    {
      hide Ordered, Linked, Blocks, Sizes, Range, Supply, NonePassed, NoneFits, Dist;
      NothingSupplied(obtained, memory, region, n);
      grew := false;
      var prevp := freep;
      NodeReads(fl, ptr, size, at);
      var p := ptr[prevp];
      ghost var pk: nat, g: nat := at, at;
      PassStart(fl, at, n);
      while true
        invariant Valid() && freep != 0 && pk < |fl| && prevp == fl[pk].addr && p == fl[Succ(pk, |fl|)].addr
        invariant alloc == old(alloc) && g < |fl|
        invariant Supply(old(obtained), old(memory), grew, region, n, obtained, memory)
        invariant !grew ==> fl == old(fl) && NonePassed(fl, Dist(Succ(pk, |fl|), at, |fl|), at, n)
        invariant grew ==> NoneFits(old(fl), n)
        invariant grew ==> n <= fl[g].size && Dist(Succ(pk, |fl|), g, |fl|) <= Dist(Succ(pk, |fl|), at, |fl|)
        decreases !grew, if grew then Dist(Succ(pk, |fl|), g, |fl|) else Dist(Succ(pk, |fl|), at, |fl|)
      {
        ghost var k := Succ(pk, |fl|);
        NodeReads(fl, ptr, size, k);
        DistNext(k, g, |fl|);
        DistNext(k, at, |fl|);
        BaseIsEmpty(fl);
        if size[p] >= n {
          var b := Take(p, prevp, n, k);
          return b + 1, grew;
        }
        if !grew {
          PassNext(fl, k, at, n);
        }
        if p == freep {
          AddrsApart(fl, k, at);
          if region.None? {
            NotYetSupplied(old(obtained), old(memory), region, n, obtained, memory);
            return 0, grew;
          }
          NotYetSupplied(old(obtained), old(memory), region, n, obtained, memory);
          p := MoreCore(n, region.value);
          OnceSupplied(old(obtained), old(memory), region, n, obtained, memory);
          grew, k := true, at;
          g := if n <= fl[at].size then at else Succ(at, |fl|);
          DistNext(g, at, |fl|);
          NodeReads(fl, ptr, size, at);
        }
        prevp, pk := p, k;
        p := ptr[p];
      }
    }

    /** malloc(): a block of the asked size, taken from the free units or, if no free block is large enough, from one
        sbrk(); 0 only if that failed. The list stays circular, ordered and fully joined, and the search ends. When it
        does call sbrk(), every unit of every block is really there afterwards if and only if the request fits an
        int. */
    method Malloc(nbytes: nat, region: Option<nat>) returns (ap: nat, ghost grew: bool)
      requires Valid() && nbytes < 0x1_0000_0000
      requires region.Some? ==> BASE < region.value && forall u :: u in obtained ==> u < region.value
      modifies this
      ensures Valid()
      ensures ap == 0 ==> region.None? && alloc == old(alloc) && obtained == old(obtained)
      ensures ap != 0 ==> ap - 1 !in old(alloc) && alloc == old(alloc)[ap - 1 := Units(nbytes)]
      ensures Supply(old(obtained), old(memory), grew, region, Units(nbytes), obtained, memory)
      ensures old(Backed()) && grew && region.Some? && (forall u :: u in old(memory) ==> u < region.value) ==>
                (Backed() <==> 16 * AtLeast(Units(nbytes)) < 0x8000_0000)
      ensures ap == 0 || grew ==> old(freep) == 0 || NoneFits(old(fl), Units(nbytes))
    {
      hide Valid, Supply, NoneFits, Units;
      var n := Units(nbytes);
      if freep == 0 {
        Start();
      }
      ap, grew := Search(n, region);
      SupplyExact(old(obtained), old(memory), grew, region, n, obtained, memory);
    }
  }

  ghost predicate NoneFits(fl: seq<Node>, n: nat) {
    forall k :: 0 <= k < |fl| ==> fl[k].size < n
  }

  // No node of those farther than d before node at has n units.
  ghost predicate NonePassed(fl: seq<Node>, d: nat, at: nat, n: nat)
    requires at < |fl|
  {
    forall k :: 0 <= k < |fl| && Dist(k, at, |fl|) > d ==> fl[k].size < n
  }

  lemma {:induction false} PassStart(fl: seq<Node>, at: nat, n: nat)
    requires at < |fl|
    ensures NonePassed(fl, Dist(Succ(at, |fl|), at, |fl|), at, n)
  {
  }

  // The search looks at node k.
  lemma {:induction false} PassNext(fl: seq<Node>, k: nat, at: nat, n: nat)
    requires k < |fl| && at < |fl| && NonePassed(fl, Dist(k, at, |fl|), at, n) && fl[k].size < n
    ensures k != at ==> NonePassed(fl, Dist(Succ(k, |fl|), at, |fl|), at, n)
    ensures k == at ==> NoneFits(fl, n)
  {
  }

  // (nbytes + sizeof(Header) - 1) / sizeof(Header) + 1
  function Units(nbytes: nat): (n: nat)
    ensures 0 < n && nbytes <= 16 * (n - 1)
  {
    (nbytes + 15) / 16 + 1
  }

  // Where malloc() cuts n units off node k.
  ghost function CutAt(fl: seq<Node>, k: nat, n: nat): (b: nat)
    requires k < |fl| && n <= fl[k].size
  {
    fl[k].addr + (fl[k].size - n)
  }

  lemma {:induction false} BaseIsEmpty(fl: seq<Node>)
    requires Ordered(fl)
    ensures 0 < |fl| && fl[0].size == 0
  {
  }

  lemma {:induction false} NodeReads(fl: seq<Node>, ptr: map<nat, nat>, size: map<nat, nat>, i: nat)
    requires Linked(fl, ptr, size) && i < |fl|
    ensures NodeAt(fl, ptr, size, i)
  {
  }

  lemma {:induction false} CarvedPrev(fl: seq<Node>, k: nat, n: nat)
    requires 0 < k < |fl| && n <= fl[k].size
    ensures k - 1 < |Carved(fl, k, n)| && Carved(fl, k, n)[k - 1] == fl[k - 1]
  {
  }

  lemma {:induction false} StartBlocks()
    ensures Ordered([Node(BASE, 0)]) && Blocks([Node(BASE, 0)], map[], {})
  {
    forall u: nat
      ensures u !in FreeUnits([Node(BASE, 0)])
    {
      FreeUnitsMeans([Node(BASE, 0)], u);
    }
    assert FreeUnits([Node(BASE, 0)]) == {};
  }

  // One step round the list.
  lemma {:induction false} DistNext(i: nat, j: nat, n: nat)
    requires i < n && j < n
    ensures Dist(i, j, n) == 0 <==> i == j
    ensures i != j ==> Dist(Succ(i, n), j, n) == Dist(i, j, n) - 1
    ensures Dist(Succ(j, n), i, n) <= Dist(Succ(j, n), j, n)
  {
  }

  lemma {:induction false} NotNull(fl: seq<Node>, j: nat)
    requires Ordered(fl) && j < |fl|
    ensures fl[j].addr != 0
  {
    if j > 0 {
      OrderedFar(fl, 0, j);
    }
  }

  // One turn of free()'s loop: it stops at node j and nowhere else.
  lemma {:induction false} SearchTurn(fl: seq<Node>, i: nat, j: nat, b: nat)
    requires Ordered(fl) && i < |fl| && Place(fl, j, b)
    ensures var p, q := fl[i].addr, fl[Succ(i, |fl|)].addr;
            ((b > p && b < q) || (p >= q && (b > p || b < q))) <==> i == j
    ensures i != j ==> Dist(Succ(i, |fl|), j, |fl|) < Dist(i, j, |fl|)
  {
    if i < j {
      OrderedFar(fl, i, j);
      if i + 1 < j {
        OrderedFar(fl, i + 1, j);
      }
    } else if j < i {
      OrderedFar(fl, j, i);
      if j + 1 < i {
        OrderedFar(fl, j + 1, i);
      }
    }
    if 0 < i {
      OrderedFar(fl, 0, i);
    }
    if 0 < j {
      OrderedFar(fl, 0, j);
    }
  }

  lemma {:induction false} SizesKept(alloc: map<nat, nat>, size: map<nat, nat>, p: nat, nxt: nat, b: nat)
    requires Sizes(alloc, size) && b in alloc && p !in alloc && p in size && nxt in size
    ensures Sizes(alloc - {b}, FreeSizes(size, p, nxt, b))
  {
  }

  lemma {:induction false} JoinedFirst(fl: seq<Node>, j: nat, b: nat, n: nat)
    requires j < |fl|
    ensures j < |Joined(fl, j, b, n)| && Joined(fl, j, b, n)[j].addr == fl[j].addr
  {
  }

  lemma {:induction false} Stores(
      ptr: map<nat, nat>, size: map<nat, nat>, p: nat, nxt: nat, b: nat, ptr': map<nat, nat>, size': map<nat, nat>)
    requires b in size && p in size && nxt in size && nxt in ptr && b != p
    requires var s1 := if b + size[b] == nxt then size[b := size[b] + size[nxt]] else size;
             var p1 := if b + size[b] == nxt then ptr[b := ptr[nxt]] else ptr[b := nxt];
             && size' == (if p + s1[p] == b then s1[p := s1[p] + s1[b]] else s1)
             && ptr' == if p + s1[p] == b then p1[p := p1[b]] else p1[p := b]
    ensures ptr' == FreePtrs(ptr, size, p, nxt, b) && size' == FreeSizes(size, p, nxt, b)
  {
  }

  // The header of a fresh region is nobody's node.
  lemma {:induction false} NewHeader(
      fl: seq<Node>, ptr: map<nat, nat>, size: map<nat, nat>, alloc: map<nat, nat>, obtained: set<nat>, b: nat, n: nat)
    requires Ordered(fl) && Linked(fl, ptr, size) && Blocks(fl, alloc, obtained) && Sizes(alloc, size) && BASE < b
    requires b !in alloc
    requires forall u :: u in obtained ==> u < b
    ensures Linked(fl, ptr, size[b := n]) && Sizes(alloc[b := n], size[b := n])
  {
    var more := size[b := n];
    forall i | 0 <= i < |fl|
      ensures NodeAt(fl, ptr, more, i)
    {
      assert NodeAt(fl, ptr, size, i);
      if i > 0 {
        InNode(fl, i, fl[i].addr);
        FreeUnitsMeans(fl, fl[i].addr);
      }
      hide FreeUnits, AllocUnits, Linked;
    }
  }

  // After free() the block's units are in node j or in the one after it.
  lemma {:induction false} JoinedHolds(fl: seq<Node>, j: nat, b: nat, n: nat)
    requires Clear(fl, j, b, n)
    ensures var r := Joined(fl, j, b, n); j < |r| && (n <= r[j].size || n <= r[Succ(j, |r|)].size)
  {
  }
}
