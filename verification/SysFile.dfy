/** kernel/sysfile.c as it runs: create(), sys_link() and sys_unlink() change counts and entries in several steps
    with failure paths; each is one of the whole operations of Links or changes nothing. */
module SysFile {
  import opened Links
  import opened Paths

  // nameiparent(): the directory that would hold the last element.
  function WalkParent(t: Tree, d: nat, path: seq<Name>): (r: Outcome)
    decreases |path|
  {
    if path == [] then Missing
    else if |t.nodes| <= d || t.nodes[d].kind.Free? then Panics
    else if !t.nodes[d].kind.Dir? then Missing
    else if |path| == 1 then Found(d)
    else
      var k := Lookup(t.nodes[d].ents, path[0]);
      if k == |t.nodes[d].ents| then Missing else WalkParent(t, t.nodes[d].ents[k].inum, path[1..])
  }

  // The parent is where the walk to all but the last element ends.
  lemma {:induction false} ParentIsWalk(t: Tree, d: nat, path: seq<Name>)
    requires 0 < |path|
    ensures WalkParent(t, d, path) ==
            match Walk(t, d, path[..|path| - 1])
            case Found(i) => if |t.nodes| <= i || t.nodes[i].kind.Free? then Panics
                             else if t.nodes[i].kind.Dir? then Found(i) else Missing
            case other => other
    decreases |path|
  {
    if |path| > 1 {
      assert path[..|path| - 1][1..] == path[1..][..|path| - 2];
      if d < |t.nodes| && t.nodes[d].kind.Dir? {
        var k := Lookup(t.nodes[d].ents, path[0]);
        if k < |t.nodes[d].ents| {
          ParentIsWalk(t, t.nodes[d].ents[k].inum, path[1..]);
        }
      }
    }
  }

  // A directory a walk may stop at.
  lemma {:induction false} ParentIsDir(t: Tree, d: nat, path: seq<Name>)
    ensures WalkParent(t, d, path).Found? ==>
              var p := WalkParent(t, d, path).inum; path != [] && p < |t.nodes| && t.nodes[p].kind.Dir?
    decreases |path|
  {
    if |path| > 1 && d < |t.nodes| && t.nodes[d].kind.Dir? {
      var k := Lookup(t.nodes[d].ents, path[0]);
      if k < |t.nodes[d].ents| {
        ParentIsDir(t, t.nodes[d].ents[k].inum, path[1..]);
      }
    }
  }

  // Counts play no part in a walk.
  lemma {:induction false} WalkIgnoresCounts(t: Tree, u: Tree, d: nat, path: seq<Name>)
    requires |u.nodes| == |t.nodes|
    requires forall i :: 0 <= i < |t.nodes| ==> u.nodes[i].kind == t.nodes[i].kind && u.nodes[i].ents == t.nodes[i].ents
    ensures WalkParent(u, d, path) == WalkParent(t, d, path)
    decreases |path|
  {
    if |path| > 1 && d < |t.nodes| && t.nodes[d].kind.Dir? {
      var k := Lookup(t.nodes[d].ents, path[0]);
      if k < |t.nodes[d].ents| {
        WalkIgnoresCounts(t, u, t.nodes[d].ents[k].inum, path[1..]);
      }
    }
  }

  lemma {:induction false} LookupFrom(ents: seq<Ent>, name: Name, k: nat)
    requires k <= |ents| && forall j :: 0 <= j < k ==> ents[j].inum == 0 || ents[j].name != name
    requires k < |ents| ==> ents[k].inum != 0 && ents[k].name == name
    ensures Lookup(ents, name) == k
  {
  }

  lemma {:induction false} EmptySlotFrom(ents: seq<Ent>, k: nat)
    requires k <= |ents| && forall j :: 0 <= j < k ==> ents[j].inum != 0
    requires k < |ents| ==> ents[k].inum == 0
    ensures EmptySlot(ents) == k
  {
  }

  // The first free inode, |nodes| if there is none.
  function FreeInode(nodes: seq<Node>, from: nat): (i: nat)
    requires from <= |nodes|
    ensures from <= i <= |nodes|
    ensures i < |nodes| ==> nodes[i].kind.Free?
    ensures forall j :: from <= j < i ==> !nodes[j].kind.Free?
    decreases |nodes| - from
  {
    if from == |nodes| || nodes[from].kind.Free? then from else FreeInode(nodes, from + 1)
  }

  // dirlink() finds no such name and a place for it.
  predicate CanEnter(ents: seq<Ent>, name: Name, room: bool) {
    Lookup(ents, name) == |ents| && (EmptySlot(ents) < |ents| || room)
  }

  // When sys_link() succeeds: the old name is there and no directory, the new one can be entered.
  predicate CanLink(t: Tree, start: nat, src: seq<Name>, dst: seq<Name>, room: bool) {
    var r, p := Walk(t, start, src), WalkParent(t, start, dst);
    && r.Found? && r.inum < |t.nodes| && !t.nodes[r.inum].kind.Free? && !t.nodes[r.inum].kind.Dir?
    && p.Found? && dst != [] && p.inum < |t.nodes| && CanEnter(t.nodes[p.inum].ents, dst[|dst| - 1], room)
  }

  // When one of its walks comes upon a free inode.
  predicate LinkPanics(t: Tree, start: nat, src: seq<Name>, dst: seq<Name>) {
    var r := Walk(t, start, src);
    || r.Panics?
    || (r.Found? && (|t.nodes| <= r.inum || t.nodes[r.inum].kind.Free?
                     || (!t.nodes[r.inum].kind.Dir? && WalkParent(t, start, dst).Panics?)))
  }

  // When sys_unlink() succeeds: the name is there, not "." or "..", and no directory with entries.
  ghost predicate CanUnlink(t: Tree, start: nat, path: seq<Name>) {
    var p := WalkParent(t, start, path);
    && p.Found? && path != [] && p.inum < |t.nodes| && path[|path| - 1] != Dot && path[|path| - 1] != DotDot
    && var ents := t.nodes[p.inum].ents;
       var k := Lookup(ents, path[|path| - 1]);
       k < |ents| && ents[k].inum < |t.nodes| && (t.nodes[ents[k].inum].kind.Dir? ==> Vacant(t.nodes[ents[k].inum]))
  }

  // When create() can make a new inode in directory n.
  predicate CanMake(nodes: seq<Node>, n: Node, name: Name, kind: Kind, room: bool, room1: bool, room2: bool)
    requires 1 <= |nodes|
  {
    FreeInode(nodes, 1) < |nodes| && CanEnter(n.ents, name, room) && (kind.Dir? ==> room1 && room2)
  }

  predicate IsDirectory(t: Tree, x: nat) {
    x < |t.nodes| && t.nodes[x].kind.Dir?
  }

  lemma {:induction false} WalkLeads(t: Tree, d: nat, path: seq<Name>)
    ensures forall x: nat :: Walk(t, d, path) == Found(x) <==> Leads(t, d, path, x)
    ensures path != [] ==> forall x: nat :: WalkParent(t, d, path) == Found(x) <==>
              Leads(t, d, path[..|path| - 1], x) && IsDirectory(t, x)
  {
    hide Leads, Walk, WalkParent;
    forall x: nat
      ensures Walk(t, d, path) == Found(x) <==> Leads(t, d, path, x)
      ensures path != [] ==>
                (WalkParent(t, d, path) == Found(x) <==> Leads(t, d, path[..|path| - 1], x) && IsDirectory(t, x))
    {
      FoundExact(t, d, path, x);
      if path != [] {
        ParentIsWalk(t, d, path);
        FoundExact(t, d, path[..|path| - 1], x);
      }
    }
  }

  class FileTree {
    var nodes: seq<Node>
    var refs: seq<nat>

    function Abs(): (t: Tree)
      reads this
    {
      Tree(nodes, refs)
    }

    method DirLookup(d: nat, name: Name) returns (k: nat)
      requires d < |nodes|
      ensures k == Lookup(nodes[d].ents, name)
    {
      k := 0;
      while k < |nodes[d].ents|
        invariant k <= |nodes[d].ents|
        invariant forall j :: 0 <= j < k ==> nodes[d].ents[j].inum == 0 || nodes[d].ents[j].name != name
      {
        if nodes[d].ents[k].inum != 0 && nodes[d].ents[k].name == name {
          break;
        }
        k := k + 1;
      }
      LookupFrom(nodes[d].ents, name, k);
    }

    /** namex(): what it finds is where the path leads. */
    method Namex(start: nat, path: seq<Name>, parent: bool) returns (r: Outcome)
      ensures r == if parent then WalkParent(Abs(), start, path) else Walk(Abs(), start, path)
      ensures !parent ==> forall x :: r == Found(x) <==> Leads(Abs(), start, path, x)
      ensures parent && path != [] ==>
                forall x :: r == Found(x) <==> Leads(Abs(), start, path[..|path| - 1], x) && IsDirectory(Abs(), x)
    {
      WalkLeads(Abs(), start, path);
      var d, rest := start, path;
      while rest != []
        invariant (if parent then WalkParent(Abs(), d, rest) else Walk(Abs(), d, rest))
                  == if parent then WalkParent(Abs(), start, path) else Walk(Abs(), start, path)
        decreases |rest|
      {
        if |nodes| <= d || nodes[d].kind.Free? {
          return Panics;
        }
        if !nodes[d].kind.Dir? {
          return Missing;
        }
        if parent && |rest| == 1 {
          return Found(d);
        }
        var k := DirLookup(d, rest[0]);
        if k == |nodes[d].ents| {
          return Missing;
        }
        d, rest := nodes[d].ents[k].inum, rest[1..];
      }
      return if parent then Missing else Found(d);
    }

    // room: whether writei() can extend the directory.
    method DirLink(d: nat, name: Name, inum: nat, room: bool) returns (ok: bool)
      requires d < |nodes|
      modifies this`nodes
      ensures ok <==> CanEnter(old(nodes)[d].ents, name, room)
      ensures Abs() == if ok then Entered(old(Abs()), d, name, inum) else old(Abs())
    {
      var k := DirLookup(d, name);
      if k < |nodes[d].ents| {
        return false;
      }
      var off := 0;
      while off < |nodes[d].ents|
        invariant off <= |nodes[d].ents| && nodes == old(nodes)
        invariant forall j :: 0 <= j < off ==> nodes[d].ents[j].inum != 0
      {
        if nodes[d].ents[off].inum == 0 {
          break;
        }
        off := off + 1;
      }
      EmptySlotFrom(nodes[d].ents, off);
      if off == |nodes[d].ents| && !room {
        return false;
      }
      nodes := nodes[d := nodes[d].(ents := Put(nodes[d].ents, off, Ent(inum, name)))];
      return true;
    }

    method IsDirEmpty(d: nat) returns (r: bool)
      requires d < |nodes| && 2 <= |nodes[d].ents|
      ensures r <==> Vacant(nodes[d])
    {
      var off := 2;
      while off < |nodes[d].ents|
        invariant 2 <= off <= |nodes[d].ents|
        invariant forall k :: 2 <= k < off ==> nodes[d].ents[k].inum == 0
      {
        if nodes[d].ents[off].inum != 0 {
          return false;
        }
        off := off + 1;
      }
      return true;
    }

    // ialloc(): the first free inode, marked with its type.
    method Ialloc(kind: Kind) returns (i: nat)
      requires 1 < |nodes|
      modifies this`nodes
      ensures i == FreeInode(old(nodes), 1)
      ensures nodes == if i < |old(nodes)| then old(nodes)[i := Node(kind, 0, [])] else old(nodes)
    {
      i := 1;
      while i < |nodes|
        invariant 1 <= i <= |nodes| && nodes == old(nodes) && FreeInode(nodes, 1) == FreeInode(nodes, i)
      {
        if nodes[i].kind.Free? {
          nodes := nodes[i := Node(kind, 0, [])];
          return;
        }
        i := i + 1;
      }
    }

    // iput() when refs[i] counts only the references that remain.
    method Iput(i: nat)
      requires i < |nodes| == |refs|
      modifies this`nodes
      ensures Abs() == Reaped(old(Abs()), i)
    {
      if refs[i] == 0 && nodes[i].nlink == 0 {
        nodes := nodes[i := Node(Free, 0, [])];
      }
    }

    /** sys_link(): it either adds the entry and the link or, on every failure path, leaves things as they were. */
    method SysLink(start: nat, src: seq<Name>, dst: seq<Name>, room: bool, ghost at: seq<(nat, nat)>)
      returns (ok: bool, panic: bool)
      requires Inv(Abs(), at)
      modifies this`nodes
      ensures (ok <==> CanLink(old(Abs()), start, src, dst, room))
      ensures (panic <==> LinkPanics(old(Abs()), start, src, dst))
      ensures !ok && !panic ==> Abs() == old(Abs())
      ensures ok ==>
                && Walk(old(Abs()), start, src).Found? && WalkParent(old(Abs()), start, dst).Found?
                && var i, d := Walk(old(Abs()), start, src).inum, WalkParent(old(Abs()), start, dst).inum;
                   && dst != [] && i < |old(nodes)| && d < |old(nodes)| && i != 0 && !old(nodes)[i].kind.Dir?
                   && !old(nodes)[i].kind.Free?
                   && Lookup(old(nodes)[d].ents, dst[|dst| - 1]) == |old(nodes)[d].ents|
                   && Abs() == Linked(old(Abs()), i, d, dst[|dst| - 1])
      ensures ok && Live(old(Abs()), WalkParent(old(Abs()), start, dst).inum) ==> Inv(Abs(), at)
      ensures ok ==> Walk(Abs(), start, dst) == Walk(old(Abs()), start, src)
    {
      hide Inv, Walk, WalkParent;
      ghost var t0 := Abs();
      assert Sized(t0) && AllProper(t0) by { InvParts(t0, at); }
      var r := Namex(start, src, false);
      if !r.Found? {
        return false, r.Panics?;
      }
      var i := r.inum;
      if |nodes| <= i || nodes[i].kind.Free? {
        return false, true;
      }
      if nodes[i].kind.Dir? {
        return false, false;
      }
      assert Proper(t0, i);
      nodes := nodes[i := nodes[i].(nlink := nodes[i].nlink + 1)];
      ghost var t1 := Abs();
      WalkIgnoresCounts(t0, t1, start, dst);
      ParentIsDir(t0, start, dst);
      var p := Namex(start, dst, true);
      if p.Panics? {
        return false, true;
      }
      ok := false;
      if p.Found? {
        ok := DirLink(p.inum, dst[|dst| - 1], i, room);
        if ok {
          if Live(t0, p.inum) {
            LinkKeeps(t0, at, i, p.inum, dst[|dst| - 1]);
          }
          ParentIsWalk(t0, start, dst);
          LinkedFinds(t0, start, dst, i, p.inum, Abs());
          return true, false;
        }
      }
      nodes := nodes[i := nodes[i].(nlink := nodes[i].nlink - 1)];
      assert nodes == t0.nodes;
      return false, false;
    }

    /** sys_unlink(): the entry goes, the counts follow, and the inode too if nothing else refers to it; neither
        the nlink < 1 panic nor a bad isdirempty() can happen in a linked directory. */
    method SysUnlink(start: nat, path: seq<Name>, ghost at: seq<(nat, nat)>) returns (ok: bool, panic: bool)
      requires Inv(Abs(), at)
      modifies this`nodes
      ensures (ok <==> CanUnlink(old(Abs()), start, path)) && (panic <==> WalkParent(old(Abs()), start, path).Panics?)
      ensures !ok ==> Abs() == old(Abs())
      ensures ok ==>
                && WalkParent(old(Abs()), start, path).Found? && path != []
                && var d := WalkParent(old(Abs()), start, path).inum;
                   && Live(old(Abs()), d)
                   && var k := Lookup(old(nodes)[d].ents, path[|path| - 1]);
                      && Removable(old(Abs()), d, k) && old(nodes)[d].ents[k].inum != d && |old(refs)| == |old(nodes)|
                      && Abs() == Unlinked(old(Abs()), d, k)
      ensures Inv(Abs(), at)
      ensures ok && Single(old(nodes)[WalkParent(old(Abs()), start, path).inum].ents, path[|path| - 1]) ==>
                !Walk(Abs(), start, path).Found? && (Live(Abs(), start) ==> Walk(Abs(), start, path) == Missing)
    {
      hide Inv;
      ghost var t0 := Abs();
      assert Sized(t0) && AllProper(t0) by { InvParts(t0, at); }
      var r := Namex(start, path, true);
      if !r.Found? {
        return false, r.Panics?;
      }
      ParentIsDir(t0, start, path);
      var d, name := r.inum, path[|path| - 1];
      if name == Dot || name == DotDot {
        return false, false;
      }
      var k := DirLookup(d, name);
      if k == |nodes[d].ents| {
        return false, false;
      }
      assert Proper(t0, d);
      assert 2 <= k && t0.nodes[d].nlink != 0;
      UnlinkSees(t0, at, d, k);
      hide Unlinked, WalkParent, Dotted;
      var i := nodes[d].ents[k].inum;
      if nodes[i].nlink < 1 {
        return false, true;
      }
      if nodes[i].kind.Dir? {
        var empty := IsDirEmpty(i);
        if !empty {
          return false, false;
        }
      }
      UnlinkKeeps(t0, at, d, k);
      RemoveEntry(d, k, i);
      PathGone(t0, at, start, path, d, k, Abs());
      return true, false;
    }

    // The part of sys_unlink() after its checks.
    method RemoveEntry(d: nat, k: nat, i: nat)
      requires d < |nodes| == |refs| && k < |nodes[d].ents| && i == nodes[d].ents[k].inum < |nodes| && i != d
      modifies this`nodes
      ensures Abs() == Unlinked(old(Abs()), d, k)
    {
      nodes := nodes[d := nodes[d].(ents := nodes[d].ents[k := Ent(0, Text(""))])];
      if nodes[i].kind.Dir? {
        nodes := nodes[d := nodes[d].(nlink := nodes[d].nlink - 1)];
      }
      nodes := nodes[i := nodes[i].(nlink := nodes[i].nlink - 1)];
      Iput(i);
    }

    /** create(): an existing file is opened, a new inode is entered whole, and every failure, also one after the
        new inode has been written, leaves the tree as it was. */
    method Create(
        start: nat, path: seq<Name>, kind: Kind, room: bool, room1: bool, room2: bool, ghost at: seq<(nat, nat)>)
      returns (r: Outcome, ghost at': seq<(nat, nat)>)
      requires Inv(Abs(), at) && !kind.Free?
      modifies this
      ensures !r.Found? ==> Abs() == old(Abs())
      ensures WalkParent(old(Abs()), start, path).Panics? ==> r.Panics?
      ensures WalkParent(old(Abs()), start, path).Missing? ==> r.Missing?
      ensures WalkParent(old(Abs()), start, path).Found? ==>
                && path != []
                && var d, name := WalkParent(old(Abs()), start, path).inum, path[|path| - 1];
                   && d < |old(nodes)|
                   && var k := Lookup(old(nodes)[d].ents, name);
                      if k < |old(nodes)[d].ents| then
                        var e := old(nodes)[d].ents[k].inum;
                        && e < |old(nodes)| && (r.Panics? <==> old(nodes)[e].kind.Free?)
                        && (r.Found? <==> kind.File? && (old(nodes)[e].kind.File? || old(nodes)[e].kind.Device?))
                      else
                        !r.Panics? && (r.Found? <==> CanMake(old(nodes), old(nodes)[d], name, kind, room, room1, room2))
      ensures r.Found? ==>
                && WalkParent(old(Abs()), start, path).Found? && path != []
                && var d, i, name := WalkParent(old(Abs()), start, path).inum, r.inum, path[|path| - 1];
                   && d < |old(nodes)| == |old(refs)| && i < |old(nodes)|
                   && var k := Lookup(old(nodes)[d].ents, name);
                      if k < |old(nodes)[d].ents| then
                        i == old(nodes)[d].ents[k].inum && kind.File? && Abs() == Opened(old(Abs()), i)
                        && (old(nodes)[i].kind.File? || old(nodes)[i].kind.Device?)
                      else
                        i == FreeInode(old(nodes), 1) && 0 < i != d && Abs() == Created(old(Abs()), i, d, name, kind)
                        && (Live(old(Abs()), d) ==> Inv(Abs(), at'))
      ensures r.Found? ==> Walk(Abs(), start, path) == r
    {
      hide Inv;
      ghost var t0 := Abs();
      at' := at;
      assert Sized(t0) && AllProper(t0) by { InvParts(t0, at); }
      r := Namex(start, path, true);
      if !r.Found? {
        return;
      }
      ParentIsDir(t0, start, path);
      var d, name := r.inum, path[|path| - 1];
      var k := DirLookup(d, name);
      if k < |nodes[d].ents| {
        var e := nodes[d].ents[k].inum;
        assert Bounded(t0.nodes[d], |t0.nodes|);
        if nodes[e].kind.Free? {
          return Panics, at;
        }
        if kind.File? && (nodes[e].kind.File? || nodes[e].kind.Device?) {
          OpenFinds(t0, start, path, d, k);
          refs := refs[e := refs[e] + 1];
          SameWalks(t0, Abs(), start, path);
          return Found(e), at;
        }
        return Missing, at;
      }
      r, at' := CreateNew(d, name, kind, room, room1, room2, at);
      if r.Found? {
        assert Proper(t0, d);
        ParentIsWalk(t0, start, path);
        CreatedFinds(t0, start, path, r.inum, d, kind, Abs());
      }
    }

    method CreateNew(d: nat, name: Name, kind: Kind, room: bool, room1: bool, room2: bool, ghost at: seq<(nat, nat)>)
      returns (r: Outcome, ghost at': seq<(nat, nat)>)
      requires Inv(Abs(), at) && !kind.Free? && d < |nodes| && nodes[d].kind.Dir?
      requires Lookup(nodes[d].ents, name) == |nodes[d].ents|
      modifies this
      ensures !r.Panics? && (r.Missing? ==> Abs() == old(Abs()))
      ensures r.Found? <==> CanMake(old(nodes), old(nodes)[d], name, kind, room, room1, room2)
      ensures r.Found? ==>
                var i := r.inum;
                && 0 < i < |old(nodes)| == |old(refs)| && i != d && i == FreeInode(old(nodes), 1)
                && old(nodes)[i].kind.Free?
                && Abs() == Created(old(Abs()), i, d, name, kind)
                && (Live(old(Abs()), d) ==> Inv(Abs(), at'))
    {
      hide Inv, Lookup, EmptySlot, Put, CanEnter, Dotted, Vacant, Bounded;
      ghost var t0 := Abs();
      assert Sized(t0) && AllProper(t0) by { InvParts(t0, at); }
      at' := at;
      var i := Ialloc(kind);
      if i == |nodes| {
        return Missing, at;
      }
      assert Proper(t0, i) && i != d;
      var ok := NewInode(d, i, name, kind, room, room1, room2);
      if !ok {
        nodes := nodes[i := nodes[i].(nlink := 0)];
        Iput(i);
        assert nodes == t0.nodes;
        return Missing, at;
      }
      refs := refs[i := 1];
      if Live(t0, d) {
        at' := CreateKeeps(t0, at, i, d, name, kind);
      }
      CreatedNodes(t0, i, d, name, kind, Created(t0, i, d, name, kind));
      assert nodes == Created(t0, i, d, name, kind).nodes;
      return Found(i), at';
    }

    // The part of create() between ialloc() and fail:.
    method NewInode(d: nat, i: nat, name: Name, kind: Kind, room: bool, room1: bool, room2: bool) returns (ok: bool)
      requires 0 < i < |nodes| && d < |nodes| && i != d && nodes[i] == Node(kind, 0, [])
      requires Lookup(nodes[d].ents, name) == |nodes[d].ents|
      modifies this`nodes
      ensures |nodes| == |old(nodes)|
      ensures ok <==> CanEnter(old(nodes)[d].ents, name, room) && (kind.Dir? ==> room1 && room2)
      ensures ok ==>
                var n := old(nodes)[d];
                && nodes[i] == Node(kind, 1, if kind.Dir? then [Ent(i, Dot), Ent(d, DotDot)] else [])
                && nodes[d] == Node(n.kind, n.nlink + (if kind.Dir? then 1 else 0),
                    Put(n.ents, EmptySlot(n.ents), Ent(i, name)))
      ensures !ok ==> nodes[d] == old(nodes)[d] && nodes[i].kind == kind
      ensures forall x :: 0 <= x < |nodes| && x != i && x != d ==> nodes[x] == old(nodes)[x]
    {
      nodes := nodes[i := nodes[i].(nlink := 1)];
      if kind.Dir? {
        ok := MakeDots(d, i, room1, room2);
        if !ok {
          return;
        }
      }
      ok := DirLink(d, name, i, room);
      if !ok {
        return;
      }
      if kind.Dir? {
        nodes := nodes[d := nodes[d].(nlink := nodes[d].nlink + 1)];
      }
    }

    // "." and ".." of a new directory.
    method MakeDots(d: nat, i: nat, room1: bool, room2: bool) returns (ok: bool)
      requires 0 < i < |nodes| && nodes[i].ents == []
      modifies this`nodes
      ensures |nodes| == |old(nodes)| && forall x :: 0 <= x < |nodes| && x != i ==> nodes[x] == old(nodes)[x]
      ensures nodes[i].kind == old(nodes)[i].kind && nodes[i].nlink == old(nodes)[i].nlink
      ensures (ok <==> room1 && room2) && (ok ==> nodes[i].ents == [Ent(i, Dot), Ent(d, DotDot)])
    {
      ok := DirLink(i, Dot, i, room1);
      if !ok {
        return;
      }
      assert nodes[i].ents == [Ent(i, Dot)];
      assert EmptySlot([Ent(i, Dot)]) == 1;
      ok := DirLink(i, DotDot, d, room2);
    }

    /** Giving up a reference: fileclose() and exit() end in iput(). */
    method Close(i: nat, ghost at: seq<(nat, nat)>)
      requires Inv(Abs(), at) && 0 < i < |refs| && refs[i] > 0
      modifies this
      ensures |old(nodes)| == |old(refs)| && Abs() == Closed(old(Abs()), i) && Inv(Abs(), at)
    {
      CloseKeeps(Abs(), at, i);
      refs := refs[i := refs[i] - 1];
      Iput(i);
    }
  }

  // An entry found in the parent is where the path leads.
  lemma {:induction false} OpenFinds(t: Tree, start: nat, path: seq<Name>, d: nat, k: nat)
    requires 0 < |path| && WalkParent(t, start, path) == Found(d) && d < |t.nodes| && t.nodes[d].kind.Dir?
    requires k == Lookup(t.nodes[d].ents, path[|path| - 1]) < |t.nodes[d].ents|
    ensures Walk(t, start, path) == Found(t.nodes[d].ents[k].inum)
  {
    hide Walk, WalkParent, Leads, StepsTo, Lookup;
    ParentIsWalk(t, start, path);
    StepIsLookup(t, d, path[|path| - 1]);
    NewPath(t, t, start, path, d, t.nodes[d].ents[k].inum);
  }

  // References play no part in a walk.
  lemma {:induction false} SameWalks(t: Tree, u: Tree, d: nat, path: seq<Name>)
    requires u.nodes == t.nodes
    ensures Walk(u, d, path) == Walk(t, d, path)
    decreases |path|
  {
    if path != [] && d < |t.nodes| && t.nodes[d].kind.Dir? {
      var k := Lookup(t.nodes[d].ents, path[0]);
      if k < |t.nodes[d].ents| {
        SameWalks(t, u, t.nodes[d].ents[k].inum, path[1..]);
      }
    }
  }

  lemma {:induction false} PathGone(
      t: Tree, at: seq<(nat, nat)>, start: nat, path: seq<Name>, d: nat, k: nat, u: Tree)
    requires Inv(u, at) && 0 < |path| && WalkParent(t, start, path) == Found(d)
    requires d < |t.nodes| == |t.refs| && t.nodes[d].kind.Dir?
    requires k == Lookup(t.nodes[d].ents, path[|path| - 1]) < |t.nodes[d].ents|
    requires t.nodes[d].ents[k].inum < |t.nodes| && t.nodes[d].ents[k].inum != d && u == Unlinked(t, d, k)
    ensures Single(t.nodes[d].ents, path[|path| - 1]) ==>
              !Walk(u, start, path).Found? && (Live(u, start) ==> Walk(u, start, path) == Missing)
  {
    hide Inv, Walk, WalkParent, Unlinked, Single, Lookup;
    ParentIsWalk(t, start, path);
    if Single(t.nodes[d].ents, path[|path| - 1]) {
      UnlinkedMisses(t, start, path, d, k, u);
      if Live(u, start) {
        RootWalk(u, at, start, path);
      }
    }
  }

  // The entry sys_unlink() finds names a linked inode, and a directory with its first two entries in place.
  lemma {:induction false} UnlinkSees(t: Tree, at: seq<(nat, nat)>, d: nat, k: nat)
    requires Inv(t, at) && d < |t.nodes| && t.nodes[d].kind.Dir? && t.nodes[d].nlink != 0
    requires k < |t.nodes[d].ents| && t.nodes[d].ents[k].inum != 0
    ensures Live(t, d)
    ensures var i := t.nodes[d].ents[k].inum;
            0 < i < |t.nodes| && t.nodes[i].nlink >= 1 && (t.nodes[i].kind.Dir? ==> 2 <= |t.nodes[i].ents|)
  {
    assert Proper(t, d);
    assert t.nodes[d].nlink == |Names(t, d)|;
    EntryLeads(t, at, d, k);
    assert Proper(t, t.nodes[d].ents[k].inum);
  }
}
