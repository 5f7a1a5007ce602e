/** What path names lead to: namex() (kernel/fs.c) as a chain of directory entries, and what sys_link(), create() and
    sys_unlink() (kernel/sysfile.c) do to every path. */
module Paths {
  import opened Links

  // The first entry in use of directory a with this name is for inode x.
  ghost predicate StepsTo(t: Tree, a: nat, name: Name, x: nat) {
    && a < |t.nodes| && t.nodes[a].kind.Dir? && x != 0
    && exists k :: 0 <= k < |t.nodes[a].ents| && FirstAt(t.nodes[a].ents, name, k) && t.nodes[a].ents[k].inum == x
  }

  ghost predicate FirstAt(ents: seq<Ent>, name: Name, k: nat)
    requires k < |ents|
  {
    && ents[k].inum != 0 && ents[k].name == name
    && forall j :: 0 <= j < k ==> ents[j].inum == 0 || ents[j].name != name
  }

  // Inodes ns, from d to x, each reached from the one before by the next element of the path.
  ghost predicate Chain(t: Tree, d: nat, path: seq<Name>, x: nat, ns: seq<nat>) {
    && |ns| == |path| + 1 && ns[0] == d && ns[|path|] == x
    && forall k :: 0 <= k < |path| ==> StepsTo(t, ns[k], path[k], ns[k + 1])
  }

  ghost predicate Leads(t: Tree, d: nat, path: seq<Name>, x: nat) {
    exists ns :: Chain(t, d, path, x, ns)
  }

  // ---- namex() and chains ----

  lemma {:induction false} StepIsLookup(t: Tree, a: nat, name: Name)
    ensures forall x: nat :: StepsTo(t, a, name, x) <==>
              && a < |t.nodes| && t.nodes[a].kind.Dir?
              && var k := Lookup(t.nodes[a].ents, name); k < |t.nodes[a].ents| && t.nodes[a].ents[k].inum == x
  {
    if a < |t.nodes| && t.nodes[a].kind.Dir? {
      var k := Lookup(t.nodes[a].ents, name);
      if k < |t.nodes[a].ents| {
        assert FirstAt(t.nodes[a].ents, name, k);
      }
    }
  }

  // The walk goes on from wherever a chain ends.
  lemma {:induction false} WalkFrom(t: Tree, d: nat, path: seq<Name>, k: nat, y: nat, ns: seq<nat>)
    requires k <= |path| && Chain(t, d, path[..k], y, ns)
    ensures Walk(t, d, path) == Walk(t, y, path[k..])
    decreases k
  {
    if k == 0 {
      assert path[0..] == path;
    } else {
      assert StepsTo(t, ns[0], path[..k][0], ns[1]);
      StepIsLookup(t, d, path[0]);
      forall j | 0 <= j < k - 1
        ensures StepsTo(t, ns[1..][j], path[1..][..k - 1][j], ns[1..][j + 1])
      {
        assert StepsTo(t, ns[j + 1], path[..k][j + 1], ns[j + 1 + 1]);
      }
      assert Chain(t, ns[1], path[1..][..k - 1], y, ns[1..]);
      WalkFrom(t, ns[1], path[1..], k - 1, y, ns[1..]);
      assert path[1..][k - 1..] == path[k..];
    }
  }

  // How far the walk gets: all the way, or to an inode it cannot leave by the next element.
  lemma {:induction false} WalkStops(t: Tree, d: nat, path: seq<Name>) returns (k: nat, y: nat, ns: seq<nat>)
    ensures k <= |path| && Chain(t, d, path[..k], y, ns)
    ensures match Walk(t, d, path)
            case Found(x) => k == |path| && y == x
            case Panics => k < |path| && (|t.nodes| <= y || t.nodes[y].kind.Free?)
            case Missing => k < |path| && Stuck(t, y, path[k])
    decreases |path|
  {
    hide StepsTo;
    k, y, ns := 0, d, [d];
    if path != [] {
      StepIsLookup(t, d, path[0]);
      if d < |t.nodes| && t.nodes[d].kind.Dir? && Lookup(t.nodes[d].ents, path[0]) < |t.nodes[d].ents| {
        var x := t.nodes[d].ents[Lookup(t.nodes[d].ents, path[0])].inum;
        var k', y', ns' := WalkStops(t, x, path[1..]);
        k, y, ns := k' + 1, y', [d] + ns';
        assert path[..k][1..] == path[1..][..k'];
        forall j | 0 <= j < k
          ensures StepsTo(t, ns[j], path[..k][j], ns[j + 1])
        {
          if j > 0 {
            assert StepsTo(t, ns'[j - 1], path[1..][..k'][j - 1], ns'[j - 1 + 1]);
          }
        }
      }
    }
  }

  // An inode in use that has no such entry, being no directory or not having the name.
  ghost predicate Stuck(t: Tree, y: nat, name: Name) {
    y < |t.nodes| && !t.nodes[y].kind.Free? && forall x: nat :: !StepsTo(t, y, name, x)
  }

  /** namex() finds x if and only if there is a chain of inodes from d to x in which each step leaves a directory by its
      first entry in use with that element of the path. */
  lemma {:induction false} FoundExact(t: Tree, d: nat, path: seq<Name>, x: nat)
    ensures Walk(t, d, path) == Found(x) <==> Leads(t, d, path, x)
  {
    hide Walk, StepsTo;
    assert path[..|path|] == path && path[|path|..] == [];
    var k, y, ns := WalkStops(t, d, path);
    if Leads(t, d, path, x) {
      var ms :| Chain(t, d, path, x, ms);
      WalkFrom(t, d, path, |path|, x, ms);
      WalkEmpty(t, x);
    }
  }

  lemma {:induction false} WalkEmpty(t: Tree, x: nat)
    ensures Walk(t, x, []) == Found(x)
  {
  }

  /** It finds nothing if and only if such a chain for part of the path ends at an inode in use that the next element
      does not lead out of: no directory, or one without the name. */
  lemma {:induction false} MissingExact(t: Tree, d: nat, path: seq<Name>)
    ensures Walk(t, d, path) == Missing <==>
              exists k: nat, y: nat :: k < |path| && Leads(t, d, path[..k], y) && Stuck(t, y, path[k])
  {
    hide Walk, StepsTo, Stuck;
    var k, y, ns := WalkStops(t, d, path);
    if Walk(t, d, path) == Missing {
      assert Leads(t, d, path[..k], y) && Stuck(t, y, path[k]);
    }
    if k: nat, y: nat :| k < |path| && Leads(t, d, path[..k], y) && Stuck(t, y, path[k]) {
      var ms :| Chain(t, d, path[..k], y, ms);
      WalkFrom(t, d, path, k, y, ms);
      WalkStuck(t, y, path[k..]);
    }
  }

  lemma {:induction false} WalkStuck(t: Tree, y: nat, path: seq<Name>)
    requires path != [] && Stuck(t, y, path[0])
    ensures Walk(t, y, path) == Missing
  {
    StepIsLookup(t, y, path[0]);
    if t.nodes[y].kind.Dir? {
      var k := Lookup(t.nodes[y].ents, path[0]);
      assert k < |t.nodes[y].ents| ==> StepsTo(t, y, path[0], t.nodes[y].ents[k].inum);
    }
  }

  /** It panics if and only if such a chain for part of the path, not the whole, ends at a free inode. */
  lemma {:induction false} PanicExact(t: Tree, d: nat, path: seq<Name>)
    ensures Walk(t, d, path) == Panics <==>
              exists k: nat, y: nat :: k < |path| && Leads(t, d, path[..k], y) && Unusable(t, y)
  {
    hide Walk, StepsTo, Stuck;
    var k, y, ns := WalkStops(t, d, path);
    if Walk(t, d, path) == Panics {
      assert Leads(t, d, path[..k], y) && Unusable(t, y);
    }
    if k: nat, y: nat :| k < |path| && Leads(t, d, path[..k], y) && Unusable(t, y) {
      var ms :| Chain(t, d, path[..k], y, ms);
      WalkFrom(t, d, path, k, y, ms);
      WalkUnusable(t, y, path[k..]);
    }
  }

  ghost predicate Unusable(t: Tree, y: nat) {
    |t.nodes| <= y || t.nodes[y].kind.Free?
  }

  lemma {:induction false} WalkUnusable(t: Tree, y: nat, path: seq<Name>)
    requires path != [] && Unusable(t, y)
    ensures Walk(t, y, path) == Panics
  {
  }

  // ---- Chains put together and cut ----

  lemma {:induction false} ChainExtends(t: Tree, d: nat, path: seq<Name>, y: nat, name: Name, x: nat)
    requires Leads(t, d, path, y) && StepsTo(t, y, name, x)
    ensures Leads(t, d, path + [name], x)
  {
    hide StepsTo;
    var ns :| Chain(t, d, path, y, ns);
    var ms := ns + [x];
    forall k | 0 <= k < |path + [name]|
      ensures StepsTo(t, ms[k], (path + [name])[k], ms[k + 1])
    {
      if k < |path| {
        assert StepsTo(t, ns[k], path[k], ns[k + 1]);
      }
    }
    assert Chain(t, d, path + [name], x, ms);
  }

  lemma {:induction false} ChainCut(t: Tree, d: nat, path: seq<Name>, x: nat) returns (y: nat)
    requires 0 < |path| && Leads(t, d, path, x)
    ensures Leads(t, d, path[..|path| - 1], y) && StepsTo(t, y, path[|path| - 1], x)
  {
    hide StepsTo;
    var ns :| Chain(t, d, path, x, ns);
    var n := |path| - 1;
    y := ns[n];
    assert StepsTo(t, ns[n], path[n], ns[n + 1]);
    forall k | 0 <= k < n
      ensures StepsTo(t, ns[..n + 1][k], path[..n][k], ns[..n + 1][k + 1])
    {
      assert StepsTo(t, ns[k], path[k], ns[k + 1]);
    }
    assert Chain(t, d, path[..n], y, ns[..n + 1]);
  }

  // If every step of t is one of u, so is every path.
  lemma {:induction false} LeadsKept(t: Tree, u: Tree, d: nat, path: seq<Name>, x: nat)
    requires forall a: nat, name, y: nat :: StepsTo(t, a, name, y) ==> StepsTo(u, a, name, y)
    requires Leads(t, d, path, x)
    ensures Leads(u, d, path, x)
  {
    hide StepsTo;
    var ns :| Chain(t, d, path, x, ns);
    assert Chain(u, d, path, x, ns);
  }

  // ---- What the operations do to every step ----

  lemma {:induction false} PutSteps(ents: seq<Ent>, e: Ent, nm: Name)
    requires Lookup(ents, e.name) == |ents| && e.inum != 0
    ensures var r, k := Put(ents, EmptySlot(ents), e), Lookup(ents, nm);
            var j := Lookup(r, nm);
            if nm == e.name then j < |r| && r[j] == e
            else if k < |ents| then j < |r| && r[j] == ents[k] else j == |r|
  {
  }

  /** sys_link() adds one step, from the directory by the new name to the inode, and changes no other. */
  lemma {:induction false} LinkedSteps(t: Tree, i: nat, d: nat, name: Name, u: Tree)
    requires 0 < i < |t.nodes| && d < |t.nodes| && t.nodes[d].kind.Dir? && u == Linked(t, i, d, name)
    requires Lookup(t.nodes[d].ents, name) == |t.nodes[d].ents|
    ensures forall a: nat, nm, x: nat :: StepsTo(u, a, nm, x) <==> StepsTo(t, a, nm, x) || (a, nm, x) == (d, name, i)
  {
    hide StepsTo, Lookup, EmptySlot, Put;
    forall a: nat, nm, x: nat
      ensures StepsTo(u, a, nm, x) <==> StepsTo(t, a, nm, x) || (a, nm, x) == (d, name, i)
    {
      StepIsLookup(t, a, nm);
      StepIsLookup(u, a, nm);
      PutSteps(t.nodes[d].ents, Ent(i, name), nm);
    }
  }

  /** create() of a new inode adds that step and, for a directory, its two dots. */
  lemma {:induction false} CreatedSteps(t: Tree, i: nat, d: nat, name: Name, kind: Kind, u: Tree)
    requires 0 < i < |t.nodes| == |t.refs| && 0 < d < |t.nodes| && i != d && t.nodes[d].kind.Dir?
    requires t.nodes[i].kind.Free? && !kind.Free? && u == Created(t, i, d, name, kind)
    requires Lookup(t.nodes[d].ents, name) == |t.nodes[d].ents|
    ensures forall a: nat, nm, x: nat :: StepsTo(u, a, nm, x) <==>
              || StepsTo(t, a, nm, x) || (a, nm, x) == (d, name, i)
              || (kind.Dir? && ((a, nm, x) == (i, Dot, i) || (a, nm, x) == (i, DotDot, d)))
  {
    hide StepsTo, Lookup, EmptySlot, Put;
    CreatedNodes(t, i, d, name, kind, u);
    forall a: nat, nm, x: nat
      ensures StepsTo(u, a, nm, x) <==>
                || StepsTo(t, a, nm, x) || (a, nm, x) == (d, name, i)
                || (kind.Dir? && ((a, nm, x) == (i, Dot, i) || (a, nm, x) == (i, DotDot, d)))
    {
      StepIsLookup(t, a, nm);
      StepIsLookup(u, a, nm);
      PutSteps(t.nodes[d].ents, Ent(i, name), nm);
      DotSteps(i, d, nm);
    }
  }

  lemma {:induction false} DotSteps(i: nat, d: nat, nm: Name)
    requires i != 0 && d != 0
    ensures var ents := [Ent(i, Dot), Ent(d, DotDot)];
            Lookup(ents, nm) == if nm == Dot then 0 else if nm == DotDot then 1 else 2
  {
    var ents := [Ent(i, Dot), Ent(d, DotDot)];
    assert ents[0].name == Dot && ents[1].name == DotDot;
  }

  // No two entries in use have this name.
  ghost predicate Single(ents: seq<Ent>, name: Name) {
    forall j, k :: 0 <= j < k < |ents| ==>
      !(ents[j].inum != 0 && ents[j].name == name && ents[k].inum != 0 && ents[k].name == name)
  }

  // The inode sys_unlink() of entry k of d frees, if it does.
  ghost predicate Freed(t: Tree, d: nat, k: nat, a: nat)
    requires d < |t.nodes| == |t.refs| && k < |t.nodes[d].ents| && a < |t.nodes|
  {
    a == t.nodes[d].ents[k].inum && t.nodes[a].nlink == 1 && t.refs[a] == 0
  }

  lemma {:induction false} CutSteps(ents: seq<Ent>, k: nat, name: Name, nm: Name)
    requires k == Lookup(ents, name) < |ents| && Single(ents, name)
    ensures var r := ents[k := Ent(0, Text(""))];
            if nm == name then Lookup(r, nm) == |r|
            else Lookup(r, nm) == Lookup(ents, nm) && (Lookup(r, nm) < |r| ==> r[Lookup(r, nm)] == ents[Lookup(r, nm)])
  {
    var r := ents[k := Ent(0, Text(""))];
    var j := Lookup(r, nm);
    assert j < |r| ==> j != k && ents[j].inum != 0 && ents[j].name == nm;
    if nm != name {
      var m := Lookup(ents, nm);
      assert m < |ents| ==> r[m] == ents[m];
    }
  }

  /** sys_unlink() takes away the step by the name removed and the steps out of the inode it frees, and no other. */
  lemma {:induction false} UnlinkedSteps(t: Tree, d: nat, k: nat, name: Name, u: Tree)
    requires d < |t.nodes| == |t.refs| && t.nodes[d].kind.Dir? && k == Lookup(t.nodes[d].ents, name) < |t.nodes[d].ents|
    requires t.nodes[d].ents[k].inum < |t.nodes| && t.nodes[d].ents[k].inum != d && u == Unlinked(t, d, k)
    requires Single(t.nodes[d].ents, name)
    ensures forall a: nat, nm, x: nat :: StepsTo(u, a, nm, x) <==>
              StepsTo(t, a, nm, x) && (a, nm) != (d, name) && !(a < |t.nodes| && Freed(t, d, k, a))
  {
    hide StepsTo, Lookup, Single;
    var i := t.nodes[d].ents[k].inum;
    forall a: nat, nm, x: nat
      ensures StepsTo(u, a, nm, x) <==>
                StepsTo(t, a, nm, x) && (a, nm) != (d, name) && !(a < |t.nodes| && Freed(t, d, k, a))
    {
      StepIsLookup(t, a, nm);
      StepIsLookup(u, a, nm);
      CutSteps(t.nodes[d].ents, k, name, nm);
    }
  }

  // ---- What they do to every path ----

  /** After sys_link() the new path leads to the inode, and every other path still leads where it did. */
  lemma {:induction false} LinkedFinds(t: Tree, start: nat, dst: seq<Name>, i: nat, d: nat, u: Tree)
    requires 0 < i < |t.nodes| && d < |t.nodes| && t.nodes[d].kind.Dir? && 0 < |dst|
    requires u == Linked(t, i, d, dst[|dst| - 1]) && Lookup(t.nodes[d].ents, dst[|dst| - 1]) == |t.nodes[d].ents|
    requires Walk(t, start, dst[..|dst| - 1]) == Found(d)
    ensures Walk(u, start, dst) == Found(i)
    ensures forall a: nat, path :: Walk(t, a, path).Found? ==> Walk(u, a, path) == Walk(t, a, path)
  {
    hide StepsTo, Leads, Walk, Linked, Lookup;
    LinkedSteps(t, i, d, dst[|dst| - 1], u);
    NewPath(t, u, start, dst, d, i);
    PathsKept(t, u);
  }

  // The new step completes the new path.
  lemma {:induction false} NewPath(t: Tree, u: Tree, start: nat, dst: seq<Name>, d: nat, i: nat)
    requires forall a: nat, name, y: nat :: StepsTo(t, a, name, y) ==> StepsTo(u, a, name, y)
    requires 0 < |dst| && Walk(t, start, dst[..|dst| - 1]) == Found(d) && StepsTo(u, d, dst[|dst| - 1], i)
    ensures Walk(u, start, dst) == Found(i)
  {
    hide StepsTo, Leads, Walk;
    var up := dst[..|dst| - 1];
    FoundExact(t, start, up, d);
    LeadsKept(t, u, start, up, d);
    ChainExtends(u, start, up, d, dst[|dst| - 1], i);
    assert up + [dst[|dst| - 1]] == dst;
    FoundExact(u, start, dst, i);
  }

  lemma {:induction false} PathsKept(t: Tree, u: Tree)
    requires forall a: nat, name, y: nat :: StepsTo(t, a, name, y) ==> StepsTo(u, a, name, y)
    ensures forall a: nat, path :: Walk(t, a, path).Found? ==> Walk(u, a, path) == Walk(t, a, path)
  {
    hide StepsTo, Leads, Walk;
    forall a: nat, path | Walk(t, a, path).Found?
      ensures Walk(u, a, path) == Walk(t, a, path)
    {
      var x := Walk(t, a, path).inum;
      FoundExact(t, a, path, x);
      LeadsKept(t, u, a, path, x);
      FoundExact(u, a, path, x);
    }
  }

  /** After create() the new path leads to the new inode, and every other path still leads where it did. */
  lemma {:induction false} CreatedFinds(t: Tree, start: nat, dst: seq<Name>, i: nat, d: nat, kind: Kind, u: Tree)
    requires 0 < i < |t.nodes| == |t.refs| && 0 < d < |t.nodes| && i != d && t.nodes[d].kind.Dir? && 0 < |dst|
    requires t.nodes[i].kind.Free? && !kind.Free? && u == Created(t, i, d, dst[|dst| - 1], kind)
    requires Lookup(t.nodes[d].ents, dst[|dst| - 1]) == |t.nodes[d].ents|
    requires Walk(t, start, dst[..|dst| - 1]) == Found(d)
    ensures Walk(u, start, dst) == Found(i)
    ensures forall a: nat, path :: Walk(t, a, path).Found? ==> Walk(u, a, path) == Walk(t, a, path)
  {
    hide StepsTo, Leads, Walk, Created, Lookup;
    CreatedSteps(t, i, d, dst[|dst| - 1], kind, u);
    NewPath(t, u, start, dst, d, i);
    PathsKept(t, u);
  }

  /** After sys_unlink() the path leads nowhere, no path leads anywhere it did not, and a path still leads where it did
      if and only if it used neither the entry removed nor, to go on, the inode freed. */
  lemma {:induction false} UnlinkedMisses(t: Tree, start: nat, path: seq<Name>, d: nat, k: nat, u: Tree)
    requires 0 < |path| && Walk(t, start, path[..|path| - 1]) == Found(d)
    requires d < |t.nodes| == |t.refs| && t.nodes[d].kind.Dir?
    requires k == Lookup(t.nodes[d].ents, path[|path| - 1]) < |t.nodes[d].ents|
    requires t.nodes[d].ents[k].inum < |t.nodes| && t.nodes[d].ents[k].inum != d && u == Unlinked(t, d, k)
    requires Single(t.nodes[d].ents, path[|path| - 1])
    ensures !Walk(u, start, path).Found?
    ensures forall a: nat, p, x: nat :: Walk(u, a, p) == Found(x) <==>
              Walk(t, a, p) == Found(x) && !Uses(t, d, k, path[|path| - 1], a, p)
  {
    hide StepsTo, Leads, Walk, Unlinked, Lookup, Single, Freed;
    var name := path[|path| - 1];
    UnlinkedSteps(t, d, k, name, u);
    PathsLeft(t, u, d, k, name);
    if Walk(u, start, path).Found? {
      var x := Walk(u, start, path).inum;
      FoundExact(u, start, path, x);
      var y := ChainCut(u, start, path, x);
      LeadsKept(u, t, start, path[..|path| - 1], y);
      FoundExact(t, start, path[..|path| - 1], y);
    }
  }

  // The walk along p leaves d by the name removed, or the inode freed by any.
  ghost predicate Uses(t: Tree, d: nat, k: nat, name: Name, a: nat, p: seq<Name>)
    requires d < |t.nodes| == |t.refs| && k < |t.nodes[d].ents|
  {
    exists j :: 0 <= j < |p| && UsesAt(t, d, k, name, a, p, j)
  }

  ghost predicate UsesAt(t: Tree, d: nat, k: nat, name: Name, a: nat, p: seq<Name>, j: nat)
    requires d < |t.nodes| == |t.refs| && k < |t.nodes[d].ents| && j < |p|
  {
    && Walk(t, a, p[..j]).Found?
    && var y := Walk(t, a, p[..j]).inum;
       (y == d && p[j] == name) || (y < |t.nodes| && Freed(t, d, k, y))
  }

  lemma {:induction false} PathsLeft(t: Tree, u: Tree, d: nat, k: nat, name: Name)
    requires d < |t.nodes| == |t.refs| && k < |t.nodes[d].ents|
    requires forall a: nat, nm, x: nat :: StepsTo(u, a, nm, x) <==>
               StepsTo(t, a, nm, x) && (a, nm) != (d, name) && !(a < |t.nodes| && Freed(t, d, k, a))
    ensures forall a: nat, p, x: nat :: Walk(u, a, p) == Found(x) <==>
              Walk(t, a, p) == Found(x) && !Uses(t, d, k, name, a, p)
  {
    hide StepsTo, Leads, Walk, Freed, Uses;
    forall a: nat, p, x: nat
      ensures Walk(u, a, p) == Found(x) <==> Walk(t, a, p) == Found(x) && !Uses(t, d, k, name, a, p)
    {
      PathLeft(t, u, d, k, name, a, p, x);
    }
  }

  lemma {:induction false} PathLeft(t: Tree, u: Tree, d: nat, k: nat, name: Name, a: nat, p: seq<Name>, x: nat)
    requires d < |t.nodes| == |t.refs| && k < |t.nodes[d].ents|
    requires forall a: nat, nm, x: nat :: StepsTo(u, a, nm, x) <==>
               StepsTo(t, a, nm, x) && (a, nm) != (d, name) && !(a < |t.nodes| && Freed(t, d, k, a))
    ensures Walk(u, a, p) == Found(x) <==> Walk(t, a, p) == Found(x) && !Uses(t, d, k, name, a, p)
    decreases |p|
  {
    hide StepsTo, Leads, Walk, Freed, Uses;
    FoundExact(u, a, p, x);
    FoundExact(t, a, p, x);
    if p == [] {
      WalkEmpty(t, a);
      WalkEmpty(u, a);
      NoUses(t, d, k, name, a);
    } else {
      var q, nm := p[..|p| - 1], p[|p| - 1];
      assert q + [nm] == p;
      UsesSplits(t, d, k, name, a, p);
      if Leads(u, a, p, x) {
        var y := ChainCut(u, a, p, x);
        PathLeft(t, u, d, k, name, a, q, y);
        FoundExact(u, a, q, y);
        FoundExact(t, a, q, y);
        LeadsKept(u, t, a, p, x);
      } else if Leads(t, a, p, x) && !Uses(t, d, k, name, a, p) {
        var y := ChainCut(t, a, p, x);
        PathLeft(t, u, d, k, name, a, q, y);
        FoundExact(u, a, q, y);
        FoundExact(t, a, q, y);
        ChainExtends(u, a, q, y, nm, x);
      }
    }
  }

  lemma {:induction false} NoUses(t: Tree, d: nat, k: nat, name: Name, a: nat)
    requires d < |t.nodes| == |t.refs| && k < |t.nodes[d].ents|
    ensures !Uses(t, d, k, name, a, [])
  {
  }

  lemma {:induction false} UsesSplits(t: Tree, d: nat, k: nat, name: Name, a: nat, p: seq<Name>)
    requires d < |t.nodes| == |t.refs| && k < |t.nodes[d].ents| && 0 < |p|
    ensures Uses(t, d, k, name, a, p) <==>
              Uses(t, d, k, name, a, p[..|p| - 1]) || UsesAt(t, d, k, name, a, p, |p| - 1)
  {
    hide Walk, Freed;
    var q := p[..|p| - 1];
    assert forall j :: 0 <= j < |q| ==> q[..j] == p[..j] && q[j] == p[j];
    if Uses(t, d, k, name, a, q) {
      var j :| 0 <= j < |q| && UsesAt(t, d, k, name, a, q, j);
      assert UsesAt(t, d, k, name, a, p, j);
    }
    if Uses(t, d, k, name, a, p) && !UsesAt(t, d, k, name, a, p, |p| - 1) {
      var j :| 0 <= j < |p| && UsesAt(t, d, k, name, a, p, j);
      assert UsesAt(t, d, k, name, a, q, j);
    }
  }

  // ---- Names are not repeated ----

  ghost predicate Distinct(t: Tree) {
    forall a, name :: 0 <= a < |t.nodes| ==> Single(t.nodes[a].ents, name)
  }

  lemma {:induction false} PutSingle(ents: seq<Ent>, e: Ent, name: Name)
    requires Lookup(ents, e.name) == |ents| && Single(ents, name)
    ensures Single(Put(ents, EmptySlot(ents), e), name)
  {
  }

  lemma {:induction false} StepDistinct(t: Tree, at: seq<(nat, nat)>, op: Op)
    requires Inv(t, at) && Distinct(t) && Allowed(t, op)
    ensures Distinct(After(t, op))
  {
    hide Inv, Lookup, EmptySlot, Put, Single;
    var u := After(t, op);
    forall a, name | 0 <= a < |u.nodes|
      ensures Single(u.nodes[a].ents, name)
    {
      SingleKept(t, op, a, name);
    }
  }

  lemma {:induction false} SingleKept(t: Tree, op: Op, a: nat, name: Name)
    requires Allowed(t, op) && a < |t.nodes| && Single(t.nodes[a].ents, name)
    ensures |After(t, op).nodes| == |t.nodes| && Single(After(t, op).nodes[a].ents, name)
  {
    hide Lookup, EmptySlot, Put, Bounded;
    match op
    case DoLink(i, d, nm) => if a == d { PutSingle(t.nodes[a].ents, Ent(i, nm), name); }
    case DoCreate(i, d, nm, kind) => if a == d { PutSingle(t.nodes[a].ents, Ent(i, nm), name); }
    case _ =>
  }

  /** In every run from a tree of mkfs without repeated names, no directory ever has two entries of one name; so after
      sys_unlink() a path leads nowhere. */
  lemma {:induction false} NamesDistinct(ts: seq<Tree>, ops: seq<Op>, n: nat, j: nat)
    requires IsRun(ts, ops) && Fresh(ts[0], n) && Distinct(ts[0]) && j < |ts|
    ensures Distinct(ts[j])
  {
    hide Inv, After, Allowed, Distinct, Fresh;
    if j > 0 {
      NamesDistinct(ts, ops, n, j - 1);
      var at := RunKeeps(ts, ops, n, j - 1);
      StepDistinct(ts[j - 1], at, ops[j - 1]);
    }
  }
}
