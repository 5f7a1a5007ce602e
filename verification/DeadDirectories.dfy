/** Directories that have been removed but are still somebody's current directory: where a walk from one leads, and what
    create() and sys_link() (kernel/sysfile.c) do in one. */
module DeadDirectories {
  import opened Links

  ghost predicate IsDir(t: Tree, d: nat) {
    d < |t.nodes| && t.nodes[d].kind.Dir?
  }

  // A removed directory has no entries but "." and "..", and its ".." may name anything.
  lemma {:induction false} DeadLookup(t: Tree, at: seq<(nat, nat)>, d: nat, name: Name)
    requires Inv(t, at) && IsDir(t, d) && !Live(t, d)
    ensures 2 <= |t.nodes[d].ents| && t.nodes[d].nlink == 0 && t.nodes[d].ents[1].inum < |t.nodes|
    ensures name == Dot ==> Lookup(t.nodes[d].ents, name) == 0 && t.nodes[d].ents[0].inum == d
    ensures name == DotDot ==> Lookup(t.nodes[d].ents, name) == 1
    ensures name.Text? ==> Lookup(t.nodes[d].ents, name) == |t.nodes[d].ents|
  {
    assert Proper(t, d) && Bounded(t.nodes[d], |t.nodes|);
    if d != 0 {
      assert t.nodes[d].nlink == |Names(t, d)|;
    }
    hide Names, Placed;
    var k := Lookup(t.nodes[d].ents, name);
  }

  // The path climbs from a removed directory, through removed directories only, to a freed inode.
  ghost predicate Lost(t: Tree, d: nat, path: seq<Name>)
    requires IsDir(t, d)
    decreases |path|
  {
    && path != [] && !Live(t, d) && 2 <= |t.nodes[d].ents| && t.nodes[d].ents[1].inum < |t.nodes|
    && var p := t.nodes[d].ents[1].inum;
       match path[0]
       case Dot => Lost(t, d, path[1..])
       case DotDot => t.nodes[p].kind.Free? || (t.nodes[p].kind.Dir? && Lost(t, p, path[1..]))
       case Text(_) => false
  }

  // namex() panics, or returns an inode that its caller's ilock() panics on.
  ghost predicate MeetsFree(t: Tree, r: Outcome) {
    r.Panics? || (r.Found? && (|t.nodes| <= r.inum || t.nodes[r.inum].kind.Free?))
  }

  /** From any directory, a walk comes upon a free inode exactly when its path begins with "." and ".." that climb from
      a removed directory, through removed directories only, to a freed one. */
  lemma {:induction false} WalkExact(t: Tree, at: seq<(nat, nat)>, d: nat, path: seq<Name>)
    requires Inv(t, at) && IsDir(t, d)
    ensures MeetsFree(t, Walk(t, d, path)) <==> Lost(t, d, path)
    decreases |path|
  {
    hide Inv, Lookup;
    if Live(t, d) {
      RootWalk(t, at, d, path);
    } else if path != [] {
      DeadLookup(t, at, d, path[0]);
      var p := t.nodes[d].ents[1].inum;
      if path[0].Dot? {
        WalkExact(t, at, d, path[1..]);
      } else if path[0].DotDot? && t.nodes[p].kind.Dir? {
        WalkExact(t, at, p, path[1..]);
      }
    }
  }

  // dirlookup() in d finds nothing, or an allocated inode.
  ghost predicate LookupSafe(t: Tree, d: nat, name: Name)
    requires d < |t.nodes|
  {
    var k := Lookup(t.nodes[d].ents, name);
    k < |t.nodes[d].ents| ==> t.nodes[d].ents[k].inum < |t.nodes| && !t.nodes[t.nodes[d].ents[k].inum].kind.Free?
  }

  lemma {:induction false} LookupIsSafe(t: Tree, at: seq<(nat, nat)>, d: nat, name: Name)
    requires Inv(t, at) && IsDir(t, d) && (Live(t, d) || name != DotDot)
    ensures LookupSafe(t, d, name)
  {
    var k := Lookup(t.nodes[d].ents, name);
    if Live(t, d) {
      if k < |t.nodes[d].ents| {
        EntryLeads(t, at, d, k);
      }
    } else {
      DeadLookup(t, at, d, name);
    }
  }

  // A tree some run of operations reaches from the one mkfs makes.
  ghost predicate Reached(t: Tree, ts: seq<Tree>, ops: seq<Op>, n: nat) {
    IsRun(ts, ops) && Fresh(ts[0], n) && t == ts[|ops|]
  }

  ghost predicate Reachable(t: Tree) {
    exists ts, ops, n :: Reached(t, ts, ops, n)
  }

  lemma {:induction false} ReachableInv(t: Tree) returns (at: seq<(nat, nat)>)
    requires Reachable(t)
    ensures Inv(t, at)
  {
    var ts, ops, n :| Reached(t, ts, ops, n);
    at := RunKeeps(ts, ops, n, |ops|);
  }

  /** The exact condition. In every reachable tree dirlookup() finds no free inode, if and only if the directory it
      searches is linked or the name it looks for is not "..". */
  lemma {:induction false} LookupExact(linked: bool, name: Name)
    ensures (forall t: Tree, d: nat {:trigger LookupSafe(t, d, name)} ::
               Reachable(t) && IsDir(t, d) && (linked <==> Live(t, d)) ==> LookupSafe(t, d, name))
       <==> linked || name != DotDot
  {
    hide Lookup, Live;
    if linked || name != DotDot {
      forall t: Tree, d: nat | Reachable(t) && IsDir(t, d) && (linked <==> Live(t, d))
        ensures LookupSafe(t, d, name)
      {
        var at := ReachableInv(t);
        LookupIsSafe(t, at, d, name);
      }
    } else {
      var t := StaleParent();
      assert !LookupSafe(t, 4, DotDot);
    }
  }

  // ---- runs that reach such directories

  const NONE: Node := Node(Free, 0, [])
  const FILE: Node := Node(File, 1, [])

  function Root(nlink: int, more: seq<Ent>): (n: Node) {
    Node(Dir, nlink, [Ent(1, Dot), Ent(1, DotDot), Ent(2, Text("f"))] + more)
  }

  function Sub(i: nat, up: nat, nlink: int, more: seq<Ent>): (n: Node) {
    Node(Dir, nlink, [Ent(i, Dot), Ent(up, DotDot)] + more)
  }

  const GAP: Ent := Ent(0, Text(""))

  // mkfs with one file; then mkdir a, mkdir a/b and chdir a/b, unlink a/b, unlink a.
  function Stage(k: nat): (t: Tree)
    ensures |t.nodes| == |t.refs| == 6
  {
    match k
    case 0 => Tree([NONE, Root(1, []), FILE, NONE, NONE, NONE], [0, 0, 0, 0, 0, 0])
    case 1 => Tree([NONE, Root(2, [Ent(3, Text("a"))]), FILE, Sub(3, 1, 1, []), NONE, NONE], [0, 0, 0, 1, 0, 0])
    case 2 => Tree([NONE, Root(2, [Ent(3, Text("a"))]), FILE, Sub(3, 1, 1, []), NONE, NONE], [0, 0, 0, 0, 0, 0])
    case 3 => Tree([NONE, Root(2, [Ent(3, Text("a"))]), FILE, Sub(3, 1, 2, [Ent(4, Text("b"))]), Sub(4, 3, 1, []),
                    NONE],
                   [0, 0, 0, 0, 1, 0])
    case 4 => Tree([NONE, Root(2, [Ent(3, Text("a"))]), FILE, Sub(3, 1, 1, [GAP]), Sub(4, 3, 0, []), NONE],
                   [0, 0, 0, 0, 1, 0])
    case _ => Tree([NONE, Root(1, [GAP]), FILE, NONE, Sub(4, 3, 0, []), NONE], [0, 0, 0, 0, 1, 0])
  }

  const OPS: seq<Op> := [DoCreate(3, 1, Text("a"), Dir), DoClose(3), DoCreate(4, 3, Text("b"), Dir), DoUnlink(3, 2),
      DoUnlink(1, 3)]

  lemma {:induction false} StageSized(k: nat)
    ensures Sized(Stage(k))
  {
    var t := Stage(k);
    forall d | 0 <= d < |t.nodes|
      ensures Bounded(t.nodes[d], |t.nodes|)
    {
    }
  }

  lemma {:induction false} StageFresh()
    ensures Fresh(Stage(0), 1)
  {
  }

  lemma {:induction false} Stage1()
    ensures Allowed(Stage(0), OPS[0]) && After(Stage(0), OPS[0]) == Stage(1)
  {
    StageSized(0);
    var ents := Root(1, []).ents;
    assert "f"[0] != "a"[0];
    assert Lookup(ents, Text("a")) == |ents| == 3 && EmptySlot(ents) == 3;
    assert Put(ents, 3, Ent(3, Text("a"))) == Root(2, [Ent(3, Text("a"))]).ents;
    assert Sub(3, 1, 1, []).ents == [Ent(3, Dot), Ent(1, DotDot)];
    assert After(Stage(0), OPS[0]).nodes == Stage(1).nodes;
  }

  lemma {:induction false} Stage2()
    ensures Allowed(Stage(1), OPS[1]) && After(Stage(1), OPS[1]) == Stage(2)
  {
    StageSized(1);
  }

  lemma {:induction false} Stage3()
    ensures Allowed(Stage(2), OPS[2]) && After(Stage(2), OPS[2]) == Stage(3)
  {
    StageSized(2);
    var ents := Sub(3, 1, 1, []).ents;
    assert Lookup(ents, Text("b")) == |ents| == 2 && EmptySlot(ents) == 2;
    assert Put(ents, 2, Ent(4, Text("b"))) == Sub(3, 1, 2, [Ent(4, Text("b"))]).ents;
    assert Sub(4, 3, 1, []).ents == [Ent(4, Dot), Ent(3, DotDot)];
    assert After(Stage(2), OPS[2]).nodes == Stage(3).nodes;
  }

  lemma {:induction false} Stage4()
    ensures Allowed(Stage(3), OPS[3]) && After(Stage(3), OPS[3]) == Stage(4)
  {
    StageSized(3);
    var t := Stage(3);
    assert t.nodes[3].ents[2] == Ent(4, Text("b"));
    assert t.nodes[3].ents[2 := GAP] == Sub(3, 1, 1, [GAP]).ents;
  }

  lemma {:induction false} Stage5()
    ensures Allowed(Stage(4), OPS[4]) && After(Stage(4), OPS[4]) == Stage(5)
  {
    StageSized(4);
    var t := Stage(4);
    assert t.nodes[1].ents[3] == Ent(3, Text("a"));
    assert t.nodes[1].ents[3 := GAP] == Root(1, [GAP]).ents;
  }

  function Stages(n: nat): (ts: seq<Tree>)
    ensures |ts| == n && forall k :: 0 <= k < n ==> ts[k] == Stage(k)
  {
    seq(n, k requires 0 <= k < n => Stage(k))
  }

  lemma {:induction false} StagesRun(k: nat)
    requires k <= 5
    ensures Reached(Stage(k), Stages(k + 1), OPS[..k], 1)
  {
    hide Stage, Allowed, After, Fresh;
    StageFresh();
    Stage1();
    Stage2();
    Stage3();
    Stage4();
    Stage5();
    var ts, ops := Stages(k + 1), OPS[..k];
    forall j | 0 <= j < |ops|
      ensures Allowed(ts[j], ops[j]) && ts[j + 1] == After(ts[j], ops[j])
    {
      assert j == 0 || j == 1 || j == 2 || j == 3 || j == 4;
    }
  }

  /** mkdir a; mkdir a/b; chdir a/b; unlink a/b; unlink a: now ".." names a freed inode, and walking past it, or opening
      it, makes ilock() panic. */
  lemma {:induction false} StaleParent() returns (t: Tree)
    ensures Reachable(t) && IsDir(t, 4) && !Live(t, 4) && |t.refs| == 6 && t.refs[4] > 0
    ensures !LookupSafe(t, 4, DotDot) && MeetsFree(t, Walk(t, 4, [DotDot])) && Walk(t, 4, [DotDot, Text("x")]).Panics?
  {
    t := Stage(5);
    StagesRun(5);
    var ents := t.nodes[4].ents;
    assert ents == [Ent(4, Dot), Ent(3, DotDot)] && Lookup(ents, DotDot) == 1;
    assert [DotDot, Text("x")][1..] == [Text("x")] && [DotDot][1..] == [];
    hide Lookup, Stage;
  }

  // ---- new entries in a removed directory

  lemma {:induction false} NoNames(t: Tree, x: nat)
    requires forall a: nat, b: nat {:trigger Counts(t, a, b, x)} :: !Counts(t, a, b, x)
    ensures |Names(t, x)| == 0
  {
    forall p: (nat, nat)
      ensures p !in Names(t, x)
    {
      NamesMeans(t, x, p.0, p.1);
      assert p == (p.0, p.1);
    }
    assert Names(t, x) == {};
  }

  // A removed directory in which mkdir makes i is counted again, and with it its "..".
  lemma {:induction false} RevivedCounts(
      t: Tree, at: seq<(nat, nat)>, i: nat, d: nat, name: Name, u: Tree, a: nat, b: nat, x: nat)
    requires Inv(t, at) && IsDir(t, d) && !Live(t, d) && Lookup(t.nodes[d].ents, name) == |t.nodes[d].ents|
    requires 0 < i < |t.nodes| && t.nodes[i].kind.Free? && i != d && u == Created(t, i, d, name, Dir) && x != 0
    ensures 2 <= |t.nodes[d].ents| && !Counts(t, d, b, x) && !Counts(t, i, b, x)
    ensures Counts(u, a, b, x) <==>
            || Counts(t, a, b, x)
            || (x == t.nodes[d].ents[1].inum && (a, b) == (d, 1))
            || (x == i && (a, b) == (d, EmptySlot(t.nodes[d].ents)))
            || (x == d && (a, b) == (i, 1))
  {
    assert Proper(t, d) && Proper(t, i);
    DeadLookup(t, at, d, name);
    DeadLookup(t, at, d, Dot);
    DeadLookup(t, at, d, DotDot);
    hide Names, Counted, Placed;
    var k := EmptySlot(t.nodes[d].ents);
    assert 2 <= k && name.Text?;
  }

  // The inode that ".." names has one more name than its count knows of.
  lemma {:induction false} ReviveBreaks(t: Tree, at: seq<(nat, nat)>, i: nat, d: nat, name: Name, u: Tree)
    requires Inv(t, at) && IsDir(t, d) && !Live(t, d) && Lookup(t.nodes[d].ents, name) == |t.nodes[d].ents|
    requires 0 < i < |t.nodes| && t.nodes[i].kind.Free? && i != d && u == Created(t, i, d, name, Dir)
    ensures !Counted(u)
  {
    DeadLookup(t, at, d, name);
    assert Proper(t, d) && Proper(t, i);
    var p, k := t.nodes[d].ents[1].inum, EmptySlot(t.nodes[d].ents);
    assert 0 < p && k != 1;
    var add := {(d, 1)} + (if p == i then {(d, k)} else {}) + (if p == d then {(i, 1)} else {});
    forall a: nat, b: nat
      ensures Counts(u, a, b, p) <==> (Counts(t, a, b, p) || (a, b) in add) && (a, b) !in {}
      ensures (a, b) in add ==> !Counts(t, a, b, p)
    {
      RevivedCounts(t, at, i, d, name, u, a, b, p);
    }
    assert t.nodes[p].nlink == |Names(t, p)|;
    assert u.nodes[p].nlink == t.nodes[p].nlink + (if p == i || p == d then 1 else 0);
    NamesChange(t, u, p, add, {});
    assert |add| == if p == i || p == d then 2 else 1;
  }

  /** create() keeps the counts exact if and only if the directory it makes the new inode in is itself linked. */
  lemma {:induction false} CreateExact(t: Tree, at: seq<(nat, nat)>, i: nat, d: nat, name: Name, kind: Kind)
    requires Inv(t, at) && IsDir(t, d) && Lookup(t.nodes[d].ents, name) == |t.nodes[d].ents|
    requires 0 < i < |t.nodes| && t.nodes[i].kind.Free? && !kind.Free?
    ensures Counted(Created(t, i, d, name, kind)) <==> t.nodes[d].nlink > 0
  {
    var u := Created(t, i, d, name, kind);
    if t.nodes[d].nlink > 0 {
      CreatedCounted(t, at, i, d, name, kind, u);
    } else if kind.Dir? {
      ReviveBreaks(t, at, i, d, name, u);
    } else {
      assert Proper(t, d);
      assert t.nodes[d].nlink == |Names(t, d)|;
      forall a: nat, b: nat
        ensures !Counts(u, a, b, i)
      {
        FreeUnnamed(t, at, i, a, b);
      }
      NoNames(u, i);
      hide Names;
      assert u.nodes[i].nlink == 1;
    }
  }

  lemma {:induction false} DeadLinkCounts(t: Tree, i: nat, d: nat, name: Name, u: Tree, a: nat, b: nat)
    requires i < |t.nodes| && d < |t.nodes| && i != d && !t.nodes[i].kind.Dir? && t.nodes[d].nlink <= 0
    requires u == Linked(t, i, d, name)
    ensures Counts(u, a, b, i) == Counts(t, a, b, i)
  {
  }

  /** sys_link() likewise. */
  lemma {:induction false} LinkExact(t: Tree, at: seq<(nat, nat)>, i: nat, d: nat, name: Name)
    requires Inv(t, at) && IsDir(t, d) && Lookup(t.nodes[d].ents, name) == |t.nodes[d].ents|
    requires 0 < i < |t.nodes| && !t.nodes[i].kind.Free? && !t.nodes[i].kind.Dir?
    ensures Counted(Linked(t, i, d, name)) <==> t.nodes[d].nlink > 0
  {
    var u := Linked(t, i, d, name);
    if t.nodes[d].nlink > 0 {
      LinkedCounted(t, at, i, d, name, u);
    } else {
      hide Names, Proper;
      forall a: nat, b: nat
        ensures Counts(u, a, b, i) == Counts(t, a, b, i)
      {
        DeadLinkCounts(t, i, d, name, u, a, b);
      }
      NamesChange(t, u, i, {}, {});
      hide Counts, Placed, AllProper;
      assert u.nodes[i].nlink == t.nodes[i].nlink + 1;
    }
  }

  /** Such a directory is reachable: after mkdir a, mkdir a/b, chdir a/b and unlink a/b, creating anything in the
      current directory, or linking a file into it, makes the counts wrong. */
  lemma {:induction false} EntryInRemoved(kind: Kind) returns (t: Tree)
    requires !kind.Free?
    ensures Reachable(t) && IsDir(t, 4) && Lookup(t.nodes[4].ents, Text("x")) == |t.nodes[4].ents|
    ensures |t.refs| == |t.nodes| == 6 && t.refs[4] > 0 && t.nodes[5].kind.Free? && t.nodes[2].kind.File?
    ensures !Counted(Created(t, 5, 4, Text("x"), kind)) && !Counted(Linked(t, 2, 4, Text("x")))
  {
    t := Stage(4);
    StagesRun(4);
    var ents := t.nodes[4].ents;
    assert ents == [Ent(4, Dot), Ent(3, DotDot)] && Lookup(ents, Text("x")) == 2;
    var at := ReachableInv(t);
    CreateExact(t, at, 5, 4, Text("x"), kind);
    LinkExact(t, at, 2, 4, Text("x"));
    hide Stage, Lookup, Counted, Inv, Created, Linked;
  }
}
