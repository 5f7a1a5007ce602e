/** Directories and link counts: what create(), sys_link(), sys_unlink() (kernel/sysfile.c) and the last iput()
    (kernel/fs.c) do to the tree, whole operations one at a time. */
module Links {

  const ROOT: nat := 1 // ROOTINO

  datatype Kind = Free | Dir | File | Device

  // A name as namecmp() sees it.
  datatype Name = Dot | DotDot | Text(text: string)

  // A struct dirent; inum 0 marks an empty one.
  datatype Ent = Ent(inum: nat, name: Name)

  datatype Node = Node(kind: Kind, nlink: int, ents: seq<Ent>)

  // refs[i]: references to inode i held between operations (open files, current directories).
  datatype Tree = Tree(nodes: seq<Node>, refs: seq<nat>)

  datatype Outcome = Found(inum: nat) | Missing | Panics

  // dirlookup(): the first entry in use with this name, |ents| if there is none.
  function Lookup(ents: seq<Ent>, name: Name): (k: nat)
    ensures k <= |ents|
    ensures k < |ents| ==> ents[k].inum != 0 && ents[k].name == name
    ensures forall j :: 0 <= j < k ==> ents[j].inum == 0 || ents[j].name != name
  {
    if ents == [] then 0
    else if ents[0].inum != 0 && ents[0].name == name then 0
    else 1 + Lookup(ents[1..], name)
  }

  // dirlink()'s place: the first empty entry, |ents| if there is none.
  function EmptySlot(ents: seq<Ent>): (k: nat)
    ensures k <= |ents|
    ensures k < |ents| ==> ents[k].inum == 0
    ensures forall j :: 0 <= j < k ==> ents[j].inum != 0
  {
    if ents == [] then 0 else if ents[0].inum == 0 then 0 else 1 + EmptySlot(ents[1..])
  }

  function Put(ents: seq<Ent>, k: nat, e: Ent): (r: seq<Ent>)
    requires k <= |ents|
    ensures |r| == if k < |ents| then |ents| else |ents| + 1
    ensures forall j :: 0 <= j < |r| ==> r[j] == if j == k then e else ents[j]
  {
    if k < |ents| then ents[k := e] else ents + [e]
  }

  // namex(): ilock() panics on a free inode.
  function Walk(t: Tree, d: nat, path: seq<Name>): (r: Outcome)
    decreases |path|
  {
    if path == [] then Found(d)
    else if |t.nodes| <= d || t.nodes[d].kind.Free? then Panics
    else if !t.nodes[d].kind.Dir? then Missing
    else
      var k := Lookup(t.nodes[d].ents, path[0]);
      if k == |t.nodes[d].ents| then Missing else Walk(t, t.nodes[d].ents[k].inum, path[1..])
  }

  predicate Live(t: Tree, d: nat) {
    d < |t.nodes| && t.nodes[d].kind.Dir? && t.nodes[d].nlink > 0
  }

  // Entry k of d counts towards the inode it names.
  predicate Counts(t: Tree, d: nat, k: nat, i: nat) {
    Live(t, d) && k < |t.nodes[d].ents| && t.nodes[d].ents[k].inum == i && t.nodes[d].ents[k].name != Dot
  }

  // The entries other than "." that name i, in directories that are themselves linked.
  ghost function Names(t: Tree, i: nat): (r: set<(nat, nat)>) {
    set d: nat, k: nat | d < |t.nodes| && k < |t.nodes[d].ents| && Counts(t, d, k, i) :: (d, k)
  }

  lemma {:induction false} NamesMeans(t: Tree, i: nat, d: nat, k: nat)
    ensures (d, k) in Names(t, i) <==> Counts(t, d, k, i)
  {
  }

  ghost predicate Sized(t: Tree) {
    && |t.refs| == |t.nodes| && ROOT < |t.nodes|
    && (forall d :: 0 <= d < |t.nodes| ==> Bounded(t.nodes[d], |t.nodes|))
  }

  ghost predicate Bounded(n: Node, size: nat) {
    forall k :: 0 <= k < |n.ents| ==> n.ents[k].inum < size
  }

  // "." and ".." come first and nowhere else.
  ghost predicate Dotted(d: nat, n: Node) {
    && 2 <= |n.ents| && n.ents[0] == Ent(d, Dot) && n.ents[1].name == DotDot && n.ents[1].inum != 0
    && (forall k :: 2 <= k < |n.ents| && n.ents[k].inum != 0 ==> n.ents[k].name != Dot && n.ents[k].name != DotDot)
  }

  ghost predicate Vacant(n: Node) {
    forall k :: 2 <= k < |n.ents| ==> n.ents[k].inum == 0
  }

  // Everything about one inode but its count.
  ghost predicate Proper(t: Tree, i: nat)
    requires i < |t.nodes| && i < |t.refs|
  {
    var n := t.nodes[i];
    && (n.kind.Free? ==> n.nlink == 0 && t.refs[i] == 0)
    && (i == 0 ==> n.kind.Free?)
    && (n.kind.Dir? ==> Dotted(i, n))
    && (!n.kind.Dir? ==> n.ents == [])
    && (!n.kind.Free? && n.nlink == 0 ==> t.refs[i] > 0)
    && (n.kind.Dir? && n.nlink == 0 ==> Vacant(n))
  }

  ghost predicate AllProper(t: Tree)
    requires |t.refs| == |t.nodes|
  {
    forall i {:trigger Proper(t, i)} :: 0 <= i < |t.nodes| ==> Proper(t, i)
  }

  ghost predicate Counted(t: Tree) {
    forall i :: 0 < i < |t.nodes| ==> t.nodes[i].nlink == |Names(t, i)|
  }

  // A linked directory is named once, at at[i], by the directory its ".." names; the root by no one.
  ghost predicate PlacedAt(t: Tree, at: seq<(nat, nat)>, i: nat)
    requires i < |at| == |t.nodes|
  {
    && Counts(t, at[i].0, at[i].1, i) && 2 <= at[i].1
    && |t.nodes[i].ents| >= 2 && t.nodes[i].ents[1].inum == at[i].0
  }

  ghost predicate Placed(t: Tree, at: seq<(nat, nat)>) {
    && |at| == |t.nodes| && Live(t, ROOT) && |t.nodes[ROOT].ents| >= 2 && t.nodes[ROOT].ents[1].inum == ROOT
    && (forall i {:trigger PlacedAt(t, at, i)} :: 0 <= i < |t.nodes| && Live(t, i) && i != ROOT ==> PlacedAt(t, at, i))
    && (forall d: nat, k: nat, i: nat {:trigger Counts(t, d, k, i)} ::
          Counts(t, d, k, i) && 2 <= k && 0 < i < |t.nodes| && t.nodes[i].kind.Dir? ==> i != ROOT && at[i] == (d, k))
  }

  ghost predicate Inv(t: Tree, at: seq<(nat, nat)>) {
    Sized(t) && AllProper(t) && Counted(t) && Placed(t, at)
  }

  /** From the root, no path leads to a free inode: ilock() cannot panic and what is found is allocated and linked. */
  lemma {:induction false} RootWalk(t: Tree, at: seq<(nat, nat)>, d: nat, path: seq<Name>)
    requires Inv(t, at) && Live(t, d)
    ensures Walk(t, d, path) != Panics
    ensures Walk(t, d, path).Found? ==>
              var i := Walk(t, d, path).inum; i < |t.nodes| && !t.nodes[i].kind.Free? && t.nodes[i].nlink > 0
    decreases |path|
  {
    if path != [] {
      var k := Lookup(t.nodes[d].ents, path[0]);
      if k < |t.nodes[d].ents| {
        var i := t.nodes[d].ents[k].inum;
        EntryLeads(t, at, d, k);
        if t.nodes[i].kind.Dir? {
          RootWalk(t, at, i, path[1..]);
        } else {
          assert path[1..] != [] ==> Walk(t, i, path[1..]) == Missing;
        }
      }
    }
  }

  // An entry of a linked directory names a linked inode.
  lemma {:induction false} EntryLeads(t: Tree, at: seq<(nat, nat)>, d: nat, k: nat)
    requires Inv(t, at) && Live(t, d) && k < |t.nodes[d].ents| && t.nodes[d].ents[k].inum != 0
    ensures var i := t.nodes[d].ents[k].inum; i < |t.nodes| && t.nodes[i].nlink > 0 && !t.nodes[i].kind.Free?
  {
    var i := t.nodes[d].ents[k].inum;
    assert Proper(t, d) && Proper(t, i);
    if t.nodes[d].ents[k].name == Dot {
      assert k == 0;
    } else {
      NamesMeans(t, i, d, k);
      assert Names(t, i) != {};
    }
  }

  // The sets Names before and after, from Counts before and after.
  lemma {:induction false} NamesChange(t: Tree, u: Tree, i: nat, add: set<(nat, nat)>, del: set<(nat, nat)>)
    requires forall d: nat, k: nat {:trigger Counts(u, d, k, i)} ::
               Counts(u, d, k, i) <==> (Counts(t, d, k, i) || (d, k) in add) && (d, k) !in del
    requires forall d: nat, k: nat {:trigger Counts(t, d, k, i)} :: (d, k) in add ==> !Counts(t, d, k, i)
    requires forall d: nat, k: nat {:trigger Counts(t, d, k, i)} :: (d, k) in del ==> Counts(t, d, k, i)
    requires add !! del
    ensures |Names(u, i)| == |Names(t, i)| + |add| - |del|
  {
    forall p: (nat, nat)
      ensures p in Names(t, i) <==> Counts(t, p.0, p.1, i)
      ensures p in Names(u, i) <==> Counts(u, p.0, p.1, i)
    {
      NamesMeans(t, i, p.0, p.1);
      NamesMeans(u, i, p.0, p.1);
      assert p == (p.0, p.1);
    }
    hide Names, Counts;
    forall p: (nat, nat)
      ensures p in Names(u, i) <==> p in (Names(t, i) + add) - del
      ensures p in add ==> p !in Names(t, i)
      ensures p in del ==> p in Names(t, i)
    {
      assert p == (p.0, p.1);
      assert Counts(u, p.0, p.1, i) <==> (Counts(t, p.0, p.1, i) || (p.0, p.1) in add) && (p.0, p.1) !in del;
      assert (p.0, p.1) in add ==> !Counts(t, p.0, p.1, i);
      assert (p.0, p.1) in del ==> Counts(t, p.0, p.1, i);
    }
    assert Names(u, i) == (Names(t, i) + add) - del;
    assert add !! Names(t, i) && del <= Names(t, i) + add;
  }

  // dirlink() of a name not yet there, when it finds room.
  function Entered(t: Tree, d: nat, name: Name, i: nat): (u: Tree)
    requires d < |t.nodes|
  {
    var n := t.nodes[d];
    t.(nodes := t.nodes[d := n.(ents := Put(n.ents, EmptySlot(n.ents), Ent(i, name)))])
  }

  // iput() of the last reference to an inode without links.
  function Reaped(t: Tree, i: nat): (u: Tree)
    requires i < |t.nodes| == |t.refs|
  {
    if t.nodes[i].nlink == 0 && t.refs[i] == 0 then t.(nodes := t.nodes[i := Node(Free, 0, [])]) else t
  }

  // sys_link() when it succeeds.
  function Linked(t: Tree, i: nat, d: nat, name: Name): (u: Tree)
    requires i < |t.nodes| && d < |t.nodes|
  {
    Entered(t.(nodes := t.nodes[i := t.nodes[i].(nlink := t.nodes[i].nlink + 1)]), d, name, i)
  }

  // create() of a new inode when it succeeds; the caller holds a reference.
  function Created(t: Tree, i: nat, d: nat, name: Name, kind: Kind): (u: Tree)
    requires i < |t.nodes| == |t.refs| && d < |t.nodes| && i != d
  {
    var ents := if kind.Dir? then [Ent(i, Dot), Ent(d, DotDot)] else [];
    var n := t.nodes[d];
    var up := if kind.Dir? then n.nlink + 1 else n.nlink;
    var t1 := Tree(t.nodes[i := Node(kind, 1, ents)][d := n.(nlink := up)], t.refs[i := 1]);
    Entered(t1, d, name, i)
  }

  // sys_unlink() of entry k of d when it succeeds.
  function Unlinked(t: Tree, d: nat, k: nat): (u: Tree)
    requires d < |t.nodes| == |t.refs| && k < |t.nodes[d].ents| && t.nodes[d].ents[k].inum < |t.nodes|
    requires t.nodes[d].ents[k].inum != d
  {
    var i, n := t.nodes[d].ents[k].inum, t.nodes[d];
    var down := if t.nodes[i].kind.Dir? then n.nlink - 1 else n.nlink;
    var parent := Node(n.kind, down, n.ents[k := Ent(0, Text(""))]);
    var t1 := t.(nodes := t.nodes[d := parent][i := t.nodes[i].(nlink := t.nodes[i].nlink - 1)]);
    Reaped(t1, i)
  }

  function Opened(t: Tree, i: nat): (u: Tree)
    requires i < |t.refs|
  {
    t.(refs := t.refs[i := t.refs[i] + 1])
  }

  function Closed(t: Tree, i: nat): (u: Tree)
    requires i < |t.nodes| == |t.refs| && t.refs[i] > 0
  {
    Reaped(t.(refs := t.refs[i := t.refs[i] - 1]), i)
  }

  // A place for a new entry: d is a linked directory without this name, and the name is not a dot.
  ghost predicate Room(t: Tree, d: nat, name: Name) {
    Live(t, d) && Lookup(t.nodes[d].ents, name) == |t.nodes[d].ents|
  }

  lemma {:induction false} RoomSlot(t: Tree, at: seq<(nat, nat)>, d: nat, name: Name)
    requires Inv(t, at) && Room(t, d, name)
    ensures 2 <= EmptySlot(t.nodes[d].ents) && name != Dot && name != DotDot
  {
    assert Proper(t, d);
  }

  // ---- sys_link()

  lemma {:induction false} LinkedCounts(
      t: Tree, at: seq<(nat, nat)>, i: nat, d: nat, name: Name, u: Tree, a: nat, b: nat, x: nat)
    requires Inv(t, at) && Room(t, d, name) && 0 < i < |t.nodes| && !t.nodes[i].kind.Dir? && u == Linked(t, i, d, name)
    requires x != 0
    ensures Counts(u, a, b, x) <==> Counts(t, a, b, x) || (x == i && (a, b) == (d, EmptySlot(t.nodes[d].ents)))
    ensures !Counts(t, d, EmptySlot(t.nodes[d].ents), x)
  {
    RoomSlot(t, at, d, name);
  }

  // A directory stays well formed when an entry beyond the first two changes.
  lemma {:induction false} DottedPut(d: nat, n: Node, k: nat, e: Ent)
    requires Dotted(d, n) && 2 <= k <= |n.ents| && (e.inum != 0 ==> e.name != Dot && e.name != DotDot)
    ensures Dotted(d, n.(ents := Put(n.ents, k, e)))
  {
  }

  lemma {:induction false} SizedPut(t: Tree, d: nat, k: nat, e: Ent, u: Tree)
    requires Sized(t) && d < |t.nodes| && k <= |t.nodes[d].ents| && e.inum < |t.nodes|
    requires |u.nodes| == |t.nodes| && |u.refs| == |t.refs| && u.nodes[d].ents == Put(t.nodes[d].ents, k, e)
    requires forall x :: 0 <= x < |t.nodes| && x != d ==> u.nodes[x].ents == t.nodes[x].ents
    ensures Sized(u)
  {
  }

  lemma {:induction false} LinkedProper(t: Tree, at: seq<(nat, nat)>, i: nat, d: nat, name: Name, u: Tree)
    requires Inv(t, at) && Room(t, d, name) && 0 < i < |t.nodes| && u == Linked(t, i, d, name)
    requires !t.nodes[i].kind.Dir? && !t.nodes[i].kind.Free?
    ensures Sized(u) && AllProper(u)
  {
    assert t.nodes[i].nlink >= 0;
    RoomSlot(t, at, d, name);
    hide Counted, Placed, Names, Dotted, Sized, Put, EmptySlot;
    var k := EmptySlot(t.nodes[d].ents);
    SizedPut(t, d, k, Ent(i, name), u);
    assert Proper(t, d);
    DottedPut(d, t.nodes[d], k, Ent(i, name));
    forall x | 0 <= x < |u.nodes|
      ensures Proper(u, x)
    {
      assert Proper(t, x);
    }
  }

  lemma {:induction false} LinkedCounted(t: Tree, at: seq<(nat, nat)>, i: nat, d: nat, name: Name, u: Tree)
    requires Inv(t, at) && Room(t, d, name) && 0 < i < |t.nodes| && u == Linked(t, i, d, name)
    requires !t.nodes[i].kind.Dir?
    ensures Counted(u)
  {
    hide Names, Counts, Inv;
    assert Sized(t) && Counted(t) by { InvParts(t, at); }
    forall x | 0 < x < |u.nodes|
      ensures u.nodes[x].nlink == |Names(u, x)|
    {
      forall a: nat, b: nat
        ensures Counts(u, a, b, x) <==> Counts(t, a, b, x) || (x == i && (a, b) == (d, EmptySlot(t.nodes[d].ents)))
        ensures !Counts(t, d, EmptySlot(t.nodes[d].ents), x)
      {
        LinkedCounts(t, at, i, d, name, u, a, b, x);
      }
      NamesChange(t, u, x, if x == i then {(d, EmptySlot(t.nodes[d].ents))} else {}, {});
    }
  }

  lemma {:induction false} InvParts(t: Tree, at: seq<(nat, nat)>)
    requires Inv(t, at)
    ensures Sized(t) && AllProper(t) && Counted(t) && Placed(t, at)
  {
  }

  lemma {:induction false} LinkedPlaced(t: Tree, at: seq<(nat, nat)>, i: nat, d: nat, name: Name, u: Tree)
    requires Inv(t, at) && Room(t, d, name) && 0 < i < |t.nodes| && u == Linked(t, i, d, name)
    requires !t.nodes[i].kind.Dir?
    ensures Placed(u, at)
  {
    hide Names, Counted;
    assert Proper(t, d);
    forall a: nat, b: nat, x: nat | x != 0
      ensures Counts(u, a, b, x) <==> Counts(t, a, b, x) || (x == i && (a, b) == (d, EmptySlot(t.nodes[d].ents)))
    {
      LinkedCounts(t, at, i, d, name, u, a, b, x);
    }
    RoomSlot(t, at, d, name);
    hide Counts, Put, EmptySlot;
    forall x | 0 <= x < |u.nodes| && Live(u, x) && x != ROOT
      ensures PlacedAt(u, at, x)
    {
      assert Proper(t, x) && x != 0;
      assert Live(t, x) && PlacedAt(t, at, x);
    }
    forall a: nat, b: nat, x: nat | Counts(u, a, b, x) && 2 <= b && 0 < x < |u.nodes| && u.nodes[x].kind.Dir?
      ensures x != ROOT && at[x] == (a, b)
    {
      assert Counts(t, a, b, x);
    }
  }

  /** sys_link() keeps the tree. */
  lemma {:induction false} LinkKeeps(t: Tree, at: seq<(nat, nat)>, i: nat, d: nat, name: Name)
    requires Inv(t, at) && Room(t, d, name) && 0 < i < |t.nodes| && !t.nodes[i].kind.Dir? && !t.nodes[i].kind.Free?
    ensures Inv(Linked(t, i, d, name), at)
  {
    hide Counted, Placed, AllProper, Sized;
    InvParts(t, at);
    var u := Linked(t, i, d, name);
    LinkedProper(t, at, i, d, name, u);
    LinkedCounted(t, at, i, d, name, u);
    LinkedPlaced(t, at, i, d, name, u);
  }

  // ---- create()

  // The new inode is nobody's: no entry counts towards it.
  lemma {:induction false} FreeUnnamed(t: Tree, at: seq<(nat, nat)>, i: nat, d: nat, k: nat)
    requires Inv(t, at) && 0 < i < |t.nodes| && t.nodes[i].kind.Free?
    ensures !Counts(t, d, k, i) && Names(t, i) == {} && !Live(t, i)
  {
    assert Proper(t, i);
    NamesMeans(t, i, d, k);
  }

  lemma {:induction false} CreatedCounts(
      t: Tree, at: seq<(nat, nat)>, i: nat, d: nat, name: Name, kind: Kind, u: Tree, a: nat, b: nat, x: nat)
    requires Inv(t, at) && Room(t, d, name) && 0 < i < |t.nodes| && t.nodes[i].kind.Free? && !kind.Free?
    requires u == Created(t, i, d, name, kind) && x != 0
    ensures Counts(u, a, b, x) <==>
              || Counts(t, a, b, x)
              || (x == i && (a, b) == (d, EmptySlot(t.nodes[d].ents)))
              || (kind.Dir? && x == d && (a, b) == (i, 1))
    ensures !Counts(t, d, EmptySlot(t.nodes[d].ents), x) && !Counts(t, i, 1, x)
  {
    hide Names;
    FreeUnnamed(t, at, i, a, b);
    RoomSlot(t, at, d, name);
  }

  lemma {:induction false} CreatedNodes(t: Tree, i: nat, d: nat, name: Name, kind: Kind, u: Tree)
    requires i < |t.nodes| == |t.refs| && d < |t.nodes| && i != d && u == Created(t, i, d, name, kind)
    ensures |u.nodes| == |t.nodes| && u.refs == t.refs[i := 1]
    ensures forall x :: 0 <= x < |t.nodes| && x != i && x != d ==> u.nodes[x] == t.nodes[x]
    ensures u.nodes[i] == Node(kind, 1, if kind.Dir? then [Ent(i, Dot), Ent(d, DotDot)] else [])
    ensures u.nodes[d].kind == t.nodes[d].kind && u.nodes[d].nlink == t.nodes[d].nlink + if kind.Dir? then 1 else 0
    ensures u.nodes[d].ents == Put(t.nodes[d].ents, EmptySlot(t.nodes[d].ents), Ent(i, name))
  {
  }

  lemma {:induction false} CreatedSized(t: Tree, at: seq<(nat, nat)>, i: nat, d: nat, name: Name, kind: Kind, u: Tree)
    requires Sized(t) && d < |t.nodes| && i < |t.nodes| && i != d && u == Created(t, i, d, name, kind)
    ensures Sized(u)
  {
    CreatedNodes(t, i, d, name, kind, u);
    hide Put, EmptySlot, Created;
    var mid := t.(nodes := t.nodes[i := u.nodes[i]]);
    assert Sized(mid);
    hide Sized;
    SizedPut(mid, d, EmptySlot(t.nodes[d].ents), Ent(i, name), u);
  }

  lemma {:induction false} CreatedProper(t: Tree, at: seq<(nat, nat)>, i: nat, d: nat, name: Name, kind: Kind, u: Tree)
    requires Inv(t, at) && Room(t, d, name) && 0 < i < |t.nodes| && t.nodes[i].kind.Free? && !kind.Free?
    requires u == Created(t, i, d, name, kind)
    ensures Sized(u) && AllProper(u)
  {
    RoomSlot(t, at, d, name);
    var k := EmptySlot(t.nodes[d].ents);
    CreatedNodes(t, i, d, name, kind, u);
    CreatedSized(t, at, i, d, name, kind, u);
    hide Counted, Placed, Names, Put, EmptySlot, Created, Lookup, Sized;
    assert Proper(t, d);
    DottedPut(d, t.nodes[d], k, Ent(i, name));
    assert kind.Dir? ==> Dotted(i, u.nodes[i]);
    hide Dotted, Vacant;
    forall x | 0 <= x < |u.nodes|
      ensures Proper(u, x)
    {
      assert Proper(t, x);
      if x != i && x != d {
        assert u.nodes[x] == t.nodes[x] && u.refs[x] == t.refs[x];
      }
    }
  }

  lemma {:induction false} CreatedCounted(t: Tree, at: seq<(nat, nat)>, i: nat, d: nat, name: Name, kind: Kind, u: Tree)
    requires Inv(t, at) && Room(t, d, name) && 0 < i < |t.nodes| && t.nodes[i].kind.Free? && !kind.Free?
    requires u == Created(t, i, d, name, kind)
    ensures Counted(u)
  {
    var k := EmptySlot(t.nodes[d].ents);
    FreeUnnamed(t, at, i, d, k);
    hide Names, Counts, Inv;
    assert Sized(t) && Counted(t) by { InvParts(t, at); }
    forall x | 0 < x < |u.nodes|
      ensures u.nodes[x].nlink == |Names(u, x)|
    {
      forall a: nat, b: nat
        ensures Counts(u, a, b, x) <==>
                  Counts(t, a, b, x) || (x == i && (a, b) == (d, k)) || (kind.Dir? && x == d && (a, b) == (i, 1))
        ensures !Counts(t, d, k, x) && !Counts(t, i, 1, x)
      {
        CreatedCounts(t, at, i, d, name, kind, u, a, b, x);
      }
      NamesChange(t, u, x, if x == i then {(d, k)} else if kind.Dir? && x == d then {(i, 1)} else {}, {});
    }
  }

  lemma {:induction false} CreatedPlacedAt(
      t: Tree, at: seq<(nat, nat)>, i: nat, d: nat, name: Name, kind: Kind, u: Tree, at': seq<(nat, nat)>, x: nat)
    requires Inv(t, at) && Room(t, d, name) && 0 < i < |t.nodes| && t.nodes[i].kind.Free? && !kind.Free?
    requires u == Created(t, i, d, name, kind) && at' == at[i := (d, EmptySlot(t.nodes[d].ents))]
    requires x < |u.nodes| && Live(u, x) && x != ROOT
    ensures PlacedAt(u, at', x)
  {
    assert Proper(t, x) && Proper(t, i) && Proper(t, d);
    RoomSlot(t, at, d, name);
    CreatedNodes(t, i, d, name, kind, u);
    hide Put, EmptySlot, Names, Counted, Lookup, Created;
    if x == i {
      CreatedCounts(t, at, i, d, name, kind, u, d, at'[i].1, i);
    } else {
      assert Live(t, x) && PlacedAt(t, at, x);
      CreatedCounts(t, at, i, d, name, kind, u, at[x].0, at[x].1, x);
    }
  }

  lemma {:induction false} CreatedPlaced(
      t: Tree, at: seq<(nat, nat)>, i: nat, d: nat, name: Name, kind: Kind, u: Tree, at': seq<(nat, nat)>)
    requires Inv(t, at) && Room(t, d, name) && 0 < i < |t.nodes| && t.nodes[i].kind.Free? && !kind.Free?
    requires u == Created(t, i, d, name, kind) && at' == at[i := (d, EmptySlot(t.nodes[d].ents))]
    ensures Placed(u, at')
  {
    RoomSlot(t, at, d, name);
    CreatedNodes(t, i, d, name, kind, u);
    assert Proper(t, ROOT);
    hide Counts, PlacedAt, Put, EmptySlot, Names, Counted, Lookup, Created;
    forall x | 0 <= x < |u.nodes| && Live(u, x) && x != ROOT
      ensures PlacedAt(u, at', x)
    {
      CreatedPlacedAt(t, at, i, d, name, kind, u, at', x);
    }
    forall a: nat, b: nat, x: nat | Counts(u, a, b, x) && 2 <= b && 0 < x < |u.nodes| && u.nodes[x].kind.Dir?
      ensures x != ROOT && at'[x] == (a, b)
    {
      CreatedCounts(t, at, i, d, name, kind, u, a, b, x);
      FreeUnnamed(t, at, i, a, b);
    }
  }

  /** create() of a new file, device or directory keeps the tree. */
  lemma {:induction false} CreateKeeps(t: Tree, at: seq<(nat, nat)>, i: nat, d: nat, name: Name, kind: Kind)
    returns (at': seq<(nat, nat)>)
    requires Inv(t, at) && Room(t, d, name) && 0 < i < |t.nodes| && t.nodes[i].kind.Free? && !kind.Free?
    ensures Inv(Created(t, i, d, name, kind), at')
  {
    hide Counted, Placed, AllProper, Sized;
    InvParts(t, at);
    var u := Created(t, i, d, name, kind);
    at' := at[i := (d, EmptySlot(t.nodes[d].ents))];
    CreatedProper(t, at, i, d, name, kind, u);
    CreatedCounted(t, at, i, d, name, kind, u);
    CreatedPlaced(t, at, i, d, name, kind, u, at');
  }

  // ---- sys_unlink()

  // What sys_unlink() has checked before it clears entry k of d.
  ghost predicate Removable(t: Tree, d: nat, k: nat) {
    && Live(t, d) && 2 <= k < |t.nodes[d].ents|
    && var i := t.nodes[d].ents[k].inum;
       0 < i < |t.nodes| && (t.nodes[i].kind.Dir? ==> Vacant(t.nodes[i]))
  }

  // An empty directory is named by its parent and by no other entry.
  lemma {:induction false} VacantAlone(t: Tree, at: seq<(nat, nat)>, d: nat, k: nat, i: nat, a: nat, b: nat)
    requires Inv(t, at) && Removable(t, d, k) && i == t.nodes[d].ents[k].inum && t.nodes[i].kind.Dir?
    ensures i != ROOT && i != d && Live(t, i) && PlacedAt(t, at, i) && at[i] == (d, k)
    ensures Counts(t, a, b, i) ==> (a, b) == (d, k)
  {
    EntryLeads(t, at, d, k);
    hide Counted, Names;
    assert Proper(t, d) && Counts(t, d, k, i);
    assert a < |t.nodes| ==> Proper(t, a);
    assert Live(t, a) && a != ROOT ==> PlacedAt(t, at, a);
    assert PlacedAt(t, at, i);
  }

  lemma {:induction false} VacantNames(t: Tree, at: seq<(nat, nat)>, d: nat, k: nat, i: nat)
    requires Inv(t, at) && Removable(t, d, k) && i == t.nodes[d].ents[k].inum && t.nodes[i].kind.Dir?
    ensures t.nodes[i].nlink == 1
  {
    forall p: (nat, nat)
      ensures p in Names(t, i) <==> p == (d, k)
    {
      NamesMeans(t, i, p.0, p.1);
      VacantAlone(t, at, d, k, i, p.0, p.1);
      assert p == (p.0, p.1);
      assert Proper(t, d);
    }
    hide Names;
    assert Names(t, i) == {(d, k)};
  }

  // A parent has a link of its own besides the one from a child's "..".
  lemma {:induction false} ParentStays(t: Tree, at: seq<(nat, nat)>, d: nat, k: nat, i: nat)
    requires Inv(t, at) && Removable(t, d, k) && i == t.nodes[d].ents[k].inum && t.nodes[i].kind.Dir?
    ensures Counts(t, i, 1, d) && t.nodes[d].nlink >= 2
  {
    VacantAlone(t, at, d, k, i, 0, 0);
    assert Proper(t, i) && Proper(t, d);
    var other := if d == ROOT then (ROOT, 1) else at[d];
    assert d != ROOT ==> PlacedAt(t, at, d);
    assert Counts(t, other.0, other.1, d) && other != (i, 1);
    NamesMeans(t, d, other.0, other.1);
    NamesMeans(t, d, i, 1);
    hide Names, Counts;
    TwoMembers(Names(t, d), other, (i, 1));
  }

  lemma {:induction false} TwoMembers(s: set<(nat, nat)>, x: (nat, nat), y: (nat, nat))
    requires x in s && y in s && x != y
    ensures |s| >= 2
  {
    assert {x, y} <= s && s == {x, y} + (s - {x, y});
    assert |{x, y}| == 2;
  }

  lemma {:induction false} UnlinkedNodes(t: Tree, d: nat, k: nat, i: nat, u: Tree)
    requires Sized(t) && Removable(t, d, k) && i == t.nodes[d].ents[k].inum != d && u == Unlinked(t, d, k)
    ensures |u.nodes| == |t.nodes| && u.refs == t.refs
    ensures forall x :: 0 <= x < |t.nodes| && x != i && x != d ==> u.nodes[x] == t.nodes[x]
    ensures u.nodes[d] == Node(t.nodes[d].kind, t.nodes[d].nlink - (if t.nodes[i].kind.Dir? then 1 else 0),
                               t.nodes[d].ents[k := Ent(0, Text(""))])
    ensures u.nodes[i] == if t.nodes[i].nlink == 1 && t.refs[i] == 0 then Node(Free, 0, [])
                          else t.nodes[i].(nlink := t.nodes[i].nlink - 1)
  {
  }

  // The entry cleared does not name its own directory.
  lemma {:induction false} NotItself(t: Tree, at: seq<(nat, nat)>, d: nat, k: nat)
    requires Inv(t, at) && Removable(t, d, k)
    ensures t.nodes[d].ents[k].inum != d
  {
  }

  lemma {:induction false} UnlinkedCounts(
      t: Tree, at: seq<(nat, nat)>, d: nat, k: nat, i: nat, u: Tree, a: nat, b: nat, x: nat)
    requires Inv(t, at) && Removable(t, d, k) && i == t.nodes[d].ents[k].inum != d && u == Unlinked(t, d, k) && x != 0
    ensures Counts(u, a, b, x) <==>
              Counts(t, a, b, x) && (a, b) != (d, k) && !(t.nodes[i].kind.Dir? && x == d && (a, b) == (i, 1))
    ensures Counts(t, d, k, i) && (t.nodes[i].kind.Dir? ==> Counts(t, i, 1, d))
    ensures t.nodes[i].kind.Dir? && a == i && Counts(t, a, b, x) ==> x == d && b == 1
  {
    UnlinkedNodes(t, d, k, i, u);
    hide Unlinked;
    assert Proper(t, d) && Proper(t, i);
    if t.nodes[i].kind.Dir? {
      VacantAlone(t, at, d, k, i, a, b);
      VacantNames(t, at, d, k, i);
      ParentStays(t, at, d, k, i);
    }
    hide Counted, Placed, Names;
  }

  lemma {:induction false} UnlinkedSized(t: Tree, d: nat, k: nat, i: nat, u: Tree)
    requires Sized(t) && Removable(t, d, k) && i == t.nodes[d].ents[k].inum != d && u == Unlinked(t, d, k)
    ensures Sized(u)
  {
    UnlinkedNodes(t, d, k, i, u);
    hide Unlinked;
    forall x | 0 <= x < |u.nodes|
      ensures Bounded(u.nodes[x], |u.nodes|)
    {
      assert Bounded(t.nodes[x], |t.nodes|);
    }
  }

  lemma {:induction false} UnlinkedProper(t: Tree, at: seq<(nat, nat)>, d: nat, k: nat, i: nat, u: Tree)
    requires Inv(t, at) && Removable(t, d, k) && i == t.nodes[d].ents[k].inum != d && u == Unlinked(t, d, k)
    ensures AllProper(u)
  {
    UnlinkedNodes(t, d, k, i, u);
    EntryLeads(t, at, d, k);
    if t.nodes[i].kind.Dir? {
      ParentStays(t, at, d, k, i);
    }
    assert Proper(t, d) && Proper(t, i);
    DottedPut(d, t.nodes[d], k, Ent(0, Text("")));
    hide Unlinked, Counted, Placed, Names, Sized, Dotted;
    assert Proper(u, d) && Proper(u, i);
    forall x | 0 <= x < |u.nodes| && x != d && x != i
      ensures Proper(u, x)
    {
      assert Proper(t, x);
    }
  }

  lemma {:induction false} UnlinkedCounted(t: Tree, at: seq<(nat, nat)>, d: nat, k: nat, i: nat, u: Tree)
    requires Inv(t, at) && Removable(t, d, k) && i == t.nodes[d].ents[k].inum != d && u == Unlinked(t, d, k)
    ensures Counted(u)
  {
    UnlinkedNodes(t, d, k, i, u);
    hide Names, Counts, Inv, Unlinked;
    assert Sized(t) && Counted(t) by { InvParts(t, at); }
    var isDir := t.nodes[i].kind.Dir?;
    forall x | 0 < x < |u.nodes|
      ensures u.nodes[x].nlink == |Names(u, x)|
    {
      var del := if x == i then {(d, k)} else if isDir && x == d then {(i, 1)} else {};
      forall a: nat, b: nat
        ensures Counts(u, a, b, x) <==> Counts(t, a, b, x) && (a, b) !in del
        ensures (a, b) in del ==> Counts(t, a, b, x)
      {
        UnlinkedCounts(t, at, d, k, i, u, a, b, x);
        OneName(t, d, k, i, x);
      }
      NamesChange(t, u, x, {}, del);
    }
  }

  lemma {:induction false} OneName(t: Tree, d: nat, k: nat, i: nat, x: nat)
    requires Counts(t, d, k, i)
    ensures Counts(t, d, k, x) ==> x == i
  {
  }

  lemma {:induction false} UnlinkedPlaced(t: Tree, at: seq<(nat, nat)>, d: nat, k: nat, i: nat, u: Tree)
    requires Inv(t, at) && Removable(t, d, k) && i == t.nodes[d].ents[k].inum != d && u == Unlinked(t, d, k)
    ensures Placed(u, at)
  {
    UnlinkedNodes(t, d, k, i, u);
    EntryLeads(t, at, d, k);
    assert Proper(t, ROOT) && Proper(t, d);
    if t.nodes[i].kind.Dir? {
      ParentStays(t, at, d, k, i);
      VacantAlone(t, at, d, k, i, 0, 0);
      VacantNames(t, at, d, k, i);
    }
    hide Counts, Names, Counted, Unlinked, PlacedAt;
    forall x | 0 <= x < |u.nodes| && Live(u, x) && x != ROOT
      ensures PlacedAt(u, at, x)
    {
      UnlinkedPlacedAt(t, at, d, k, i, u, x);
    }
    forall a: nat, b: nat, x: nat | Counts(u, a, b, x) && 2 <= b && 0 < x < |u.nodes| && u.nodes[x].kind.Dir?
      ensures x != ROOT && at[x] == (a, b)
    {
      UnlinkedCounts(t, at, d, k, i, u, a, b, x);
    }
  }

  lemma {:induction false} UnlinkedPlacedAt(t: Tree, at: seq<(nat, nat)>, d: nat, k: nat, i: nat, u: Tree, x: nat)
    requires Inv(t, at) && Removable(t, d, k) && i == t.nodes[d].ents[k].inum != d && u == Unlinked(t, d, k)
    requires x < |u.nodes| && Live(u, x) && x != ROOT
    ensures PlacedAt(u, at, x)
  {
    UnlinkedNodes(t, d, k, i, u);
    assert Proper(t, x);
    if t.nodes[i].kind.Dir? {
      VacantNames(t, at, d, k, i);
    }
    hide Unlinked, Names;
    assert Live(t, x) && PlacedAt(t, at, x) && x != i;
    UnlinkedCounts(t, at, d, k, i, u, at[x].0, at[x].1, x);
  }

  /** sys_unlink() keeps the tree; the "nlink < 1" it tests for cannot be. */
  lemma {:induction false} UnlinkKeeps(t: Tree, at: seq<(nat, nat)>, d: nat, k: nat)
    requires Inv(t, at) && Removable(t, d, k)
    ensures t.nodes[d].ents[k].inum != d && t.nodes[t.nodes[d].ents[k].inum].nlink >= 1
    ensures Inv(Unlinked(t, d, k), at)
  {
    NotItself(t, at, d, k);
    EntryLeads(t, at, d, k);
    hide Counted, Placed, AllProper, Sized;
    InvParts(t, at);
    var i, u := t.nodes[d].ents[k].inum, Unlinked(t, d, k);
    UnlinkedSized(t, d, k, i, u);
    UnlinkedProper(t, at, d, k, i, u);
    UnlinkedCounted(t, at, d, k, i, u);
    UnlinkedPlaced(t, at, d, k, i, u);
  }

  // ---- open and close

  lemma {:induction false} OpenKeeps(t: Tree, at: seq<(nat, nat)>, i: nat)
    requires Inv(t, at) && i < |t.nodes| && !t.nodes[i].kind.Free?
    ensures Inv(Opened(t, i), at)
  {
    SameNodes(t, Opened(t, i), at);
    hide Counted, Placed, Sized, Names;
    forall x | 0 <= x < |t.nodes|
      ensures Proper(Opened(t, i), x)
    {
      assert Proper(t, x);
    }
  }

  // References play no part in names.
  lemma {:induction false} SameNodes(t: Tree, u: Tree, at: seq<(nat, nat)>)
    requires Inv(t, at) && u.nodes == t.nodes && |u.refs| == |t.refs|
    ensures Sized(u) && Counted(u) && Placed(u, at)
  {
    forall d: nat, k: nat, i: nat
      ensures Counts(u, d, k, i) == Counts(t, d, k, i)
    {
    }
    forall x | 0 < x < |t.nodes|
      ensures u.nodes[x].nlink == |Names(u, x)|
    {
      NamesChange(t, u, x, {}, {});
    }
    hide Counts, Names, Counted;
    forall x | 0 <= x < |u.nodes| && Live(u, x) && x != ROOT
      ensures PlacedAt(u, at, x)
    {
      assert Live(t, x) && PlacedAt(t, at, x);
    }
  }

  // Freeing an inode that no linked directory names and that is not itself linked.
  lemma {:induction false} ReapKeeps(t: Tree, at: seq<(nat, nat)>, i: nat, u: Tree)
    requires Sized(t) && Counted(t) && Placed(t, at) && 0 < i < |t.nodes| && t.nodes[i].nlink == 0
    requires u == t.(nodes := t.nodes[i := Node(Free, 0, [])])
    ensures Sized(u) && Counted(u) && Placed(u, at)
  {
    forall d: nat, k: nat, x: nat
      ensures Counts(u, d, k, x) == Counts(t, d, k, x)
    {
      ReapCounts(t, i, u, d, k, x);
    }
    hide Counts, Names;
    forall x | 0 < x < |t.nodes|
      ensures u.nodes[x].nlink == |Names(u, x)|
    {
      NamesChange(t, u, x, {}, {});
    }
    hide Counted;
    forall x | 0 <= x < |u.nodes| && Live(u, x) && x != ROOT
      ensures PlacedAt(u, at, x)
    {
      assert Live(t, x) && PlacedAt(t, at, x);
    }
  }

  lemma {:induction false} ReapCounts(t: Tree, i: nat, u: Tree, d: nat, k: nat, x: nat)
    requires i < |t.nodes| && t.nodes[i].nlink == 0 && u == t.(nodes := t.nodes[i := Node(Free, 0, [])])
    ensures Counts(u, d, k, x) == Counts(t, d, k, x)
  {
  }

  /** Dropping a reference keeps the tree, whether or not it is the last one. */
  lemma {:induction false} CloseKeeps(t: Tree, at: seq<(nat, nat)>, i: nat)
    requires Inv(t, at) && 0 < i < |t.nodes| && t.refs[i] > 0
    ensures Inv(Closed(t, i), at)
  {
    var mid := t.(refs := t.refs[i := t.refs[i] - 1]);
    SameNodes(t, mid, at);
    if mid.nodes[i].nlink == 0 && mid.refs[i] == 0 {
      ReapKeeps(mid, at, i, Closed(t, i));
    }
    hide Counted, Placed, Sized, Names, Dotted;
    forall x | 0 <= x < |t.nodes|
      ensures Proper(Closed(t, i), x)
    {
      assert Proper(t, x);
    }
  }

  // ---- the tree mkfs leaves, and runs of operations

  // Files 2 .. n + 1 in the root directory, then unused entries and free inodes.
  ghost predicate Fresh(t: Tree, n: nat) {
    && |t.refs| == |t.nodes| && n + 2 <= |t.nodes|
    && (forall i :: 0 <= i < |t.nodes| ==> t.refs[i] == 0)
    && t.nodes[ROOT].kind == Dir && t.nodes[ROOT].nlink == 1
    && n + 2 <= |t.nodes[ROOT].ents| && t.nodes[ROOT].ents[0] == Ent(ROOT, Dot)
    && t.nodes[ROOT].ents[1] == Ent(ROOT, DotDot)
    && (forall k :: 2 <= k < |t.nodes[ROOT].ents| ==>
          t.nodes[ROOT].ents[k].name.Text? && t.nodes[ROOT].ents[k].inum == if k < n + 2 then k else 0)
    && (forall i :: 2 <= i < n + 2 ==> t.nodes[i] == Node(File, 1, []))
    && (forall i :: n + 2 <= i < |t.nodes| ==> t.nodes[i] == Node(Free, 0, []))
    && t.nodes[0] == Node(Free, 0, [])
  }

  lemma {:induction false} FreshNames(t: Tree, n: nat, i: nat)
    requires Fresh(t, n) && 0 < i < |t.nodes|
    ensures t.nodes[i].nlink == |Names(t, i)|
  {
    var want := if i == ROOT then {(ROOT, 1)} else if i < n + 2 then {(ROOT, i)} else {};
    forall p: (nat, nat)
      ensures p in Names(t, i) <==> p in want
    {
      NamesMeans(t, i, p.0, p.1);
      assert p == (p.0, p.1);
      assert Live(t, p.0) <==> p.0 == ROOT;
    }
    hide Names;
    assert Names(t, i) == want;
  }

  /** The tree mkfs makes is one the operations may start from. */
  lemma {:induction false} FreshInv(t: Tree, n: nat)
    requires Fresh(t, n)
    ensures Inv(t, seq(|t.nodes|, _ => (0, 0)))
  {
    hide Names;
    forall i | 0 < i < |t.nodes|
      ensures t.nodes[i].nlink == |Names(t, i)|
    {
      FreshNames(t, n, i);
    }
    assert forall d: nat :: Live(t, d) <==> d == ROOT;
    assert Bounded(t.nodes[ROOT], |t.nodes|) && Dotted(ROOT, t.nodes[ROOT]);
  }

  datatype Op =
    | DoLink(i: nat, d: nat, name: Name)
    | DoCreate(i: nat, d: nat, name: Name, kind: Kind)
    | DoUnlink(d: nat, k: nat)
    | DoOpen(i: nat)
    | DoClose(i: nat)

  // An operation that takes effect; new entries go into linked directories only.
  ghost predicate Allowed(t: Tree, op: Op) {
    && Sized(t)
    && match op
       case DoLink(i, d, name) => Room(t, d, name) && 0 < i < |t.nodes| && !t.nodes[i].kind.Dir?
           && !t.nodes[i].kind.Free?
       case DoCreate(i, d, name, kind) => Room(t, d, name) && 0 < i < |t.nodes| && t.nodes[i].kind.Free? && !kind.Free?
       case DoUnlink(d, k) => Removable(t, d, k) && t.nodes[d].ents[k].inum != d
       case DoOpen(i) => i < |t.nodes| && !t.nodes[i].kind.Free?
       case DoClose(i) => 0 < i < |t.nodes| && t.refs[i] > 0
  }

  ghost function After(t: Tree, op: Op): (u: Tree)
    requires Allowed(t, op)
  {
    match op
    case DoLink(i, d, name) => Linked(t, i, d, name)
    case DoCreate(i, d, name, kind) => Created(t, i, d, name, kind)
    case DoUnlink(d, k) => Unlinked(t, d, k)
    case DoOpen(i) => Opened(t, i)
    case DoClose(i) => Closed(t, i)
  }

  ghost predicate IsRun(ts: seq<Tree>, ops: seq<Op>) {
    && |ts| == |ops| + 1
    && forall j :: 0 <= j < |ops| ==> Allowed(ts[j], ops[j]) && ts[j + 1] == After(ts[j], ops[j])
  }

  lemma {:induction false} StepKeeps(t: Tree, at: seq<(nat, nat)>, op: Op) returns (at': seq<(nat, nat)>)
    requires Inv(t, at) && Allowed(t, op)
    ensures Inv(After(t, op), at')
  {
    hide Inv, Linked, Created, Unlinked, Opened, Closed;
    at' := at;
    match op
    case DoLink(i, d, name) => LinkKeeps(t, at, i, d, name);
    case DoCreate(i, d, name, kind) => at' := CreateKeeps(t, at, i, d, name, kind);
    case DoUnlink(d, k) => UnlinkKeeps(t, at, d, k);
    case DoOpen(i) => OpenKeeps(t, at, i);
    case DoClose(i) => CloseKeeps(t, at, i);
  }

  lemma {:induction false} RunKeeps(ts: seq<Tree>, ops: seq<Op>, n: nat, j: nat) returns (at: seq<(nat, nat)>)
    requires IsRun(ts, ops) && Fresh(ts[0], n) && j < |ts|
    ensures Inv(ts[j], at)
  {
    hide Inv, After, Allowed;
    if j == 0 {
      FreshInv(ts[0], n);
      at := seq(|ts[0].nodes|, _ => (0, 0));
    } else {
      var at0 := RunKeeps(ts, ops, n, j - 1);
      at := StepKeeps(ts[j - 1], at0, ops[j - 1]);
    }
  }

  /** In every run from the tree mkfs makes, at every point: link counts are exact, and a walk from the root meets
      no free inode. */
  lemma {:induction false} LinkCountsExact(ts: seq<Tree>, ops: seq<Op>, n: nat, j: nat, path: seq<Name>)
    requires IsRun(ts, ops) && Fresh(ts[0], n) && j < |ts|
    ensures forall i :: 0 < i < |ts[j].nodes| ==> ts[j].nodes[i].nlink == |Names(ts[j], i)|
    ensures Walk(ts[j], ROOT, path) != Panics
    ensures Walk(ts[j], ROOT, path).Found? ==>
              var i := Walk(ts[j], ROOT, path).inum; i < |ts[j].nodes| && !ts[j].nodes[i].kind.Free?
  {
    var at := RunKeeps(ts, ops, n, j);
    hide IsRun, Walk, Names, AllProper, Sized, Fresh;
    RootWalk(ts[j], at, ROOT, path);
  }
}
