/** The inode table (kernel/fs.c) against the calls of a run: which inode a reference is for and what the disk says of
    every inode, told from the steps alone. */
module InodeHistory {
  import opened Options
  import opened InodeTable

  // The inode ialloc() has marked for caller c and not yet passed to iget()...
  ghost function Marked(ls: seq<Label>, c: nat, n: nat): (r: Option<nat>)
    requires n <= |ls|
  {
    if n == 0 then None
    else
      match ls[n - 1]
      case Mark(d, key) => if d == c then Some(key) else Marked(ls, c, n - 1)
      case Claim(d, _, _) => if d == c then None else Marked(ls, c, n - 1)
      case _ => Marked(ls, c, n - 1)
  }

  // ...and the inode reference h is for, from iget() or idup() to the end of iput().
  ghost function Named(ls: seq<Label>, h: nat, n: nat): (r: Option<nat>)
    requires n <= |ls|
    decreases n
  {
    if n == 0 then None
    else
      match ls[n - 1]
      case Iget(g, key, _) => if g == h then Some(key) else Named(ls, h, n - 1)
      case Stray(g, key, _) => if g == h then Some(key) else Named(ls, h, n - 1)
      case Claim(c, g, _) => if g == h then Marked(ls, c, n - 1) else Named(ls, h, n - 1)
      case Idup(g, g0) => if g == h then Named(ls, g0, n - 1) else Named(ls, h, n - 1)
      case PutDrop(g) => if g == h then None else Named(ls, h, n - 1)
      case PutEnd(g) => if g == h then None else Named(ls, h, n - 1)
      case _ => Named(ls, h, n - 1)
  }

  // What ialloc(), iupdate() and iput() have made of inode key on disk.
  ghost function Written(was: Dinode, ls: seq<Label>, key: nat, n: nat): (r: Dinode)
    requires n <= |ls|
  {
    if n == 0 then was
    else
      var d := Written(was, ls, key, n - 1);
      match ls[n - 1]
      case Mark(_, k) => if k == key then Dinode(true, 0) else d
      case SetNlink(h, m) => if Named(ls, h, n - 1) == Some(key) then d.(nlink := m) else d
      case Free(h) => if Named(ls, h, n - 1) == Some(key) then Dinode(false, 0) else d
      case _ => d
  }

  function KeyOf(s: State, h: nat): (r: Option<nat>) {
    if h in s.handles && s.handles[h].b < |s.tab| then Some(s.tab[s.handles[h].b].key) else None
  }

  function ClaimOf(s: State, c: nat): (r: Option<nat>) {
    if c in s.claims then Some(s.claims[c]) else None
  }

  // ---- One step ----

  // A new reference h to inode key changes what no other reference is for.
  lemma {:induction false} JoinNames(s: State, h: nat, key: nat, b: nat, t: State)
    requires Core(s) && h !in s.handles && Slot(s, key, b) && t.tab == Joined(s, h, key, b).tab
    requires t.handles == Joined(s, h, key, b).handles
    ensures KeyOf(t, h) == Some(key) && forall g: nat :: g != h ==> KeyOf(t, g) == KeyOf(s, g)
  {
    hide Core, InTable;
    forall g: nat | g != h
      ensures KeyOf(t, g) == KeyOf(s, g)
    {
      if s.tab[b].ref <= 0 {
        UnusedEntry(s, b, g);
      }
    }
  }

  lemma {:induction false} HandleUsed(s: State, h: nat)
    requires Core(s) && h in s.handles
    ensures s.handles[h].b < |s.tab| && s.tab[s.handles[h].b].ref > 0 && s.tab[s.handles[h].b].key < |s.disk|
  {
    UsedEntry(s, h);
    assert CoreHandle(s, h);
  }

  lemma {:induction false} IdupNames(s: State, h: nat, h0: nat, t: State)
    requires Core(s) && Follows(s, Idup(h, h0), t)
    ensures KeyOf(t, h) == KeyOf(s, h0) && forall g: nat :: g != h ==> KeyOf(t, g) == KeyOf(s, g)
    ensures t.disk == s.disk && t.claims == s.claims
  {
    hide Core;
    HandleUsed(s, h0);
  }

  // A step that only moves reference h along, or ends it.
  lemma {:induction false} MoveNames(s: State, l: Label, t: State)
    requires Core(s) && Follows(s, l, t)
    requires !l.Iget? && !l.Stray? && !l.Mark? && !l.Claim? && !l.Idup?
    ensures forall g: nat :: KeyOf(t, g) == if g == l.h && (l.PutDrop? || l.PutEnd?) then None else KeyOf(s, g)
    ensures t.claims == s.claims && KeyOf(s, l.h).Some? && KeyOf(s, l.h).value < |s.disk|
  {
    hide Core;
    HandleUsed(s, l.h);
  }

  lemma {:induction false} MoveDisk(s: State, l: Label, t: State)
    requires Core(s) && Follows(s, l, t)
    requires !l.Iget? && !l.Stray? && !l.Mark? && !l.Claim? && !l.Idup?
    requires KeyOf(s, l.h).Some? && KeyOf(s, l.h).value < |s.disk|
    ensures var key := KeyOf(s, l.h).value;
            t.disk == match l
                      case SetNlink(_, m) => s.disk[key := s.disk[key].(nlink := m)]
                      case Free(_) => s.disk[key := Dinode(false, 0)]
                      case _ => s.disk
  {
    hide Core;
  }

  // ---- Every run ----

  ghost predicate Agree(s: State, ls: seq<Label>, n: nat, disk0: seq<Dinode>)
    requires n <= |ls|
  {
    && (forall h: nat :: KeyOf(s, h) == Named(ls, h, n))
    && (forall c: nat :: ClaimOf(s, c) == Marked(ls, c, n))
    && |s.disk| == |disk0| && (forall key :: 0 <= key < |disk0| ==> s.disk[key] == Written(disk0[key], ls, key, n))
  }

  lemma {:induction false} StepAgrees(s: State, ls: seq<Label>, n: nat, t: State, disk0: seq<Dinode>)
    requires 0 < n <= |ls| && Agree(s, ls, n - 1, disk0) && Core(s) && Follows(s, ls[n - 1], t)
    ensures Agree(t, ls, n, disk0)
  {
    hide Core, KeyOf, Agree;
    NamesAgree(s, ls, n, t, disk0);
    ClaimsAgree(s, ls, n, t, disk0);
    DiskAgrees(s, ls, n, t, disk0);
    AllAgree(t, ls, n, disk0);
  }

  lemma {:induction false} AllAgree(s: State, ls: seq<Label>, n: nat, disk0: seq<Dinode>)
    requires n <= |ls| && (forall h: nat :: KeyOf(s, h) == Named(ls, h, n))
    requires forall c: nat :: ClaimOf(s, c) == Marked(ls, c, n)
    requires |s.disk| == |disk0|
    requires forall key :: 0 <= key < |disk0| ==> s.disk[key] == Written(disk0[key], ls, key, n)
    ensures Agree(s, ls, n, disk0)
  {
  }

  lemma {:induction false} NamesAgree(s: State, ls: seq<Label>, n: nat, t: State, disk0: seq<Dinode>)
    requires 0 < n <= |ls| && Agree(s, ls, n - 1, disk0) && Core(s) && Follows(s, ls[n - 1], t)
    ensures forall h: nat :: KeyOf(t, h) == Named(ls, h, n)
  {
    hide Core, KeyOf;
    match ls[n - 1]
    case Iget(h, key, b) => JoinNames(s, h, key, b, t);
    case Stray(h, key, b) => JoinNames(s, h, key, b, t);
    case Claim(c, h, b) =>
      JoinNames(s, h, s.claims[c], b, t);
      assert ClaimOf(s, c) == Marked(ls, c, n - 1);
    case Idup(h, h0) => IdupNames(s, h, h0, t);
    case Mark(c, key) => MarkNames(s, c, key, t);
    case _ => MoveNames(s, ls[n - 1], t);
  }

  lemma {:induction false} ClaimsAgree(s: State, ls: seq<Label>, n: nat, t: State, disk0: seq<Dinode>)
    requires 0 < n <= |ls| && Agree(s, ls, n - 1, disk0) && Follows(s, ls[n - 1], t)
    ensures forall c: nat :: ClaimOf(t, c) == Marked(ls, c, n)
  {
    hide Named, Written;
  }

  lemma {:induction false} DiskAgrees(s: State, ls: seq<Label>, n: nat, t: State, disk0: seq<Dinode>)
    requires 0 < n <= |ls| && Agree(s, ls, n - 1, disk0) && Core(s) && Follows(s, ls[n - 1], t)
    ensures |t.disk| == |disk0| && forall key :: 0 <= key < |disk0| ==> t.disk[key] == Written(disk0[key], ls, key, n)
  {
    hide Core, KeyOf, Named, Marked;
    match ls[n - 1]
    case Idup(h, h0) => IdupNames(s, h, h0, t);
    case Mark(c, key) => MarkNames(s, c, key, t);
    case Iget(_, _, _) =>
    case Stray(_, _, _) =>
    case Claim(_, _, _) =>
    case _ =>
      MoveNames(s, ls[n - 1], t);
      MoveDisk(s, ls[n - 1], t);
    forall key | 0 <= key < |disk0|
      ensures t.disk[key] == Written(disk0[key], ls, key, n)
    {
      assert s.disk[key] == Written(disk0[key], ls, key, n - 1);
    }
  }

  lemma {:induction false} MarkNames(s: State, c: nat, key: nat, t: State)
    requires Follows(s, Mark(c, key), t)
    ensures forall h: nat :: KeyOf(t, h) == KeyOf(s, h)
    ensures key < |s.disk| && t.disk == s.disk[key := Dinode(true, 0)]
  {
  }

  lemma {:induction false} RunAgrees(ss: seq<State>, ls: seq<Label>, n: nat)
    requires IsRun(ss, ls) && n < |ss|
    ensures Agree(ss[n], ls, n, ss[0].disk)
  {
    hide Core, Follows;
    if n > 0 {
      RunAgrees(ss, ls, n - 1);
      RunKeepsCore(ss, ls, n - 1);
      assert Follows(ss[n - 1], ls[n - 1], ss[n]);
      StepAgrees(ss[n - 1], ls, n, ss[n], ss[0].disk);
    }
  }

  /** In every run, stray lookups included, at every point: a reference is in the table exactly from iget() or idup() to
      the end of its iput(), in the entry of the inode it was asked for; and every inode on disk is as the last
      ialloc(), iupdate() or freeing iput() left it. */
  lemma {:induction false} TableIsSteps(ss: seq<State>, ls: seq<Label>, n: nat)
    requires IsRun(ss, ls) && n < |ss|
    ensures forall h: nat :: h in ss[n].handles <==> Named(ls, h, n).Some?
    ensures forall h: nat :: h in ss[n].handles ==>
              && ss[n].handles[h].b < |ss[n].tab| && ss[n].tab[ss[n].handles[h].b].ref > 0
              && Named(ls, h, n) == Some(ss[n].tab[ss[n].handles[h].b].key)
    ensures |ss[n].disk| == |ss[0].disk|
    ensures forall key :: 0 <= key < |ss[0].disk| ==> ss[n].disk[key] == Written(ss[0].disk[key], ls, key, n)
  {
    hide Core, Follows;
    RunAgrees(ss, ls, n);
    RunKeepsCore(ss, ls, n);
    forall h: nat
      ensures h in ss[n].handles <==> Named(ls, h, n).Some?
      ensures h in ss[n].handles ==>
                && ss[n].handles[h].b < |ss[n].tab| && ss[n].tab[ss[n].handles[h].b].ref > 0
                && Named(ls, h, n) == Some(ss[n].tab[ss[n].handles[h].b].key)
    {
      if h in ss[n].handles {
        HandleUsed(ss[n], h);
      }
    }
  }
}
