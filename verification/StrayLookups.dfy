/** dirlookup() of ".." in a removed directory hands iget() a number that may by now name any inode: exactly when that
    does no harm, and runs in which it does. */
module StrayLookups {
  import opened Options
  import opened InodeTable

  // The steps ls can be taken one after another from s.
  ghost predicate CanRun(s: State, ls: seq<Label>)
    decreases |ls|
  {
    ls == [] || (Enabled(s, ls[0]) && CanRun(Next(s, ls[0]), ls[1..]))
  }

  ghost function After(s: State, ls: seq<Label>): (t: State)
    requires CanRun(s, ls)
    decreases |ls|
  {
    if ls == [] then s else After(Next(s, ls[0]), ls[1..])
  }

  ghost predicate Calm(ls: seq<Label>) {
    forall i :: 0 <= i < |ls| ==> !ls[i].Stray?
  }

  // Taking these steps and no more stray lookups, some ilock() comes upon a free inode.
  ghost predicate Harms(s: State, ls: seq<Label>, h: nat) {
    CanRun(s, ls) && Calm(ls) && NoType(After(s, ls), h)
  }

  lemma {:induction false} Prepend(s: State, l: Label, ls: seq<Label>, h: nat)
    requires Enabled(s, l) && !l.Stray? && Harms(Next(s, l), ls, h)
    ensures Harms(s, [l] + ls, h)
  {
    hide Enabled, Next, NoType;
    assert ([l] + ls)[1..] == ls;
  }

  lemma {:induction false} CalmRun(s: State, ls: seq<Label>)
    requires Inv(s) && CanRun(s, ls) && Calm(ls)
    ensures Inv(After(s, ls))
    decreases |ls|
  {
    hide Inv, Enabled, Next;
    if ls != [] {
      StepKeepsInv(s, ls[0]);
      CalmRun(Next(s, ls[0]), ls[1..]);
    }
  }

  // h refers to entry b, which is for inode key.
  ghost predicate Refers(s: State, h: nat, key: nat, b: nat) {
    && h in s.handles && s.handles[h] == Handle(b, Ref)
    && b < |s.tab| && s.tab[b].key == key < |s.disk|
  }

  // iput() in x goes on to its end and leaves h with a free inode.
  lemma {:induction false} IputHarms(s: State, h: nat, key: nat, b: nat, x: nat) returns (ls: seq<Label>)
    requires Refers(s, h, key, b) && x in s.handles && s.handles[x].b == b
    requires var g := s.handles[x].stage; g.Doomed? || g.Cut? || (g.Gone? && !s.disk[key].used)
    ensures Harms(s, ls, h)
    decreases match s.handles[x].stage case Doomed => 2 case Cut => 1 case _ => 0
  {
    var l := match s.handles[x].stage case Doomed => Itrunc(x) case Cut => Free(x) case _ => Forget(x);
    var t := Next(s, l);
    if l.Forget? {
      assert Harms(t, [], h);
      ls := [];
    } else {
      ls := IputHarms(t, h, key, b, x);
    }
    Prepend(s, l, ls, h);
    ls := [l] + ls;
  }

  // h is alone in referring to an inode that ialloc() in c has just marked.
  ghost predicate AloneOnClaimed(s: State, h: nat, key: nat, b: nat, c: nat) {
    && Refers(s, h, key, b) && s.tab[b].ref == 1 && s.tab[b].lock.None? && (s.tab[b].valid ==> s.tab[b].nlink == 0)
    && s.disk[key] == Dinode(true, 0) && c in s.claims && s.claims[c] == key
    && (forall x :: 0 <= x < |s.tab| && x != b ==> !(s.tab[x].ref > 0 && s.tab[x].key == key))
  }

  // Its iput() has freed the inode, and ialloc() goes on.
  lemma {:induction false} ClaimHarms(s: State, h: nat, key: nat, b: nat, c: nat) returns (ls: seq<Label>)
    requires h in s.handles && s.handles[h] == Handle(b, Gone) && b < |s.tab| && s.tab[b].key == key < |s.disk|
    requires s.tab[b].ref == 1 && !s.disk[key].used && c in s.claims && s.claims[c] == key
    requires forall x :: 0 <= x < |s.tab| && x != b ==> !(s.tab[x].ref > 0 && s.tab[x].key == key)
    ensures Harms(s, ls, h)
  {
    var s1 := Next(s, Forget(h));
    var s2 := Next(s1, PutEnd(h));
    assert !InTable(s2, key) && Slot(s2, key, b);
    var s3 := Next(s2, Claim(c, h, b));
    assert NoType(s3, h);
    assert Harms(s3, [], h);
    Prepend(s2, Claim(c, h, b), [], h);
    Prepend(s1, PutEnd(h), [Claim(c, h, b)] + [], h);
    ls := [Forget(h)] + ([PutEnd(h)] + ([Claim(c, h, b)] + []));
    Prepend(s, Forget(h), [PutEnd(h)] + ([Claim(c, h, b)] + []), h);
  }

  // Its iput() is about to.
  lemma {:induction false} DoomedHarms(s: State, h: nat, key: nat, b: nat, c: nat) returns (ls: seq<Label>)
    requires h in s.handles && s.handles[h] == Handle(b, Doomed) && b < |s.tab| && s.tab[b].key == key < |s.disk|
    requires s.tab[b].ref == 1 && c in s.claims && s.claims[c] == key
    requires forall x :: 0 <= x < |s.tab| && x != b ==> !(s.tab[x].ref > 0 && s.tab[x].key == key)
    ensures Harms(s, ls, h)
  {
    hide Harms;
    var s1 := Next(s, Itrunc(h));
    var s2 := Next(s1, Free(h));
    ls := ClaimHarms(s2, h, key, b, c);
    Prepend(s1, Free(h), ls, h);
    ls := [Free(h)] + ls;
    Prepend(s, Itrunc(h), ls, h);
    ls := [Itrunc(h)] + ls;
  }

  lemma {:induction false} AloneHarms(s: State, h: nat, key: nat, b: nat, c: nat) returns (ls: seq<Label>)
    requires AloneOnClaimed(s, h, key, b, c)
    ensures Harms(s, ls, h)
  {
    hide Harms;
    var s1 := Next(s, Ilock(h));
    var s2 := Next(s1, Iunlock(h));
    var s3 := Next(s2, PutBegin(h));
    ls := DoomedHarms(s3, h, key, b, c);
    Prepend(s2, PutBegin(h), ls, h);
    ls := [PutBegin(h)] + ls;
    Prepend(s1, Iunlock(h), ls, h);
    ls := [Iunlock(h)] + ls;
    Prepend(s, Ilock(h), ls, h);
    ls := [Ilock(h)] + ls;
  }

  // Of an inode that ialloc() has just marked, an earlier iput() may still have the last step to do, but only one.
  lemma {:induction false} OnlyOneLeft(s: State, key: nat, b: nat, c: nat) returns (y: nat)
    requires Inv(s) && b < |s.tab| && s.tab[b].ref > 0 && s.tab[b].key == key && c in s.claims && s.claims[c] == key
    requires forall x :: x in s.handles && s.handles[x].b == b ==>
               !s.handles[x].stage.Doomed? && !s.handles[x].stage.Cut?
    ensures y in s.handles && s.handles[y].b == b && (s.handles[y].stage.Gone? || s.handles[y].stage.Last?)
    ensures s.tab[b].ref == 1 && s.tab[b].lock == (if s.handles[y].stage.Gone? then Some(y) else None)
    ensures s.handles[y].stage.Last? && s.tab[b].valid ==> s.tab[b].nlink == 0
  {
    assert ClaimOk(s, c) && CoreSlot(s, b) && SlotOk(s, b);
    assert Users(s, b) != {};
    y :| y in Users(s, b);
    forall x | x in Users(s, b)
      ensures x == y
    {
      assert Leaving(s.handles[x].stage) && Leaving(s.handles[y].stage);
    }
    assert Users(s, b) == {y} && CoreHandle(s, y);
    assert s.tab[b].lock.Some? ==> s.tab[b].lock.value in Users(s, b);
  }

  lemma {:induction false} ClaimedHarms(s: State, h: nat, key: nat, b: nat, c: nat, t: State) returns (ls: seq<Label>)
    requires Inv(s) && Enabled(s, Stray(h, key, b)) && t == Next(s, Stray(h, key, b)) && c in s.claims
    requires s.claims[c] == key
    requires forall x :: x in s.handles && s.handles[x].b == b ==>
               !s.handles[x].stage.Doomed? && !s.handles[x].stage.Cut?
    ensures Harms(t, ls, h)
  {
    hide Harms, Users, OneLeaving, HandleOk, SlotOk;
    assert ClaimOk(s, c) && CoreSlot(s, b);
    if s.tab[b].ref <= 0 {
      UnusedEntry(s, b, h);
      ls := AloneHarms(t, h, key, b, c);
    } else {
      var y := OnlyOneLeft(s, key, b, c);
      ls := LastHarms(t, h, key, b, c, y);
    }
  }

  lemma {:induction false} LastHarms(t: State, h: nat, key: nat, b: nat, c: nat, y: nat) returns (ls: seq<Label>)
    requires Refers(t, h, key, b) && t.tab[b].ref == 2 && t.disk[key] == Dinode(true, 0) && c in t.claims
    requires t.claims[c] == key
    requires forall x :: 0 <= x < |t.tab| && x != b ==> !(t.tab[x].ref > 0 && t.tab[x].key == key)
    requires y in t.handles && y != h && t.handles[y].b == b && (t.handles[y].stage.Gone? || t.handles[y].stage.Last?)
    requires t.handles[y].stage.Last? ==> t.tab[b].lock.None? && (t.tab[b].valid ==> t.tab[b].nlink == 0)
    ensures Harms(t, ls, h)
    decreases t.handles[y].stage.Gone?
  {
    hide Harms;
    if t.handles[y].stage.Gone? {
      var u := Next(t, Forget(y));
      ls := LastHarms(u, h, key, b, c, y);
      Prepend(t, Forget(y), ls, h);
      ls := [Forget(y)] + ls;
    } else {
      var u := Next(t, PutEnd(y));
      ls := AloneHarms(u, h, key, b, c);
      Prepend(t, PutEnd(y), ls, h);
      ls := [PutEnd(y)] + ls;
    }
  }

  lemma {:induction false} FreeHarms(s: State, h: nat, key: nat, b: nat, t: State) returns (ls: seq<Label>)
    requires Inv(s) && Enabled(s, Stray(h, key, b)) && t == Next(s, Stray(h, key, b)) && !s.disk[key].used
    ensures Harms(t, ls, h)
  {
    hide Users, OneLeaving, SlotOk, ClaimOk;
    assert CoreSlot(s, b);
    if s.tab[b].ref <= 0 {
      UnusedEntry(s, b, h);
    }
    if t.tab[b].lock.None? {
      ls := [];
    } else {
      var x := s.tab[b].lock.value;
      assert CoreHandle(s, x) && HandleOk(s, x);
      ls := IputHarms(t, h, key, b, x);
    }
  }

  lemma {:induction false} UnsoundHarms(s: State, h: nat, key: nat, b: nat, t: State) returns (ls: seq<Label>)
    requires Inv(s) && Enabled(s, Stray(h, key, b)) && t == Next(s, Stray(h, key, b)) && !Sound(s, key, b)
    ensures Harms(t, ls, h)
  {
    hide Harms, Inv;
    if !s.disk[key].used {
      ls := FreeHarms(s, h, key, b, t);
    } else if x :| x in s.handles && s.handles[x].b == b && (s.handles[x].stage.Doomed? || s.handles[x].stage.Cut?) {
      InvCore(s);
      UsedEntry(s, x);
      ls := IputHarms(t, h, key, b, x);
    } else {
      var c :| c in s.claims && s.claims[c] == key;
      ls := ClaimedHarms(s, h, key, b, c, t);
    }
  }

  /** The exact condition. After a stray lookup, whatever happens next short of another one, no ilock() comes upon a
      free inode, if and only if the inode found is allocated, nobody is about to free it, and no ialloc() has just
      marked it. */
  lemma {:induction false} SoundExact(s: State, h: nat, key: nat, b: nat)
    requires Inv(s) && Enabled(s, Stray(h, key, b))
    ensures (forall ls, x :: !Harms(Next(s, Stray(h, key, b)), ls, x)) <==> Sound(s, key, b)
  {
    hide Inv, Enabled, Next, Sound;
    var t := Next(s, Stray(h, key, b));
    if Sound(s, key, b) {
      StepKeepsInv(s, Stray(h, key, b));
      forall ls, x
        ensures !Harms(t, ls, x)
      {
        if CanRun(t, ls) && Calm(ls) {
          CalmRun(t, ls);
          InvHasType(After(t, ls), x);
        }
      }
    } else {
      var ls := UnsoundHarms(s, h, key, b, t);
    }
  }

  // ---- runs in which it does harm

  const FREE: Dinode := Dinode(false, 0)

  function One(ref: int, valid: bool, lock: Option<nat>, nlink: nat): Entry {
    Entry(1, ref, valid, lock, nlink)
  }

  function Two(g: Stage): map<nat, Handle> {
    map[0 := Handle(0, g), 1 := Handle(0, Ref)]
  }

  // A table of one entry. Inode 1 is made, linked and unlinked; while its last reference is being given up, a stray
  // lookup finds it.
  function At(k: nat): (s: State) {
    match k
    case 0 => State([Entry(0, 0, false, None, 0)], [FREE, FREE], map[], map[])
    case 1 => State([Entry(0, 0, false, None, 0)], [FREE, Dinode(true, 0)], map[], map[0 := 1])
    case 2 => State([One(1, false, None, 0)], [FREE, Dinode(true, 0)], map[0 := Handle(0, Ref)], map[])
    case 3 => State([One(1, true, Some(0), 0)], [FREE, Dinode(true, 0)], map[0 := Handle(0, Locked)], map[])
    case 4 => State([One(1, true, Some(0), 1)], [FREE, Dinode(true, 1)], map[0 := Handle(0, Locked)], map[])
    case 5 => State([One(1, true, Some(0), 0)], [FREE, Dinode(true, 0)], map[0 := Handle(0, Locked)], map[])
    case 6 => State([One(1, true, None, 0)], [FREE, Dinode(true, 0)], map[0 := Handle(0, Ref)], map[])
    case 7 => State([One(1, true, Some(0), 0)], [FREE, Dinode(true, 0)], map[0 := Handle(0, Doomed)], map[])
    case 8 => State([One(2, true, Some(0), 0)], [FREE, Dinode(true, 0)], Two(Doomed), map[])
    case 9 => State([One(2, true, Some(0), 0)], [FREE, Dinode(true, 0)], Two(Cut), map[])
    case 10 => State([One(2, true, Some(0), 0)], [FREE, FREE], Two(Gone), map[])
    case _ => State([One(2, false, None, 0)], [FREE, FREE], Two(Last), map[])
  }

  const STEPS: seq<Label> := [
    Mark(0, 1), Claim(0, 0, 0), Ilock(0), SetNlink(0, 1), SetNlink(0, 0), Iunlock(0), PutBegin(0),
    Stray(1, 1, 0), Itrunc(0), Free(0), Forget(0)]

  lemma {:induction false} Steps1(k: nat)
    requires k < 2
    ensures Follows(At(k), STEPS[k], At(k + 1))
  {
    if k == 1 {
      assert !InTable(At(1), 1);
      assert At(1).claims - {0} == map[];
    }
  }

  lemma {:induction false} Steps2(k: nat)
    requires 2 <= k < 5
    ensures Follows(At(k), STEPS[k], At(k + 1))
  {
  }

  lemma {:induction false} Steps3(k: nat)
    requires 5 <= k < 8
    ensures Follows(At(k), STEPS[k], At(k + 1))
  {
    if k == 7 {
      assert At(7).tab[0].ref > 0 && InTable(At(7), 1);
    }
  }

  lemma {:induction false} Steps4(k: nat)
    requires 8 <= k < 11
    ensures Follows(At(k), STEPS[k], At(k + 1))
  {
  }

  function Ats(n: nat): (ss: seq<State>)
    ensures |ss| == n && forall k :: 0 <= k < n ==> ss[k] == At(k)
  {
    seq(n, k requires 0 <= k < n => At(k))
  }

  /** A stray lookup while iput() is about to truncate: the one that truncates is not alone, and once it has freed the
      inode the other's ilock() panics. */
  lemma {:induction false} StrayPanics() returns (ss: seq<State>, ls: seq<Label>)
    ensures IsRun(ss, ls) && |ls| == 11 && Unsound(ss[7], ls[7])
    ensures ls[8].Itrunc? && Users(ss[8], 0) == {0, 1} && NoType(ss[11], 1)
  {
    ss, ls := Ats(12), STEPS;
    assert IsRun(ss, ls) by {
      StepsRun();
    }
    assert At(7).handles[0] == Handle(0, Doomed);
    assert NoType(At(11), 1);
  }

  lemma {:induction false} StepsRun()
    ensures IsRun(Ats(12), STEPS)
  {
    hide Follows;
    forall i | 0 <= i < 11
      ensures Follows(At(i), STEPS[i], At(i + 1))
    {
      if i < 2 {
        Steps1(i);
      } else if i < 5 {
        Steps2(i);
      } else if i < 8 {
        Steps3(i);
      } else {
        Steps4(i);
      }
    }
    assert Init(At(0));
  }
}
