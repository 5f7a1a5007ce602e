/** The in-memory inode table of kernel/fs.c under every interleaving: iget(), idup(), ilock(), iunlock(), ialloc() and
    the several steps of iput(). */
module InodeTable {
  import opened Options

  // A struct inode; key stands for (dev, inum). nlink is the in-memory copy, meaningful when valid.
  datatype Entry = Entry(key: nat, ref: int, valid: bool, lock: Option<nat>, nlink: nat)

  // A struct dinode; used means type != 0.
  datatype Dinode = Dinode(used: bool, nlink: nat)

  // What a reference is being used for: held, held with the sleep-lock, or inside iput() — about to truncate,
  // truncated, freed on disk, or with only the last ref-- to do.
  datatype Stage = Ref | Locked | Doomed | Cut | Gone | Last

  datatype Handle = Handle(b: nat, stage: Stage)

  // claims: inodes ialloc() has marked on disk and not yet passed to iget().
  datatype State = State(tab: seq<Entry>, disk: seq<Dinode>, handles: map<nat, Handle>, claims: map<nat, nat>)

  // Iget: dirlookup() of an entry that counts. Stray: dirlookup() of ".." in a removed directory, whose number may by
  // now name any inode.
  datatype Label =
    | Iget(h: nat, key: nat, b: nat)
    | Stray(h: nat, key: nat, b: nat)
    | Mark(c: nat, key: nat)
    | Claim(c: nat, h: nat, b: nat)
    | Idup(h: nat, h0: nat)
    | Ilock(h: nat)
    | SetNlink(h: nat, n: nat)
    | Iunlock(h: nat)
    | PutDrop(h: nat)
    | PutBegin(h: nat)
    | Itrunc(h: nat)
    | Free(h: nat)
    | Forget(h: nat)
    | PutEnd(h: nat)

  predicate Holding(g: Stage) {
    g.Locked? || g.Doomed? || g.Cut? || g.Gone?
  }

  // Counts on the inode being allocated.
  predicate Active(g: Stage) {
    g.Ref? || g.Locked? || g.Doomed? || g.Cut?
  }

  ghost predicate InTable(s: State, key: nat) {
    exists b :: 0 <= b < |s.tab| && s.tab[b].ref > 0 && s.tab[b].key == key
  }

  // iget()'s choice: the entry for key, or an unused one when there is none.
  ghost predicate Slot(s: State, key: nat, b: nat) {
    b < |s.tab| && if InTable(s, key) then s.tab[b].ref > 0 && s.tab[b].key == key else s.tab[b].ref == 0
  }

  ghost predicate At(s: State, h: nat, g: Stage) {
    h in s.handles && s.handles[h].b < |s.tab| && s.handles[h].stage == g
  }

  // iput()'s test.
  predicate LastUnlinked(e: Entry) {
    e.ref == 1 && e.valid && e.nlink == 0
  }

  ghost predicate Enabled(s: State, l: Label) {
    match l
    case Iget(h, key, b) => h !in s.handles && key < |s.disk| && s.disk[key].used && s.disk[key].nlink > 0
        && Slot(s, key, b)
    case Stray(h, key, b) => h !in s.handles && key < |s.disk| && Slot(s, key, b)
    case Mark(c, key) => c !in s.claims && key < |s.disk| && !s.disk[key].used
    case Claim(c, h, b) => c in s.claims && h !in s.handles && Slot(s, s.claims[c], b)
    case Idup(h, h0) => h !in s.handles && (At(s, h0, Ref) || At(s, h0, Locked))
    case Ilock(h) => At(s, h, Ref) && s.tab[s.handles[h].b].lock.None? && s.tab[s.handles[h].b].key < |s.disk|
    case SetNlink(h, n) => At(s, h, Locked) && s.tab[s.handles[h].b].key < |s.disk|
    case Iunlock(h) => At(s, h, Locked)
    case PutDrop(h) => At(s, h, Ref) && !LastUnlinked(s.tab[s.handles[h].b])
    case PutBegin(h) => At(s, h, Ref) && LastUnlinked(s.tab[s.handles[h].b])
    case Itrunc(h) => At(s, h, Doomed)
    case Free(h) => At(s, h, Cut) && s.tab[s.handles[h].b].key < |s.disk|
    case Forget(h) => At(s, h, Gone)
    case PutEnd(h) => At(s, h, Last)
  }

  // A new reference to entry b.
  ghost function Joined(s: State, h: nat, key: nat, b: nat): (t: State)
    requires b < |s.tab|
  {
    var e := s.tab[b];
    s.(tab := s.tab[b := if e.ref > 0 then e.(ref := e.ref + 1) else Entry(key, 1, false, e.lock, e.nlink)],
       handles := s.handles[h := Handle(b, Ref)])
  }

  // Handle h moves to stage g, its entry becomes e and, on disk, its inode becomes d.
  ghost function Moved(s: State, h: nat, g: Stage, e: Entry, disk: seq<Dinode>): (t: State)
    requires h in s.handles && s.handles[h].b < |s.tab|
  {
    s.(tab := s.tab[s.handles[h].b := e], disk := disk, handles := s.handles[h := Handle(s.handles[h].b, g)])
  }

  ghost function Left(s: State, h: nat): (t: State)
    requires h in s.handles && s.handles[h].b < |s.tab|
  {
    var b := s.handles[h].b;
    s.(tab := s.tab[b := s.tab[b].(ref := s.tab[b].ref - 1)], handles := s.handles - {h})
  }

  ghost function Next(s: State, l: Label): (t: State)
    requires Enabled(s, l)
  {
    match l
    case Iget(h, key, b) => Joined(s, h, key, b)
    case Stray(h, key, b) => Joined(s, h, key, b)
    case Mark(c, key) => s.(disk := s.disk[key := Dinode(true, 0)], claims := s.claims[c := key])
    case Claim(c, h, b) => Joined(s, h, s.claims[c], b).(claims := s.claims - {c})
    case Idup(h, h0) => Joined(s, h, s.tab[s.handles[h0].b].key, s.handles[h0].b)
    case Ilock(h) =>
      var e := s.tab[s.handles[h].b];
      Moved(s, h, Locked, e.(lock := Some(h), valid := true, nlink := if e.valid then e.nlink else s.disk[e.key].nlink),
          s.disk)
    case SetNlink(h, n) =>
      var e := s.tab[s.handles[h].b];
      Moved(s, h, Locked, e.(nlink := n), s.disk[e.key := s.disk[e.key].(nlink := n)])
    case Iunlock(h) => Moved(s, h, Ref, s.tab[s.handles[h].b].(lock := None), s.disk)
    case PutDrop(h) => Left(s, h)
    case PutBegin(h) => Moved(s, h, Doomed, s.tab[s.handles[h].b].(lock := Some(h)), s.disk)
    case Itrunc(h) => Moved(s, h, Cut, s.tab[s.handles[h].b], s.disk)
    case Free(h) =>
      var e := s.tab[s.handles[h].b];
      Moved(s, h, Gone, e, s.disk[e.key := Dinode(false, 0)])
    case Forget(h) => Moved(s, h, Last, s.tab[s.handles[h].b].(valid := false, lock := None), s.disk)
    case PutEnd(h) => Left(s, h)
  }

  ghost predicate Init(s: State) {
    && s.handles == map[] && s.claims == map[]
    && forall b :: 0 <= b < |s.tab| ==> s.tab[b].ref == 0 && s.tab[b].lock.None?
  }

  ghost predicate Follows(s: State, l: Label, t: State) {
    Enabled(s, l) && t == Next(s, l)
  }

  ghost predicate IsRun(ss: seq<State>, ls: seq<Label>) {
    && |ss| == |ls| + 1 && Init(ss[0])
    && forall i :: 0 <= i < |ls| ==> Follows(ss[i], ls[i], ss[i + 1])
  }

  // References to entry b.
  ghost function Users(s: State, b: nat): (r: set<nat>) {
    set h | h in s.handles && s.handles[h].b == b
  }

  ghost predicate Unique(s: State) {
    forall a, b ::
      (0 <= a < |s.tab| && 0 <= b < |s.tab| && s.tab[a].ref > 0 && s.tab[b].ref > 0 && s.tab[a].key == s.tab[b].key) ==>
          a == b
  }

  // About to leave the table: at most one reference of an entry at a time.
  predicate Leaving(g: Stage) {
    g.Doomed? || g.Cut? || g.Gone? || g.Last?
  }

  ghost predicate CoreHandle(s: State, h: nat)
    requires h in s.handles
  {
    var b, g := s.handles[h].b, s.handles[h].stage;
    b < |s.tab| && s.tab[b].key < |s.disk| && (Holding(g) <==> s.tab[b].lock == Some(h))
  }

  ghost predicate CoreSlot(s: State, b: nat)
    requires b < |s.tab|
  {
    var e := s.tab[b];
    e.ref == |Users(s, b)| && (e.lock.Some? ==> e.lock.value in s.handles && s.handles[e.lock.value].b == b)
  }

  ghost predicate OneLeaving(s: State) {
    forall x, y ::
      (&& x in s.handles && y in s.handles && s.handles[x].b == s.handles[y].b
       && Leaving(s.handles[x].stage) && Leaving(s.handles[y].stage)) ==> x == y
  }

  // What every run keeps.
  ghost predicate Core(s: State) {
    && Unique(s) && OneLeaving(s)
    && (forall h {:trigger CoreHandle(s, h)} :: h in s.handles ==> CoreHandle(s, h))
    && (forall b {:trigger CoreSlot(s, b)} :: 0 <= b < |s.tab| ==> CoreSlot(s, b))
    && (forall c :: c in s.claims ==> s.claims[c] < |s.disk|)
  }

  ghost predicate HandleOk(s: State, h: nat)
    requires h in s.handles
  {
    var b, g := s.handles[h].b, s.handles[h].stage;
    && b < |s.tab| && s.tab[b].key < |s.disk|
    && (Active(g) ==> s.disk[s.tab[b].key].used)
    && (g.Doomed? || g.Cut? ==> Users(s, b) == {h} && s.tab[b].valid && s.tab[b].nlink == 0)
  }

  // The holder of the lock has already freed the inode on disk.
  ghost predicate Freed(s: State, e: Entry) {
    e.lock.Some? && e.lock.value in s.handles && s.handles[e.lock.value].stage.Gone?
  }

  ghost predicate SlotOk(s: State, b: nat)
    requires b < |s.tab|
  {
    var e := s.tab[b];
    e.ref > 0 && e.valid ==> e.key < |s.disk| && (Freed(s, e) || (s.disk[e.key].used && e.nlink == s.disk[e.key].nlink))
  }

  ghost predicate ClaimOk(s: State, c: nat)
    requires c in s.claims
  {
    var key := s.claims[c];
    && key < |s.disk| && s.disk[key] == Dinode(true, 0)
    && (forall h :: h in s.handles && s.handles[h].b < |s.tab| && Active(s.handles[h].stage) ==>
          s.tab[s.handles[h].b].key != key)
    && (forall d :: d in s.claims && d != c ==> s.claims[d] != key)
  }

  // What runs without unsound lookups keep besides.
  ghost predicate Inv(s: State) {
    && Core(s)
    && (forall h {:trigger HandleOk(s, h)} :: h in s.handles ==> HandleOk(s, h))
    && (forall b {:trigger SlotOk(s, b)} :: 0 <= b < |s.tab| ==> SlotOk(s, b))
    && (forall c {:trigger ClaimOk(s, c)} :: c in s.claims ==> ClaimOk(s, c))
  }

  // An entry nobody refers to.
  lemma {:induction false} UnusedEntry(s: State, b: nat, h: nat)
    requires Core(s) && b < |s.tab| && s.tab[b].ref <= 0
    ensures s.tab[b].lock.None? && (h in s.handles ==> s.handles[h].b != b)
  {
    assert CoreSlot(s, b);
    assert |Users(s, b)| == 0;
    assert h in s.handles && s.handles[h].b == b ==> h in Users(s, b);
    var l := if s.tab[b].lock.Some? then s.tab[b].lock.value else 0;
    assert l in s.handles && s.handles[l].b == b ==> l in Users(s, b);
  }

  // An entry somebody refers to.
  lemma {:induction false} UsedEntry(s: State, h: nat)
    requires Core(s) && h in s.handles
    ensures s.handles[h].b < |s.tab| && s.tab[s.handles[h].b].ref > 0
  {
    var b := s.handles[h].b;
    assert CoreHandle(s, h) && CoreSlot(s, b);
    assert h in Users(s, b);
  }

  // What Joined does to the sets of users.
  lemma {:induction false} JoinedUsers(s: State, h: nat, key: nat, b: nat, t: State, x: nat)
    requires b < |s.tab| && h !in s.handles && t.handles == Joined(s, h, key, b).handles
    ensures Users(t, x) == if x == b then Users(s, b) + {h} else Users(s, x)
    ensures h !in Users(s, x)
  {
  }

  // ---- a new reference

  ghost predicate MayJoin(s: State, h: nat, key: nat, b: nat) {
    && h !in s.handles && b < |s.tab| && key < |s.disk|
    && (s.tab[b].ref > 0 ==> s.tab[b].key == key)
    && (s.tab[b].ref <= 0 ==> !InTable(s, key))
  }

  lemma {:induction false} JoinUnique(s: State, h: nat, key: nat, b: nat, t: State)
    requires Unique(s) && b < |s.tab| && t.tab == Joined(s, h, key, b).tab
    requires (s.tab[b].ref > 0 ==> s.tab[b].key == key) && (s.tab[b].ref <= 0 ==> !InTable(s, key))
    ensures Unique(t)
  {
  }

  lemma {:induction false} JoinCore(s: State, h: nat, key: nat, b: nat, claims: map<nat, nat>, t: State)
    requires Core(s) && MayJoin(s, h, key, b) && t == Joined(s, h, key, b).(claims := claims)
    requires forall c :: c in claims ==> claims[c] < |s.disk|
    ensures Core(t)
  {
    hide Joined, Unique, OneLeaving, CoreHandle, CoreSlot, Users;
    JoinUnique(s, h, key, b, t);
    JoinLeaving(s, h, key, b, t);
    forall x | x in t.handles
      ensures CoreHandle(t, x)
    {
      JoinCoreHandle(s, h, key, b, claims, t, x);
    }
    forall x | 0 <= x < |t.tab|
      ensures CoreSlot(t, x)
    {
      JoinCoreSlot(s, h, key, b, claims, t, x);
    }
    JoinDisk(s, h, key, b);
  }

  lemma {:induction false} JoinDisk(s: State, h: nat, key: nat, b: nat)
    requires b < |s.tab|
    ensures Joined(s, h, key, b).disk == s.disk
  {
  }

  lemma {:induction false} JoinLeaving(s: State, h: nat, key: nat, b: nat, t: State)
    requires OneLeaving(s) && h !in s.handles && b < |s.tab| && t.handles == Joined(s, h, key, b).handles
    ensures OneLeaving(t)
  {
  }

  lemma {:induction false} JoinCoreHandle(s: State, h: nat, key: nat, b: nat, claims: map<nat, nat>, t: State, x: nat)
    requires Core(s) && MayJoin(s, h, key, b) && t == Joined(s, h, key, b).(claims := claims) && x in t.handles
    ensures CoreHandle(t, x)
  {
    hide Users, Unique, OneLeaving;
    assert CoreSlot(s, b);
    if x == h {
      if s.tab[b].ref <= 0 {
        UnusedEntry(s, b, h);
      }
    } else {
      UsedEntry(s, x);
      assert CoreHandle(s, x);
    }
  }

  lemma {:induction false} JoinCoreSlot(s: State, h: nat, key: nat, b: nat, claims: map<nat, nat>, t: State, x: nat)
    requires Core(s) && MayJoin(s, h, key, b) && t == Joined(s, h, key, b).(claims := claims) && x < |t.tab|
    ensures CoreSlot(t, x)
  {
    hide Users, Unique, OneLeaving;
    assert CoreSlot(s, x);
    JoinedUsers(s, h, key, b, t, x);
    if s.tab[b].ref <= 0 {
      UnusedEntry(s, b, h);
    }
  }

  ghost predicate CanJoin(s: State, h: nat, key: nat, b: nat, claims: map<nat, nat>) {
    && MayJoin(s, h, key, b) && s.disk[key].used
    && (forall x :: x in s.handles && s.handles[x].b == b ==> !s.handles[x].stage.Doomed? && !s.handles[x].stage.Cut?)
    && (forall c :: c in claims ==> c in s.claims && claims[c] == s.claims[c] != key)
  }

  lemma {:induction false} JoinHandle(s: State, h: nat, key: nat, b: nat, claims: map<nat, nat>, t: State, x: nat)
    requires Inv(s) && CanJoin(s, h, key, b, claims) && t == Joined(s, h, key, b).(claims := claims) && x in t.handles
    ensures HandleOk(t, x)
  {
    JoinedUsers(s, h, key, b, t, t.handles[x].b);
    if x != h {
      UsedEntry(s, x);
      assert HandleOk(s, x);
    }
  }

  lemma {:induction false} JoinSlot(s: State, h: nat, key: nat, b: nat, claims: map<nat, nat>, t: State, x: nat)
    requires Inv(s) && CanJoin(s, h, key, b, claims) && t == Joined(s, h, key, b).(claims := claims) && x < |t.tab|
    ensures SlotOk(t, x)
  {
    assert SlotOk(s, x) && CoreSlot(s, x);
  }

  lemma {:induction false} JoinClaim(s: State, h: nat, key: nat, b: nat, claims: map<nat, nat>, t: State, c: nat)
    requires Inv(s) && CanJoin(s, h, key, b, claims) && t == Joined(s, h, key, b).(claims := claims) && c in t.claims
    ensures ClaimOk(t, c)
  {
    assert ClaimOk(s, c);
    forall x | x in t.handles && t.handles[x].b < |t.tab| && Active(t.handles[x].stage)
      ensures t.tab[t.handles[x].b].key != t.claims[c]
    {
      if x != h && s.tab[b].ref <= 0 {
        UnusedEntry(s, b, x);
      }
    }
  }

  lemma {:induction false} JoinKeeps(s: State, h: nat, key: nat, b: nat, claims: map<nat, nat>, t: State)
    requires Inv(s) && CanJoin(s, h, key, b, claims) && t == Joined(s, h, key, b).(claims := claims)
    ensures Inv(t)
  {
    hide Joined, HandleOk, SlotOk, ClaimOk;
    JoinCore(s, h, key, b, claims, t);
    forall x | x in t.handles
      ensures HandleOk(t, x)
    {
      JoinHandle(s, h, key, b, claims, t, x);
    }
    forall x | 0 <= x < |t.tab|
      ensures SlotOk(t, x)
    {
      JoinSlot(s, h, key, b, claims, t, x);
    }
    forall c | c in t.claims
      ensures ClaimOk(t, c)
    {
      JoinClaim(s, h, key, b, claims, t, c);
    }
  }

  // ---- a reference moves on

  ghost predicate MayMove(s: State, h: nat, g: Stage, e: Entry, disk: seq<Dinode>) {
    && h in s.handles && s.handles[h].b < |s.tab|
    && var b, g0 := s.handles[h].b, s.handles[h].stage;
       var e0 := s.tab[b];
       && e.key == e0.key < |s.disk| == |disk| && e.ref == e0.ref
       && (e0.lock.None? || e0.lock == Some(h)) && e.lock == (if Holding(g) then Some(h) else None)
       && (Leaving(g) ==> Leaving(g0) || Users(s, b) == {h})
  }

  lemma {:induction false} MovedUsers(s: State, h: nat, g: Stage, e: Entry, disk: seq<Dinode>, t: State, x: nat)
    requires h in s.handles && s.handles[h].b < |s.tab| && t == Moved(s, h, g, e, disk)
    ensures Users(t, x) == Users(s, x)
  {
  }

  lemma {:induction false} MoveLeaving(s: State, h: nat, g: Stage, e: Entry, disk: seq<Dinode>, t: State)
    requires OneLeaving(s) && MayMove(s, h, g, e, disk) && t == Moved(s, h, g, e, disk)
    ensures OneLeaving(t)
  {
    forall x, y | x in t.handles && y in t.handles && t.handles[x].b == t.handles[y].b
                  && Leaving(t.handles[x].stage) && Leaving(t.handles[y].stage)
      ensures x == y
    {
      assert x in Users(s, s.handles[x].b) && y in Users(s, s.handles[x].b);
    }
  }

  lemma {:induction false} MoveCore(s: State, h: nat, g: Stage, e: Entry, disk: seq<Dinode>, t: State)
    requires Core(s) && MayMove(s, h, g, e, disk) && t == Moved(s, h, g, e, disk)
    ensures Core(t)
  {
    hide Users, OneLeaving;
    MoveLeaving(s, h, g, e, disk, t);
    assert CoreHandle(s, h);
    forall x | x in t.handles
      ensures CoreHandle(t, x)
    {
      assert CoreHandle(s, x);
    }
    forall x | 0 <= x < |t.tab|
      ensures CoreSlot(t, x)
    {
      assert CoreSlot(s, x);
      MovedUsers(s, h, g, e, disk, t, x);
    }
  }

  ghost predicate CanMove(s: State, h: nat, g: Stage, e: Entry, disk: seq<Dinode>)
  {
    && MayMove(s, h, g, e, disk)
    && var b, g0 := s.handles[h].b, s.handles[h].stage;
       && (forall k :: 0 <= k < |disk| && k != e.key ==> disk[k] == s.disk[k])
       && (Active(g) ==> Active(g0) && disk[e.key].used)
       && (disk[e.key] != s.disk[e.key] ==> Active(g0) && (disk[e.key].used || Users(s, b) == {h}))
       && (g.Doomed? || g.Cut? ==> Users(s, b) == {h} && e.valid && e.nlink == 0)
       && (e.valid ==> g.Gone? || (disk[e.key].used && e.nlink == disk[e.key].nlink))
  }

  lemma {:induction false} MoveHandle(s: State, h: nat, g: Stage, e: Entry, disk: seq<Dinode>, t: State, x: nat)
    requires Inv(s) && CanMove(s, h, g, e, disk) && t == Moved(s, h, g, e, disk) && x in t.handles
    ensures HandleOk(t, x)
  {
    UsedEntry(s, h);
    UsedEntry(s, x);
    assert HandleOk(s, h) && HandleOk(s, x);
    MovedUsers(s, h, g, e, disk, t, t.handles[x].b);
    assert h in Users(s, s.handles[h].b) && x in Users(s, s.handles[x].b);
  }

  lemma {:induction false} MoveSlot(s: State, h: nat, g: Stage, e: Entry, disk: seq<Dinode>, t: State, x: nat)
    requires Inv(s) && CanMove(s, h, g, e, disk) && t == Moved(s, h, g, e, disk) && x < |t.tab|
    ensures SlotOk(t, x)
  {
    hide Users;
    UsedEntry(s, h);
    assert SlotOk(s, x) && CoreSlot(s, x) && CoreHandle(s, h);
  }

  lemma {:induction false} MoveClaim(s: State, h: nat, g: Stage, e: Entry, disk: seq<Dinode>, t: State, c: nat)
    requires Inv(s) && CanMove(s, h, g, e, disk) && t == Moved(s, h, g, e, disk) && c in t.claims
    ensures ClaimOk(t, c)
  {
    hide Users, SlotOk, CoreSlot;
    assert ClaimOk(s, c) && HandleOk(s, h);
  }

  lemma {:induction false} MoveKeeps(s: State, h: nat, g: Stage, e: Entry, disk: seq<Dinode>, t: State)
    requires Inv(s) && CanMove(s, h, g, e, disk) && t == Moved(s, h, g, e, disk)
    ensures Inv(t)
  {
    hide Moved, HandleOk, SlotOk, ClaimOk;
    MoveCore(s, h, g, e, disk, t);
    forall x | x in t.handles
      ensures HandleOk(t, x)
    {
      MoveHandle(s, h, g, e, disk, t, x);
    }
    forall x | 0 <= x < |t.tab|
      ensures SlotOk(t, x)
    {
      MoveSlot(s, h, g, e, disk, t, x);
    }
    forall c | c in t.claims
      ensures ClaimOk(t, c)
    {
      MoveClaim(s, h, g, e, disk, t, c);
    }
  }

  // ---- a reference goes

  lemma {:induction false} LeftUsers(s: State, h: nat, t: State, x: nat)
    requires h in s.handles && s.handles[h].b < |s.tab| && t == Left(s, h)
    ensures Users(t, x) == if x == s.handles[h].b then Users(s, x) - {h} else Users(s, x)
    ensures x == s.handles[h].b ==> h in Users(s, x)
  {
  }

  lemma {:induction false} LeaveCore(s: State, h: nat, t: State)
    requires Core(s) && h in s.handles && s.handles[h].b < |s.tab| && t == Left(s, h) && !Holding(s.handles[h].stage)
    ensures Core(t)
  {
    hide Users;
    assert CoreHandle(s, h);
    forall x | 0 <= x < |t.tab|
      ensures CoreSlot(t, x)
    {
      assert CoreSlot(s, x);
      LeftUsers(s, h, t, x);
    }
    forall x | x in t.handles
      ensures CoreHandle(t, x)
    {
      assert CoreHandle(s, x);
    }
  }

  lemma {:induction false} LeaveHandle(s: State, h: nat, t: State, x: nat)
    requires Inv(s) && h in s.handles && s.handles[h].b < |s.tab| && t == Left(s, h) && x in t.handles
    ensures HandleOk(t, x)
  {
    assert HandleOk(s, x) && HandleOk(s, h);
    LeftUsers(s, h, t, t.handles[x].b);
    assert x in Users(s, s.handles[x].b);
  }

  lemma {:induction false} LeaveKeeps(s: State, h: nat, t: State)
    requires Inv(s) && h in s.handles && s.handles[h].b < |s.tab| && t == Left(s, h) && !Holding(s.handles[h].stage)
    ensures Inv(t)
  {
    hide Core, HandleOk, Users;
    LeaveCore(s, h, t);
    LeaveSlots(s, h, t);
    forall c | c in t.claims
      ensures ClaimOk(t, c)
    {
      assert ClaimOk(s, c);
    }
    forall x | x in t.handles
      ensures HandleOk(t, x)
    {
      LeaveHandle(s, h, t, x);
    }
  }

  lemma {:induction false} LeaveSlots(s: State, h: nat, t: State)
    requires Inv(s) && h in s.handles && s.handles[h].b < |s.tab| && t == Left(s, h) && !Holding(s.handles[h].stage)
    ensures forall x {:trigger SlotOk(t, x)} :: 0 <= x < |t.tab| ==> SlotOk(t, x)
  {
    hide Users, HandleOk, ClaimOk;
    assert CoreHandle(s, h);
    forall x | 0 <= x < |t.tab|
      ensures SlotOk(t, x)
    {
      assert SlotOk(s, x) && CoreSlot(s, x);
    }
  }

  // ---- ialloc() marks an inode

  lemma {:induction false} MarkCore(s: State, c: nat, key: nat, t: State)
    requires Core(s) && Enabled(s, Mark(c, key)) && t == Next(s, Mark(c, key))
    ensures Core(t)
  {
    forall x | 0 <= x < |t.tab|
      ensures CoreSlot(t, x)
    {
      assert CoreSlot(s, x) && Users(t, x) == Users(s, x);
    }
    forall x | x in t.handles
      ensures CoreHandle(t, x)
    {
      assert CoreHandle(s, x);
    }
  }

  lemma {:induction false} MarkClaims(s: State, c: nat, key: nat, t: State)
    requires Inv(s) && Enabled(s, Mark(c, key)) && t == Next(s, Mark(c, key))
    ensures forall d {:trigger ClaimOk(t, d)} :: d in t.claims ==> ClaimOk(t, d)
  {
    hide Users, SlotOk, CoreSlot;
    forall d' | d' in s.claims
      ensures s.claims[d'] != key
    {
      assert ClaimOk(s, d');
    }
    forall d | d in t.claims
      ensures ClaimOk(t, d)
    {
      assert d != c ==> ClaimOk(s, d);
      forall x | x in t.handles && t.handles[x].b < |t.tab| && Active(t.handles[x].stage)
        ensures t.tab[t.handles[x].b].key != t.claims[d]
      {
        assert HandleOk(s, x);
      }
    }
  }

  lemma {:induction false} MarkKeeps(s: State, c: nat, key: nat, t: State)
    requires Inv(s) && Enabled(s, Mark(c, key)) && t == Next(s, Mark(c, key))
    ensures Inv(t)
  {
    hide Core, ClaimOk;
    MarkCore(s, c, key, t);
    MarkClaims(s, c, key, t);
    forall x | 0 <= x < |t.tab|
      ensures SlotOk(t, x)
    {
      assert SlotOk(s, x);
    }
    forall x | x in t.handles
      ensures HandleOk(t, x)
    {
      assert HandleOk(s, x) && Users(t, s.handles[x].b) == Users(s, s.handles[x].b);
    }
  }

  // ---- the steps

  // iget() of an inode with links never meets an iput() that is about to free it.
  lemma {:induction false} IgetJoins(s: State, h: nat, key: nat, b: nat)
    requires Inv(s) && Enabled(s, Iget(h, key, b))
    ensures CanJoin(s, h, key, b, s.claims)
  {
    assert SlotOk(s, b) && CoreSlot(s, b);
    forall x | x in s.handles && s.handles[x].b == b
      ensures !s.handles[x].stage.Doomed? && !s.handles[x].stage.Cut?
    {
      UsedEntry(s, x);
      assert HandleOk(s, x) && CoreHandle(s, x);
    }
    forall c | c in s.claims
      ensures s.claims[c] != key
    {
      assert ClaimOk(s, c);
    }
  }

  lemma {:induction false} ClaimJoins(s: State, c: nat, h: nat, b: nat)
    requires Inv(s) && Enabled(s, Claim(c, h, b))
    ensures CanJoin(s, h, s.claims[c], b, s.claims - {c})
  {
    assert ClaimOk(s, c) && CoreSlot(s, b);
    forall x | x in s.handles && s.handles[x].b == b
      ensures !s.handles[x].stage.Doomed? && !s.handles[x].stage.Cut?
    {
      UsedEntry(s, x);
      assert HandleOk(s, x);
    }
  }

  lemma {:induction false} IdupJoins(s: State, h: nat, h0: nat)
    requires Inv(s) && Enabled(s, Idup(h, h0))
    ensures var b := s.handles[h0].b; CanJoin(s, h, s.tab[b].key, b, s.claims)
  {
    var b := s.handles[h0].b;
    UsedEntry(s, h0);
    assert HandleOk(s, h0) && h0 in Users(s, b);
    forall x | x in s.handles && s.handles[x].b == b
      ensures !s.handles[x].stage.Doomed? && !s.handles[x].stage.Cut?
    {
      assert HandleOk(s, x);
    }
    forall c | c in s.claims
      ensures s.claims[c] != s.tab[b].key
    {
      assert ClaimOk(s, c);
    }
  }

  /** The sole reference: iput()'s acquiresleep() never has to wait. */
  lemma {:induction false} PutBeginAlone(s: State, h: nat)
    requires Core(s) && Enabled(s, PutBegin(h))
    ensures Users(s, s.handles[h].b) == {h} && s.tab[s.handles[h].b].lock.None?
  {
    var b := s.handles[h].b;
    assert CoreSlot(s, b) && CoreHandle(s, h);
    assert h in Users(s, b);
    SoleMember(Users(s, b), h);
    var l := if s.tab[b].lock.Some? then s.tab[b].lock.value else h;
    assert l in Users(s, b);
  }

  lemma {:induction false} SoleMember(xs: set<nat>, x: nat)
    requires x in xs && |xs| == 1
    ensures xs == {x}
  {
    assert |xs - {x}| == 0;
  }

  predicate MovesOn(l: Label) {
    l.Ilock? || l.SetNlink? || l.Iunlock? || l.PutBegin? || l.Itrunc? || l.Free? || l.Forget?
  }

  lemma {:induction false} MoveStepCore(s: State, l: Label)
    requires Core(s) && Enabled(s, l) && MovesOn(l)
    ensures Core(Next(s, l))
  {
    hide Users, CoreSlot;
    var h, t := l.h, Next(s, l);
    assert CoreHandle(s, h);
    if l.PutBegin? {
      PutBeginAlone(s, h);
    }
    var b := s.handles[h].b;
    assert t == Moved(s, h, t.handles[h].stage, t.tab[b], t.disk);
    MoveCore(s, h, t.handles[h].stage, t.tab[b], t.disk, t);
  }

  lemma {:induction false} StepCore(s: State, l: Label)
    requires Core(s) && Enabled(s, l)
    ensures Core(Next(s, l))
  {
    hide Joined, Moved, Left, Users, Unique, OneLeaving, CoreSlot;
    var t := Next(s, l);
    match l
    case Iget(h, key, b) =>
      JoinClaims(s, h, key, b, t);
      JoinCore(s, h, key, b, s.claims, t);
    case Stray(h, key, b) =>
      JoinClaims(s, h, key, b, t);
      JoinCore(s, h, key, b, s.claims, t);
    case Mark(c, key) => MarkCore(s, c, key, t);
    case Claim(c, h, b) => JoinCore(s, h, s.claims[c], b, s.claims - {c}, t);
    case Idup(h, h0) =>
      UsedEntry(s, h0);
      assert CoreHandle(s, h0);
      JoinClaims(s, h, s.tab[s.handles[h0].b].key, s.handles[h0].b, t);
      JoinCore(s, h, s.tab[s.handles[h0].b].key, s.handles[h0].b, s.claims, t);
    case PutDrop(h) => LeaveCore(s, h, t);
    case PutEnd(h) => LeaveCore(s, h, t);
    case _ => MoveStepCore(s, l);
  }

  lemma {:induction false} MoveStep(s: State, l: Label)
    requires Inv(s) && Enabled(s, l) && MovesOn(l)
    ensures Inv(Next(s, l))
  {
    hide Users;
    var h, t := l.h, Next(s, l);
    assert HandleOk(s, h) && CoreHandle(s, h);
    UsedEntry(s, h);
    var b := s.handles[h].b;
    assert SlotOk(s, b);
    if l.PutBegin? {
      PutBeginAlone(s, h);
    }
    assert t == Moved(s, h, t.handles[h].stage, t.tab[b], t.disk);
    assert CanMove(s, h, t.handles[h].stage, t.tab[b], t.disk);
    MoveKeeps(s, h, t.handles[h].stage, t.tab[b], t.disk, t);
  }

  // The inode a stray lookup finds is allocated, nobody is about to free it, and no ialloc() has just taken it.
  ghost predicate Sound(s: State, key: nat, b: nat) {
    && key < |s.disk| && s.disk[key].used
    && (forall x :: x in s.handles && s.handles[x].b == b ==> !s.handles[x].stage.Doomed? && !s.handles[x].stage.Cut?)
    && (forall c :: c in s.claims ==> s.claims[c] != key)
  }

  ghost predicate Unsound(s: State, l: Label) {
    l.Stray? && !Sound(s, l.key, l.b)
  }

  lemma {:induction false} StepKeepsInv(s: State, l: Label)
    requires Inv(s) && Enabled(s, l) && !Unsound(s, l)
    ensures Inv(Next(s, l))
  {
    hide Inv, Joined, Moved, Left;
    var t := Next(s, l);
    match l
    case Iget(h, key, b) =>
      IgetJoins(s, h, key, b);
      JoinClaims(s, h, key, b, t);
      JoinKeeps(s, h, key, b, s.claims, t);
    case Stray(h, key, b) =>
      SlotJoins(s, h, key, b);
      JoinClaims(s, h, key, b, t);
      JoinKeeps(s, h, key, b, s.claims, t);
    case Mark(c, key) => MarkKeeps(s, c, key, t);
    case Claim(c, h, b) =>
      ClaimJoins(s, c, h, b);
      JoinKeeps(s, h, s.claims[c], b, s.claims - {c}, t);
    case Idup(h, h0) =>
      IdupJoins(s, h, h0);
      JoinClaims(s, h, s.tab[s.handles[h0].b].key, s.handles[h0].b, t);
      JoinKeeps(s, h, s.tab[s.handles[h0].b].key, s.handles[h0].b, s.claims, t);
    case PutDrop(h) => LeaveKeeps(s, h, t);
    case PutEnd(h) => LeaveKeeps(s, h, t);
    case _ => MoveStep(s, l);
  }

  lemma {:induction false} SlotJoins(s: State, h: nat, key: nat, b: nat)
    requires Enabled(s, Stray(h, key, b))
    ensures MayJoin(s, h, key, b)
  {
  }

  lemma {:induction false} JoinClaims(s: State, h: nat, key: nat, b: nat, t: State)
    requires b < |s.tab| && t == Joined(s, h, key, b)
    ensures t == Joined(s, h, key, b).(claims := s.claims)
  {
  }

  lemma {:induction false} InitInv(s: State)
    requires Init(s)
    ensures Inv(s)
  {
    forall b | 0 <= b < |s.tab|
      ensures CoreSlot(s, b)
    {
      assert Users(s, b) == {};
    }
  }

  lemma {:induction false} RunKeepsCore(ss: seq<State>, ls: seq<Label>, n: nat)
    requires IsRun(ss, ls) && n < |ss|
    ensures Core(ss[n])
  {
    hide Core, Next, Enabled;
    if n == 0 {
      InitInv(ss[0]);
      InvCore(ss[0]);
    } else {
      RunKeepsCore(ss, ls, n - 1);
      assert Follows(ss[n - 1], ls[n - 1], ss[n]);
      StepCore(ss[n - 1], ls[n - 1]);
    }
  }

  lemma {:induction false} InvCore(s: State)
    requires Inv(s)
    ensures Core(s)
  {
  }

  // No lookup before step n was unsound.
  ghost predicate Tame(ss: seq<State>, ls: seq<Label>, n: nat)
    requires n <= |ls| < |ss|
  {
    forall i :: 0 <= i < n ==> !Unsound(ss[i], ls[i])
  }

  lemma {:induction false} RunKeepsInv(ss: seq<State>, ls: seq<Label>, n: nat)
    requires IsRun(ss, ls) && n < |ss| && Tame(ss, ls, n)
    ensures Inv(ss[n])
  {
    hide Inv, Next, Enabled, Unsound;
    if n == 0 {
      InitInv(ss[0]);
    } else {
      RunKeepsInv(ss, ls, n - 1);
      assert Follows(ss[n - 1], ls[n - 1], ss[n]);
      StepKeepsInv(ss[n - 1], ls[n - 1]);
    }
  }

  /** In every run, at every point: no inode has two entries in use, and an entry's count is the number of
      references to it. */
  lemma {:induction false} TableExact(ss: seq<State>, ls: seq<Label>, n: nat)
    requires IsRun(ss, ls) && n < |ss|
    ensures Unique(ss[n])
    ensures forall b :: 0 <= b < |ss[n].tab| ==> ss[n].tab[b].ref == |Users(ss[n], b)|
  {
    RunKeepsCore(ss, ls, n);
    forall b | 0 <= b < |ss[n].tab|
      ensures ss[n].tab[b].ref == |Users(ss[n], b)|
    {
      assert CoreSlot(ss[n], b);
    }
  }

  /** In every run without unsound lookups an inode is truncated and freed only by its sole reference, while it has no
      links, in memory or on disk, and while it is allocated, even when ialloc() reuses it before iput() has
      finished. */
  lemma {:induction false} FreedBySoleHolder(ss: seq<State>, ls: seq<Label>, n: nat)
    requires IsRun(ss, ls) && n < |ls| && (ls[n].Itrunc? || ls[n].Free?) && Tame(ss, ls, n)
    ensures var s, h := ss[n], ls[n].h;
            && h in s.handles && s.handles[h].b < |s.tab| && Users(s, s.handles[h].b) == {h}
            && var e := s.tab[s.handles[h].b];
               e.key < |s.disk| && e.nlink == 0 && s.disk[e.key] == Dinode(true, 0)
  {
    RunKeepsInv(ss, ls, n);
    assert Follows(ss[n], ls[n], ss[n + 1]);
    var s, h := ss[n], ls[n].h;
    assert HandleOk(s, h) && SlotOk(s, s.handles[h].b) && CoreHandle(s, h);
    UsedEntry(s, h);
  }

  // ilock()'s "no type" panic.
  ghost predicate NoType(s: State, h: nat) {
    Enabled(s, Ilock(h)) && !s.disk[s.tab[s.handles[h].b].key].used
  }

  lemma {:induction false} InvHasType(s: State, h: nat)
    requires Inv(s)
    ensures !NoType(s, h)
  {
    if h in s.handles {
      assert HandleOk(s, h);
    }
  }

  /** In every run without unsound lookups ilock() never finds a free inode, and what it has in memory afterwards is
      what is on disk. */
  lemma {:induction false} LockedHasType(ss: seq<State>, ls: seq<Label>, n: nat)
    requires IsRun(ss, ls) && n < |ls| && ls[n].Ilock? && Tame(ss, ls, n)
    ensures var s, h := ss[n], ls[n].h;
            && h in s.handles && s.handles[h].b < |s.tab| && s.tab[s.handles[h].b].ref > 0
            && s.tab[s.handles[h].b].key < |s.disk| && s.disk[s.tab[s.handles[h].b].key].used
            && ss[n + 1].tab[s.handles[h].b].nlink == s.disk[s.tab[s.handles[h].b].key].nlink
  {
    RunKeepsInv(ss, ls, n);
    assert Follows(ss[n], ls[n], ss[n + 1]);
    var s, h := ss[n], ls[n].h;
    UsedEntry(s, h);
    assert HandleOk(s, h) && SlotOk(s, s.handles[h].b);
  }

  // Between two frees of one inode somebody allocated it.
  lemma {:induction false} StaysFree(ss: seq<State>, ls: seq<Label>, key: nat, i: nat, j: nat)
    requires IsRun(ss, ls) && i <= j < |ss| && key < |ss[i].disk| && !ss[i].disk[key].used
    requires forall m :: i <= m < j ==> !(ls[m].Mark? && ls[m].key == key)
    ensures key < |ss[j].disk| && !ss[j].disk[key].used
    decreases j - i
  {
    if i < j {
      StaysFree(ss, ls, key, i, j - 1);
      assert Follows(ss[j - 1], ls[j - 1], ss[j]);
    }
  }

  /** In such a run no inode is freed twice without being allocated in between. */
  lemma {:induction false} NeverFreedTwice(ss: seq<State>, ls: seq<Label>, i: nat, j: nat, key: nat)
    requires IsRun(ss, ls) && i < j < |ls| && ls[i].Free? && ls[j].Free? && Tame(ss, ls, j)
    requires Enabled(ss[i], ls[i]) && ss[i].tab[ss[i].handles[ls[i].h].b].key == key
    requires Enabled(ss[j], ls[j]) && ss[j].tab[ss[j].handles[ls[j].h].b].key == key
    ensures exists m :: i < m < j && ls[m].Mark? && ls[m].key == key
  {
    FreedBySoleHolder(ss, ls, j);
    if forall m :: i < m < j ==> !(ls[m].Mark? && ls[m].key == key) {
      assert Follows(ss[i], ls[i], ss[i + 1]);
      StaysFree(ss, ls, key, i + 1, j);
    }
  }

  class Itable {
    var tab: seq<Entry>

    ghost function Table(): (s: State)
      reads this
    {
      State(tab, [], map[], map[])
    }

    /** iget()'s scan makes the choice the steps Iget and Claim allow, and the new entry they describe. */
    method Get(key: nat) returns (b: nat, panic: bool)
      requires forall i :: 0 <= i < |tab| ==> tab[i].ref >= 0
      modifies this
      ensures panic <==> !InTable(old(Table()), key) && forall i :: 0 <= i < |old(tab)| ==> old(tab)[i].ref > 0
      ensures panic ==> tab == old(tab)
      ensures !panic ==> Slot(old(Table()), key, b) && tab == Joined(old(Table()), 0, key, b).tab
    {
      var empty := |tab|;
      var i := 0;
      while i < |tab|
        invariant 0 <= i <= |tab| && tab == old(tab) && 0 <= empty <= |tab|
        invariant forall j :: 0 <= j < i ==> !(tab[j].ref > 0 && tab[j].key == key)
        invariant empty < |tab| ==> tab[empty].ref == 0
        invariant empty == |tab| ==> forall j :: 0 <= j < i ==> tab[j].ref != 0
      {
        if tab[i].ref > 0 && tab[i].key == key {
          assert InTable(Table(), key);
          tab := tab[i := tab[i].(ref := tab[i].ref + 1)];
          return i, false;
        }
        if empty == |tab| && tab[i].ref == 0 {
          empty := i;
        }
        i := i + 1;
      }
      if empty == |tab| {
        return 0, true;
      }
      tab := tab[empty := Entry(key, 1, false, tab[empty].lock, tab[empty].nlink)];
      return empty, false;
    }
  }
}
