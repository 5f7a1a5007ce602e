/** kernel/bio.c with its callers in kernel/log.c, under every interleaving of the processes that use it: the
    cache against a plain disk that always holds the last value written. */
module BufferCache {
  import opened Options

  // (dev, blockno)
  type Key = (nat, nat)

  datatype Slot<D> = Slot(key: Key, valid: bool, refcnt: int, data: D, lock: Option<nat>)

  // Where a caller of bread() is: waiting for the sleep-lock, holding it with the contents not yet read,
  // holding the buffer (dirty since a change not followed by bwrite or log_write), or past releasesleep()
  // in brelse().
  datatype Handle =
    | Waiting(b: nat, key: Key)
    | Locked(b: nat, key: Key)
    | Held(b: nat, key: Key, dirty: bool)
    | Releasing(b: nat, key: Key)

  // last is the plain disk; pinned the blocks in the log header.
  datatype State<D> = State(
    bufs: seq<Slot<D>>, disk: map<Key, D>, last: map<Key, D>, handles: map<nat, Handle>, pinned: set<Key>)

  datatype Label<D> =
    | Get(h: nat, key: Key, b: nat)
    | Lock(h: nat)
    | Fill(h: nat)
    | Modify(h: nat, v: D)
    | Bwrite(h: nat)
    | LogWrite(h: nat)
    | Install(h: nat)
    | Unlock(h: nat)
    | Drop(h: nat)

  ghost predicate Cached<D>(s: State<D>, key: Key) {
    exists i :: 0 <= i < |s.bufs| && s.bufs[i].key == key
  }

  ghost predicate At<D>(s: State<D>, h: nat) {
    h in s.handles && s.handles[h].b < |s.bufs|
  }

  ghost predicate Enabled<D>(s: State<D>, l: Label<D>) {
    match l
    case Get(h, key, b) =>
      && h !in s.handles && key.0 != 0 && key in s.disk && b < |s.bufs|
      && if Cached(s, key) then s.bufs[b].key == key else s.bufs[b].refcnt == 0
    case Lock(h) => At(s, h) && s.handles[h].Waiting? && s.bufs[s.handles[h].b].lock.None?
    case Fill(h) => At(s, h) && s.handles[h].Locked? && s.handles[h].key in s.disk
    case Modify(h, _) => At(s, h) && s.handles[h].Held?
    case Bwrite(h) => At(s, h) && s.handles[h].Held?
    case LogWrite(h) => At(s, h) && s.handles[h].Held?
    case Install(h) => At(s, h) && s.handles[h].Held? && s.handles[h].key in s.pinned
    case Unlock(h) => At(s, h) && s.handles[h].Held? && !s.handles[h].dirty
    case Drop(h) => At(s, h) && s.handles[h].Releasing?
  }

  ghost function Next<D>(s: State<D>, l: Label<D>): State<D>
    requires Enabled(s, l)
  {
    match l
    case Get(h, key, b) =>
      var slot := s.bufs[b];
      var slot' := if Cached(s, key) then slot.(refcnt := slot.refcnt + 1)
                   else slot.(key := key, valid := false, refcnt := 1);
      s.(bufs := s.bufs[b := slot'], handles := s.handles[h := Waiting(b, key)])
    case Lock(h) =>
      var b := s.handles[h].b;
      s.(bufs := s.bufs[b := s.bufs[b].(lock := Some(h))], handles := s.handles[h := Locked(b, s.handles[h].key)])
    case Fill(h) =>
      var b, key := s.handles[h].b, s.handles[h].key;
      var slot := s.bufs[b];
      var slot' := if slot.valid then slot else slot.(data := s.disk[key], valid := true);
      s.(bufs := s.bufs[b := slot'], handles := s.handles[h := Held(b, key, false)])
    case Modify(h, v) =>
      var b, key := s.handles[h].b, s.handles[h].key;
      s.(bufs := s.bufs[b := s.bufs[b].(data := v)], last := s.last[key := v],
         handles := s.handles[h := Held(b, key, true)])
    case Bwrite(h) =>
      var b, key := s.handles[h].b, s.handles[h].key;
      s.(disk := s.disk[key := s.bufs[b].data], handles := s.handles[h := Held(b, key, false)])
    case LogWrite(h) =>
      var b, key := s.handles[h].b, s.handles[h].key;
      var slot := s.bufs[b];
      s.(bufs := s.bufs[b := if key in s.pinned then slot else slot.(refcnt := slot.refcnt + 1)],
         pinned := s.pinned + {key}, handles := s.handles[h := Held(b, key, false)])
    case Install(h) =>
      var b, key := s.handles[h].b, s.handles[h].key;
      var slot := s.bufs[b];
      s.(bufs := s.bufs[b := slot.(refcnt := slot.refcnt - 1)], disk := s.disk[key := slot.data],
         pinned := s.pinned - {key}, handles := s.handles[h := Held(b, key, false)])
    case Unlock(h) =>
      var b := s.handles[h].b;
      s.(bufs := s.bufs[b := s.bufs[b].(lock := None)], handles := s.handles[h := Releasing(b, s.handles[h].key)])
    case Drop(h) =>
      var b := s.handles[h].b;
      s.(bufs := s.bufs[b := s.bufs[b].(refcnt := s.bufs[b].refcnt - 1)], handles := s.handles - {h})
  }

  // binit() on a freshly started machine; bytes in unused buffers are arbitrary.
  ghost predicate Init<D>(s: State<D>) {
    && s.handles == map[] && s.pinned == {} && s.disk == s.last
    && forall i :: 0 <= i < |s.bufs| ==> s.bufs[i].key == (0, 0) && !s.bufs[i].valid && s.bufs[i].refcnt == 0
                                         && s.bufs[i].lock.None?
  }

  ghost predicate IsRun<D>(ss: seq<State<D>>, ls: seq<Label<D>>) {
    && |ss| == |ls| + 1 && Init(ss[0])
    && forall i :: 0 <= i < |ls| ==> Follows(ss[i], ls[i], ss[i + 1])
  }

  ghost predicate Follows<D>(s: State<D>, l: Label<D>, t: State<D>) {
    Enabled(s, l) && t == Next(s, l)
  }

  // Callers of bget() not yet done with brelse() on buffer b: its holder, its waiters, and those releasing it.
  ghost function Users<D>(s: State<D>, b: nat): set<nat> {
    On(s.handles, b)
  }

  ghost function On(handles: map<nat, Handle>, b: nat): set<nat> {
    set h | h in handles && handles[h].b == b
  }

  ghost predicate Unique<D>(s: State<D>) {
    forall i, j :: 0 <= i < j < |s.bufs| && s.bufs[i].key == s.bufs[j].key ==> s.bufs[i].key.0 == 0
  }

  ghost predicate HandlesFit<D>(s: State<D>) {
    forall h :: h in s.handles ==>
      && s.handles[h].b < |s.bufs| && s.bufs[s.handles[h].b].key == s.handles[h].key
      && s.handles[h].key.0 != 0 && s.handles[h].key in s.disk
      && (s.handles[h].Held? ==> s.bufs[s.handles[h].b].valid)
  }

  ghost predicate LocksFit<D>(s: State<D>) {
    && (forall h :: At(s, h) ==>
          ((s.handles[h].Locked? || s.handles[h].Held?) <==> s.bufs[s.handles[h].b].lock == Some(h)))
    && (forall b :: 0 <= b < |s.bufs| && s.bufs[b].lock.Some? ==>
          At(s, s.bufs[b].lock.value) && s.handles[s.bufs[b].lock.value].b == b)
  }

  ghost predicate RefCounts<D>(s: State<D>) {
    forall b :: 0 <= b < |s.bufs| ==>
      s.bufs[b].refcnt == |Users(s, b)| + (if s.bufs[b].key in s.pinned then 1 else 0)
  }

  // The block is safe in a buffer that cannot be recycled.
  ghost predicate Kept<D>(s: State<D>, key: Key) {
    exists b :: 0 <= b < |s.bufs| && KeptIn(s, key, b)
  }

  ghost predicate KeptIn<D>(s: State<D>, key: Key, b: nat)
    requires b < |s.bufs|
  {
    && s.bufs[b].key == key && s.bufs[b].valid
    && (key in s.pinned || (s.bufs[b].lock.Some? && At(s, s.bufs[b].lock.value)
                            && s.handles[s.bufs[b].lock.value] == Held(b, key, true)))
  }

  ghost predicate Coherent<D>(s: State<D>) {
    && s.disk.Keys == s.last.Keys
    && (forall b :: 0 <= b < |s.bufs| && s.bufs[b].key.0 != 0 && s.bufs[b].valid ==>
          s.bufs[b].key in s.last && s.bufs[b].data == s.last[s.bufs[b].key])
    && (forall key :: key in s.disk && s.disk[key] != s.last[key] ==> Kept(s, key))
  }

  ghost predicate PinsFit<D>(s: State<D>) {
    forall key :: key in s.pinned ==>
        key.0 != 0 && exists b :: 0 <= b < |s.bufs| && s.bufs[b].key == key && s.bufs[b].valid
  }

  ghost predicate Inv<D>(s: State<D>) {
    Unique(s) && HandlesFit(s) && LocksFit(s) && RefCounts(s) && Coherent(s) && PinsFit(s)
  }

  // A buffer with no references has no users, no lock and nothing uncommitted in it.
  lemma {:induction false} UnusedIsFree<D>(s: State<D>, b: nat)
    requires RefCounts(s) && LocksFit(s) && b < |s.bufs| && s.bufs[b].refcnt == 0
    ensures forall h :: h in s.handles ==> s.handles[h].b != b
    ensures s.bufs[b].key !in s.pinned && s.bufs[b].lock.None?
  {
    assert |Users(s, b)| == 0;
    forall h | h in s.handles
      ensures s.handles[h].b != b
    {
      assert h in Users(s, b) <==> s.handles[h].b == b;
    }
  }

  lemma {:induction false} UniqueStep<D>(s: State<D>, l: Label<D>)
    requires Unique(s) && HandlesFit(s) && Enabled(s, l)
    ensures Unique(Next(s, l))
  {
  }

  lemma {:induction false} GetHandles<D>(s: State<D>, l: Label<D>)
    requires HandlesFit(s) && LocksFit(s) && RefCounts(s) && Enabled(s, l) && l.Get?
    ensures HandlesFit(Next(s, l))
  {
    if !Cached(s, l.key) {
      UnusedIsFree(s, l.b);
    }
  }

  lemma {:induction false} OtherHandles<D>(s: State<D>, l: Label<D>)
    requires HandlesFit(s) && Enabled(s, l) && !l.Get?
    ensures HandlesFit(Next(s, l))
  {
  }

  lemma {:induction false} GetLocks<D>(s: State<D>, l: Label<D>)
    requires HandlesFit(s) && LocksFit(s) && Enabled(s, l) && l.Get?
    ensures LocksFit(Next(s, l))
  {
    hide Cached;
  }

  lemma {:induction false} DropLocks<D>(s: State<D>, l: Label<D>)
    requires HandlesFit(s) && LocksFit(s) && Enabled(s, l) && l.Drop?
    ensures LocksFit(Next(s, l))
  {
  }

  lemma {:induction false} LockLocks<D>(s: State<D>, l: Label<D>)
    requires HandlesFit(s) && LocksFit(s) && Enabled(s, l) && l.Lock?
    ensures LocksFit(Next(s, l))
  {
  }

  lemma {:induction false} UnlockLocks<D>(s: State<D>, l: Label<D>)
    requires HandlesFit(s) && LocksFit(s) && Enabled(s, l) && l.Unlock?
    ensures LocksFit(Next(s, l))
  {
  }

  lemma {:induction false} UseLocks<D>(s: State<D>, l: Label<D>)
    requires HandlesFit(s) && LocksFit(s) && Enabled(s, l)
    requires l.Fill? || l.Modify? || l.Bwrite? || l.LogWrite? || l.Install?
    ensures LocksFit(Next(s, l))
  {
    hide LocksFit;
    var t, b := Next(s, l), s.handles[l.h].b;
    assert t.bufs == s.bufs[b := t.bufs[b]] && t.bufs[b].lock == s.bufs[b].lock;
    assert t.handles == s.handles[l.h := t.handles[l.h]] && t.handles[l.h].b == b;
    hide Next, HandlesFit;
    LocksKept(s, t, l.h);
  }

  // The holder h of a buffer goes on holding it.
  lemma {:induction false} LocksKept<D>(s: State<D>, t: State<D>, h: nat)
    requires LocksFit(s) && At(s, h) && h in t.handles && |t.bufs| == |s.bufs|
    requires var b := s.handles[h].b;
             && t.bufs == s.bufs[b := t.bufs[b]] && t.bufs[b].lock == s.bufs[b].lock
             && t.handles == s.handles[h := t.handles[h]] && t.handles[h].b == b
    requires (s.handles[h].Locked? || s.handles[h].Held?) && (t.handles[h].Locked? || t.handles[h].Held?)
    ensures LocksFit(t)
  {
  }

  lemma {:induction false} OnAdd(handles: map<nat, Handle>, h: nat, x: Handle, b: nat)
    requires h !in handles
    ensures |On(handles[h := x], b)| == |On(handles, b)| + if x.b == b then 1 else 0
  {
    if x.b == b {
      assert On(handles[h := x], b) == On(handles, b) + {h};
    } else {
      assert On(handles[h := x], b) == On(handles, b);
    }
  }

  lemma {:induction false} UsersSame<D>(s: State<D>, t: State<D>, h: nat, b: nat)
    requires h in s.handles && h in t.handles && t.handles == s.handles[h := t.handles[h]]
    requires t.handles[h].b == s.handles[h].b
    ensures Users(t, b) == Users(s, b)
  {
  }

  lemma {:induction false} HitCounts<D>(s: State<D>, l: Label<D>)
    requires RefCounts(s) && Enabled(s, l) && l.Get? && Cached(s, l.key)
    ensures RefCounts(Next(s, l))
  {
    hide On, Cached;
    var t := Next(s, l);
    forall b | 0 <= b < |t.bufs|
      ensures t.bufs[b].refcnt == |Users(t, b)| + (if t.bufs[b].key in t.pinned then 1 else 0)
    {
      OnAdd(s.handles, l.h, Waiting(l.b, l.key), b);
    }
  }

  lemma {:induction false} MissCounts<D>(s: State<D>, l: Label<D>)
    requires LocksFit(s) && RefCounts(s) && PinsFit(s) && Enabled(s, l) && l.Get? && !Cached(s, l.key)
    ensures RefCounts(Next(s, l))
  {
    var t := Next(s, l);
    UnusedIsFree(s, l.b);
    assert l.key !in s.pinned;
    forall b | 0 <= b < |t.bufs|
      ensures t.bufs[b].refcnt == |Users(t, b)| + (if t.bufs[b].key in t.pinned then 1 else 0)
    {
      assert Users(t, b) == if b == l.b then {l.h} else Users(s, b);
    }
  }

  lemma {:induction false} OtherCounts<D>(s: State<D>, l: Label<D>)
    requires HandlesFit(s) && RefCounts(s) && Unique(s) && Enabled(s, l) && !l.Get? && !l.Drop?
    ensures RefCounts(Next(s, l))
  {
    hide Users, Cached;
    var t := Next(s, l);
    forall b | 0 <= b < |t.bufs|
      ensures t.bufs[b].refcnt == |Users(t, b)| + (if t.bufs[b].key in t.pinned then 1 else 0)
    {
      UsersSame(s, t, l.h, b);
    }
  }

  lemma {:induction false} DropCounts<D>(s: State<D>, l: Label<D>)
    requires HandlesFit(s) && RefCounts(s) && Enabled(s, l) && l.Drop?
    ensures RefCounts(Next(s, l))
  {
    var t := Next(s, l);
    forall b | 0 <= b < |t.bufs|
      ensures t.bufs[b].refcnt == |Users(t, b)| + (if t.bufs[b].key in t.pinned then 1 else 0)
    {
      assert Users(t, b) == Users(s, b) - {l.h};
    }
  }

  lemma {:induction false} PinsStep<D>(s: State<D>, l: Label<D>)
    requires HandlesFit(s) && LocksFit(s) && RefCounts(s) && PinsFit(s) && Enabled(s, l)
    ensures PinsFit(Next(s, l))
  {
    var t := Next(s, l);
    if l.Get? && !Cached(s, l.key) {
      UnusedIsFree(s, l.b);
    }
    forall key | key in t.pinned
      ensures key.0 != 0 && exists b :: 0 <= b < |t.bufs| && t.bufs[b].key == key && t.bufs[b].valid
    {
      var b: nat;
      if key in s.pinned {
        b :| 0 <= b < |s.bufs| && s.bufs[b].key == key && s.bufs[b].valid;
      } else {
        b := s.handles[l.h].b;
      }
      assert t.bufs[b].key == key && t.bufs[b].valid;
    }
  }

  // A miss: what the recycled buffer held is on disk already.
  lemma {:induction false} MissCoherent<D>(s: State<D>, l: Label<D>)
    requires Inv(s) && Enabled(s, l) && l.Get? && !Cached(s, l.key)
    ensures Coherent(Next(s, l))
  {
    var t := Next(s, l);
    UnusedIsFree(s, l.b);
    forall key | key in t.disk && t.disk[key] != t.last[key]
      ensures Kept(t, key)
    {
      var b :| 0 <= b < |s.bufs| && KeptIn(s, key, b);
      assert KeptIn(t, key, b);
    }
  }

  // Steps that move no data: the same buffers stay kept.
  lemma {:induction false} ReferenceCoherent<D>(s: State<D>, l: Label<D>)
    requires HandlesFit(s) && LocksFit(s) && Coherent(s) && Enabled(s, l)
    requires (l.Get? && Cached(s, l.key)) || l.Drop?
    ensures Coherent(Next(s, l))
  {
    var t := Next(s, l);
    forall key | key in t.disk && t.disk[key] != t.last[key]
      ensures Kept(t, key)
    {
      var b :| 0 <= b < |s.bufs| && KeptIn(s, key, b);
      assert KeptIn(t, key, b);
    }
  }

  lemma {:induction false} LockCoherent<D>(s: State<D>, l: Label<D>)
    requires HandlesFit(s) && LocksFit(s) && Coherent(s) && Enabled(s, l) && (l.Lock? || l.Unlock?)
    ensures Coherent(Next(s, l))
  {
    var t := Next(s, l);
    forall key | key in t.disk && t.disk[key] != t.last[key]
      ensures Kept(t, key)
    {
      var b :| 0 <= b < |s.bufs| && KeptIn(s, key, b);
      assert KeptIn(t, key, b);
    }
  }

  lemma {:induction false} LogWriteCoherent<D>(s: State<D>, l: Label<D>)
    requires HandlesFit(s) && LocksFit(s) && Coherent(s) && Enabled(s, l) && l.LogWrite?
    ensures Coherent(Next(s, l))
  {
    var t := Next(s, l);
    forall key | key in t.disk && t.disk[key] != t.last[key]
      ensures Kept(t, key)
    {
      var b :| 0 <= b < |s.bufs| && KeptIn(s, key, b);
      assert KeptIn(t, key, b);
    }
  }

  lemma {:induction false} FillCoherent<D>(s: State<D>, l: Label<D>)
    requires Unique(s) && HandlesFit(s) && LocksFit(s) && Coherent(s) && Enabled(s, l) && l.Fill?
    ensures Coherent(Next(s, l))
  {
    assert s.bufs[s.handles[l.h].b].valid || s.disk[s.handles[l.h].key] == s.last[s.handles[l.h].key];
    var t := Next(s, l);
    forall key | key in t.disk && t.disk[key] != t.last[key]
      ensures Kept(t, key)
    {
      var b :| 0 <= b < |s.bufs| && KeptIn(s, key, b);
      assert KeptIn(t, key, b);
    }
  }

  lemma {:induction false} ModifyCoherent<D>(s: State<D>, l: Label<D>)
    requires Unique(s) && HandlesFit(s) && LocksFit(s) && Coherent(s) && Enabled(s, l) && l.Modify?
    ensures Coherent(Next(s, l))
  {
    var t := Next(s, l);
    forall key | key in t.disk && t.disk[key] != t.last[key]
      ensures Kept(t, key)
    {
      if key == s.handles[l.h].key {
        assert KeptIn(t, key, s.handles[l.h].b);
      } else {
        var b :| 0 <= b < |s.bufs| && KeptIn(s, key, b);
        assert KeptIn(t, key, b);
      }
    }
  }

  lemma {:induction false} WriteKept<D>(s: State<D>, l: Label<D>, key: Key, b: nat)
    requires HandlesFit(s) && Enabled(s, l) && (l.Bwrite? || l.Install?) && b < |s.bufs|
    requires KeptIn(s, key, b) && key != s.handles[l.h].key
    ensures KeptIn(Next(s, l), key, b)
  {
  }

  lemma {:induction false} WriteCoherent<D>(s: State<D>, l: Label<D>)
    requires Unique(s) && HandlesFit(s) && LocksFit(s) && Coherent(s) && Enabled(s, l) && (l.Bwrite? || l.Install?)
    ensures Coherent(Next(s, l))
  {
    hide KeptIn;
    var t := Next(s, l);
    assert s.bufs[s.handles[l.h].b].data == s.last[s.handles[l.h].key];
    hide HandlesFit, LocksFit, Unique;
    forall key | key in t.disk && t.disk[key] != t.last[key]
      ensures Kept(t, key)
    {
      var b :| 0 <= b < |s.bufs| && KeptIn(s, key, b);
      WriteKept(s, l, key, b);
    }
  }

  lemma {:induction false} StepKeepsInv<D>(s: State<D>, l: Label<D>)
    requires Inv(s) && Enabled(s, l)
    ensures Inv(Next(s, l))
  {
    UniqueStep(s, l);
    if l.Get? {
      GetHandles(s, l);
    } else {
      OtherHandles(s, l);
    }
    PinsStep(s, l);
    match l
    case Get(_, key, _) =>
      GetLocks(s, l);
      if Cached(s, key) {
        HitCounts(s, l);
        ReferenceCoherent(s, l);
      } else {
        MissCounts(s, l);
        MissCoherent(s, l);
      }
    case Lock(_) => LockLocks(s, l); OtherCounts(s, l); LockCoherent(s, l);
    case Unlock(_) => UnlockLocks(s, l); OtherCounts(s, l); LockCoherent(s, l);
    case Drop(_) => DropLocks(s, l); DropCounts(s, l); ReferenceCoherent(s, l);
    case LogWrite(_) => UseLocks(s, l); OtherCounts(s, l); LogWriteCoherent(s, l);
    case Fill(_) => UseLocks(s, l); OtherCounts(s, l); FillCoherent(s, l);
    case Modify(_, _) => UseLocks(s, l); OtherCounts(s, l); ModifyCoherent(s, l);
    case _ => UseLocks(s, l); OtherCounts(s, l); WriteCoherent(s, l);
  }

  lemma {:induction false} RunKeepsInv<D>(ss: seq<State<D>>, ls: seq<Label<D>>, k: nat)
    requires IsRun(ss, ls) && k < |ss|
    ensures Inv(ss[k])
  {
    if k > 0 {
      RunKeepsInv(ss, ls, k - 1);
      StepKeepsInv(ss[k - 1], ls[k - 1]);
    } else {
      InitInv(ss[0]);
    }
  }

  lemma {:induction false} InitInv<D>(s: State<D>)
    requires Init(s)
    ensures Inv(s)
  {
    forall b | 0 <= b < |s.bufs|
      ensures s.bufs[b].refcnt == |Users(s, b)| + (if s.bufs[b].key in s.pinned then 1 else 0)
    {
      assert Users(s, b) == {};
    }
  }

  /** The cache agrees with a plain disk. In every run in which each change to a held buffer is followed by
      bwrite or log_write before brelse, whoever holds a buffer after bread() holds the block asked for, and
      its contents are the last value written to that block by anyone. */
  lemma {:induction false} ReadsLastWritten<D>(ss: seq<State<D>>, ls: seq<Label<D>>, k: nat, h: nat)
    requires IsRun(ss, ls) && k < |ss| && h in ss[k].handles && ss[k].handles[h].Held?
    ensures var s, key, b := ss[k], ss[k].handles[h].key, ss[k].handles[h].b;
            && b < |s.bufs| && s.bufs[b].key == key && key in s.last
            && s.bufs[b].data == s.last[key]
            && forall g :: g in s.handles && s.handles[g].Held? && s.handles[g].key == key ==> g == h
  {
    RunKeepsInv(ss, ls, k);
    SoleHolder(ss[k], h);
  }

  lemma {:induction false} SoleHolder<D>(s: State<D>, h: nat)
    requires Unique(s) && HandlesFit(s) && LocksFit(s) && h in s.handles && s.handles[h].Held?
    ensures forall g :: g in s.handles && s.handles[g].Held? && s.handles[g].key == s.handles[h].key ==> g == h
  {
    forall g | g in s.handles && s.handles[g].Held? && s.handles[g].key == s.handles[h].key
      ensures g == h
    {
      assert s.bufs[s.handles[g].b].key == s.bufs[s.handles[h].b].key;
      assert s.handles[g].b == s.handles[h].b;
      assert At(s, g) && At(s, h);
    }
  }

  /** At most one buffer per block of a real device; a buffer's count is exactly its holders and waiters, plus
      one if and only if its block is in the log header. */
  lemma {:induction false} CountsExact<D>(ss: seq<State<D>>, ls: seq<Label<D>>, k: nat)
    requires IsRun(ss, ls) && k < |ss|
    ensures var s := ss[k];
            && (forall i, j :: 0 <= i < j < |s.bufs| && s.bufs[i].key == s.bufs[j].key ==> s.bufs[i].key.0 == 0)
            && (forall b :: 0 <= b < |s.bufs| ==>
                  s.bufs[b].refcnt == |Users(s, b)| + (if s.bufs[b].key in s.pinned then 1 else 0))
  {
    RunKeepsInv(ss, ls, k);
  }

  /** Eviction never drops an uncommitted block: a buffer bget() may recycle is not in the log, nobody uses it,
      and its block's last value is on disk. */
  lemma {:induction false} EvictionLosesNothing<D>(ss: seq<State<D>>, ls: seq<Label<D>>, k: nat, b: nat)
    requires IsRun(ss, ls) && k < |ss| && b < |ss[k].bufs| && ss[k].bufs[b].refcnt == 0
    ensures var s, key := ss[k], ss[k].bufs[b].key;
            && key !in s.pinned && Users(s, b) == {}
            && (key.0 != 0 && key in s.disk ==> key in s.last && s.disk[key] == s.last[key])
  {
    RunKeepsInv(ss, ls, k);
    UnusedIsFree(ss[k], b);
    var s, key := ss[k], ss[k].bufs[b].key;
    assert key.0 != 0 ==> !Kept(s, key);
  }
}
