/** The buffer cache (kernel/bio.c) against the calls of a run: which block a caller asked for, what was last written to
    it, what was last sent to the disk and what is in the log, told from the steps alone. */
module BufferHistory {
  import opened Options
  import opened BufferCache

  // The block caller h has asked bread() for and not yet given back, after n steps.
  ghost function Asked<D>(ls: seq<Label<D>>, h: nat, n: nat): (r: Option<Key>)
    requires n <= |ls|
  {
    if n == 0 then None
    else
      match ls[n - 1]
      case Get(g, key, _) => if g == h then Some(key) else Asked(ls, h, n - 1)
      case Drop(g) => if g == h then None else Asked(ls, h, n - 1)
      case _ => Asked(ls, h, n - 1)
  }

  // Step n is by somebody who has asked for block key.
  ghost predicate On<D>(ls: seq<Label<D>>, key: Key, n: nat)
    requires n < |ls|
  {
    Asked(ls, ls[n].h, n) == Some(key)
  }

  // What was last put into a buffer of the block, or what the disk held at the start...
  ghost function LastModified<D>(was: D, ls: seq<Label<D>>, key: Key, n: nat): (r: D)
    requires n <= |ls|
  {
    if n == 0 then was
    else if ls[n - 1].Modify? && On(ls, key, n - 1) then ls[n - 1].v
    else LastModified(was, ls, key, n - 1)
  }

  // ...and what of that was last sent to the disk, by bwrite() or by the log's install.
  ghost function LastSent<D>(was: D, ls: seq<Label<D>>, key: Key, n: nat): (r: D)
    requires n <= |ls|
  {
    if n == 0 then was
    else if (ls[n - 1].Bwrite? || ls[n - 1].Install?) && On(ls, key, n - 1) then LastModified(was, ls, key, n - 1)
    else LastSent(was, ls, key, n - 1)
  }

  // The block has been given to log_write() and not been installed since.
  ghost predicate InLog<D>(ls: seq<Label<D>>, key: Key, n: nat)
    requires n <= |ls|
  {
    n > 0 && if ls[n - 1].LogWrite? && On(ls, key, n - 1) then true
             else if ls[n - 1].Install? && On(ls, key, n - 1) then false
             else InLog(ls, key, n - 1)
  }

  ghost predicate Agree<D>(s: State<D>, ls: seq<Label<D>>, n: nat, disk0: map<Key, D>)
    requires n <= |ls|
  {
    && s.last.Keys == s.disk.Keys == disk0.Keys
    && (forall h :: h in s.handles <==> Asked(ls, h, n).Some?)
    && (forall h :: h in s.handles ==> Asked(ls, h, n) == Some(s.handles[h].key))
    && (forall key :: key in s.last ==> s.last[key] == LastModified(disk0[key], ls, key, n))
    && (forall key :: key in s.disk ==> s.disk[key] == LastSent(disk0[key], ls, key, n))
    && (forall key :: key in s.pinned <==> InLog(ls, key, n))
  }

  // What a step does to who asks for what...
  ghost predicate HandlesStep<D>(s: State<D>, l: Label<D>, t: State<D>) {
    && (l.Get? <==> l.h !in s.handles)
    && (l.Get? ==> t.handles.Keys == s.handles.Keys + {l.h} && t.handles[l.h].key == l.key)
    && (!l.Get? && !l.Drop? ==> t.handles.Keys == s.handles.Keys && t.handles[l.h].key == s.handles[l.h].key)
    && (l.Drop? ==> t.handles.Keys == s.handles.Keys - {l.h})
    && (forall g :: g in s.handles && g != l.h ==> g in t.handles && t.handles[g] == s.handles[g])
  }

  // ...and to the values and the log.
  ghost predicate ValuesStep<D>(s: State<D>, l: Label<D>, t: State<D>)
    requires !l.Get? ==> l.h in s.handles
  {
    && t.last.Keys == s.last.Keys && t.disk.Keys == s.disk.Keys
    && (!l.Modify? ==> t.last == s.last) && (!l.Bwrite? && !l.Install? ==> t.disk == s.disk)
    && (!l.LogWrite? && !l.Install? ==> t.pinned == s.pinned)
    && (!l.Get? ==>
          var key := s.handles[l.h].key;
          && key in s.last && (l.Modify? ==> t.last == s.last[key := l.v])
          && (l.Bwrite? || l.Install? ==> t.disk == s.disk[key := s.last[key]])
          && (l.LogWrite? ==> t.pinned == s.pinned + {key}) && (l.Install? ==> t.pinned == s.pinned - {key}))
  }

  lemma {:induction false} StepHandles<D>(s: State<D>, l: Label<D>, t: State<D>)
    requires Inv(s) && Follows(s, l, t)
    ensures HandlesStep(s, l, t)
  {
    hide Unique, LocksFit, RefCounts, Coherent, PinsFit;
  }

  lemma {:induction false} StepValues<D>(s: State<D>, l: Label<D>, t: State<D>)
    requires Inv(s) && Follows(s, l, t) && HandlesStep(s, l, t)
    ensures ValuesStep(s, l, t)
  {
    hide Unique, LocksFit, RefCounts, PinsFit, HandlesStep;
    if l.Bwrite? || l.Install? {
      var b := s.handles[l.h].b;
      assert s.bufs[b].valid && s.bufs[b].key == s.handles[l.h].key;
    }
  }

  lemma {:induction false} RunAgrees<D>(ss: seq<State<D>>, ls: seq<Label<D>>, n: nat)
    requires IsRun(ss, ls) && n < |ss|
    ensures Agree(ss[n], ls, n, ss[0].disk)
  {
    hide Inv, Follows, HandlesStep, ValuesStep;
    if n > 0 {
      RunAgrees(ss, ls, n - 1);
      RunKeepsInv(ss, ls, n - 1);
      assert Follows(ss[n - 1], ls[n - 1], ss[n]);
      StepHandles(ss[n - 1], ls[n - 1], ss[n]);
      StepValues(ss[n - 1], ls[n - 1], ss[n]);
      StepAgrees(ss[n - 1], ls, n, ss[n], ss[0].disk);
    }
  }

  lemma {:induction false} StepAgrees<D>(s: State<D>, ls: seq<Label<D>>, n: nat, t: State<D>, disk0: map<Key, D>)
    requires 0 < n <= |ls| && Agree(s, ls, n - 1, disk0)
    requires HandlesStep(s, ls[n - 1], t) && ValuesStep(s, ls[n - 1], t)
    ensures Agree(t, ls, n, disk0)
  {
  }

  /** In every run whoever holds a buffer holds the block it asked for, and sees the last value anyone put into a buffer
      of that block; the disk holds the last value sent to it by bwrite() or by an install; and a block is pinned
      exactly from log_write() to its install. */
  lemma {:induction false} CacheIsSteps<D>(ss: seq<State<D>>, ls: seq<Label<D>>, n: nat)
    requires IsRun(ss, ls) && n < |ss|
    ensures forall h :: h in ss[n].handles <==> Asked(ls, h, n).Some?
    ensures forall h :: h in ss[n].handles && ss[n].handles[h].Held? ==>
              var key, b := ss[n].handles[h].key, ss[n].handles[h].b;
              && Asked(ls, h, n) == Some(key) && b < |ss[n].bufs| && key in ss[0].disk
              && ss[n].bufs[b].data == LastModified(ss[0].disk[key], ls, key, n)
    ensures forall key :: key in ss[0].disk ==>
              key in ss[n].disk && ss[n].disk[key] == LastSent(ss[0].disk[key], ls, key, n)
    ensures forall key :: key in ss[n].pinned <==> InLog(ls, key, n)
  {
    RunAgrees(ss, ls, n);
    forall h | h in ss[n].handles && ss[n].handles[h].Held?
      ensures var key, b := ss[n].handles[h].key, ss[n].handles[h].b;
              && Asked(ls, h, n) == Some(key) && b < |ss[n].bufs| && key in ss[0].disk
              && ss[n].bufs[b].data == LastModified(ss[0].disk[key], ls, key, n)
    {
      ReadsLastWritten(ss, ls, n, h);
    }
    hide IsRun;
  }
}
