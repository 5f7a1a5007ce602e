/** The request queue (kernel/virtio_disk.c) against the steps of a run: which requests are under way, and the order in
    which the device and the interrupt handler come upon them. */
module VirtioHistory {
  import opened Options
  import opened Virtio

  // The descriptors given to buffer buf, from its submission until virtio_disk_rw() returns.
  ghost function Submitted(ls: seq<Label>, buf: nat, n: nat): (r: Option<(nat, nat, nat)>)
    requires n <= |ls|
  {
    if n == 0 then None
    else
      match ls[n - 1]
      case Submit(x, a, b, c) => if x == buf then Some((a, b, c)) else Submitted(ls, buf, n - 1)
      case Finish(x) => if x == buf then None else Submitted(ls, buf, n - 1)
      case _ => Submitted(ls, buf, n - 1)
  }

  // The heads submitted, in order, and the buffers they were for; how many the device has taken up; the heads it has
  // finished, in order; and how many of these the interrupt handler has seen.
  ghost function Heads(ls: seq<Label>, n: nat): (r: seq<nat>)
    requires n <= |ls|
  {
    if n == 0 then [] else Heads(ls, n - 1) + if ls[n - 1].Submit? then [ls[n - 1].a] else []
  }

  ghost function Buffers(ls: seq<Label>, n: nat): (r: seq<nat>)
    requires n <= |ls|
    ensures |r| == |Heads(ls, n)|
  {
    if n == 0 then [] else Buffers(ls, n - 1) + if ls[n - 1].Submit? then [ls[n - 1].buf] else []
  }

  ghost function TakenBy(ls: seq<Label>, n: nat): (r: nat)
    requires n <= |ls|
  {
    if n == 0 then 0 else TakenBy(ls, n - 1) + if ls[n - 1].DevTake? then 1 else 0
  }

  ghost function Finished(ls: seq<Label>, n: nat): (r: seq<nat>)
    requires n <= |ls|
  {
    if n == 0 then [] else Finished(ls, n - 1) + if ls[n - 1].DevDone? then [ls[n - 1].h] else []
  }

  ghost function SeenBy(ls: seq<Label>, n: nat): (r: nat)
    requires n <= |ls|
  {
    if n == 0 then 0 else SeenBy(ls, n - 1) + if ls[n - 1].Intr? then 1 else 0
  }

  function Chain(s: State, buf: nat): (r: Option<(nat, nat, nat)>) {
    if buf in s.reqs then Some((s.reqs[buf].a, s.reqs[buf].b, s.reqs[buf].c)) else None
  }

  // What each step does to the records.
  lemma {:induction false} StepRecords(s: State, l: Label, t: State)
    requires Follows(s, l, t)
    ensures t.posted == s.posted + (if l.Submit? then [l.a] else [])
    ensures t.taken == s.taken + (if l.DevTake? then 1 else 0)
    ensures t.completed == s.completed + (if l.DevDone? then [l.h] else [])
    ensures t.seen == s.seen + (if l.Intr? then 1 else 0)
    ensures forall buf: nat :: Chain(t, buf) ==
              match l
              case Submit(x, a, b, c) => if x == buf then Some((a, b, c)) else Chain(s, buf)
              case Finish(x) => if x == buf then None else Chain(s, buf)
              case _ => Chain(s, buf)
  {
  }

  // A waiting head is that of the buffer submitted with it.
  ghost predicate HeadsFit(s: State, ls: seq<Label>, n: nat)
    requires n <= |ls|
  {
    forall k :: 0 <= k < |s.posted| && k < |Buffers(ls, n)| && s.taken <= k ==>
      Buffers(ls, n)[k] in s.reqs && s.reqs[Buffers(ls, n)[k]].a == s.posted[k]
                                  && s.reqs[Buffers(ls, n)[k]].phase.Posted?
  }

  lemma {:induction false} StepHeads(s: State, ls: seq<Label>, n: nat, t: State)
    requires 0 < n <= |ls| && Inv(s) && Follows(s, ls[n - 1], t) && HeadsFit(s, ls, n - 1)
    requires s.posted == Heads(ls, n - 1)
    ensures HeadsFit(t, ls, n)
  {
    hide Chains, Heads;
    var l := ls[n - 1];
    forall k | 0 <= k < |t.posted| && k < |Buffers(ls, n)| && t.taken <= k
      ensures var b := Buffers(ls, n)[k]; b in t.reqs && t.reqs[b].a == t.posted[k] && t.reqs[b].phase.Posted?
    {
      StepHead(s, ls, n, t, k);
    }
  }

  lemma {:induction false} StepHead(s: State, ls: seq<Label>, n: nat, t: State, k: nat)
    requires 0 < n <= |ls| && Inv(s) && Follows(s, ls[n - 1], t) && HeadsFit(s, ls, n - 1)
    requires s.posted == Heads(ls, n - 1) && k < |t.posted| && k < |Buffers(ls, n)| && t.taken <= k
    ensures var b := Buffers(ls, n)[k]; b in t.reqs && t.reqs[b].a == t.posted[k] && t.reqs[b].phase.Posted?
  {
    hide Heads;
    var l, b := ls[n - 1], Buffers(ls, n)[k];
    if k < |s.posted| {
      assert b == Buffers(ls, n - 1)[k] && b in s.reqs && s.reqs[b].a == s.posted[k];
      assert ReqOk(s, b);
      if l.DevTake? {
        TakesPosted(s);
        assert s.posted[s.taken] != s.posted[k];
      } else if l.DevDone? {
        var x :| x in s.reqs && s.reqs[x].a == l.h && s.reqs[x].phase.Taken?;
        assert ReqOk(s, x);
      } else if l.Intr? {
        SeesCompleted(s);
      }
    }
  }

  ghost predicate Agree(s: State, ls: seq<Label>, n: nat)
    requires n <= |ls|
  {
    && s.posted == Heads(ls, n) && s.taken == TakenBy(ls, n) && s.completed == Finished(ls, n)
    && s.seen == SeenBy(ls, n) && (forall buf: nat :: Chain(s, buf) == Submitted(ls, buf, n)) && HeadsFit(s, ls, n)
  }

  lemma {:induction false} RunAgrees(ss: seq<State>, ls: seq<Label>, n: nat)
    requires IsRun(ss, ls) && n < |ss|
    ensures Agree(ss[n], ls, n)
  {
    hide Inv, Follows, HeadsFit, Chain;
    if n == 0 {
      InitAgrees(ss[0], ls);
    } else {
      RunAgrees(ss, ls, n - 1);
      RunKeepsInv(ss, ls, n - 1);
      assert Follows(ss[n - 1], ls[n - 1], ss[n]);
      StepRecords(ss[n - 1], ls[n - 1], ss[n]);
      StepHeads(ss[n - 1], ls, n, ss[n]);
    }
  }

  lemma {:induction false} InitAgrees(s: State, ls: seq<Label>)
    requires Init(s)
    ensures Agree(s, ls, 0)
  {
  }

  /** In every run a buffer has its three descriptors exactly from its submission until virtio_disk_rw() returns: the
      ones it was given. */
  lemma {:induction false} RequestsAreSteps(ss: seq<State>, ls: seq<Label>, n: nat, buf: nat)
    requires IsRun(ss, ls) && n < |ss|
    ensures buf in ss[n].reqs <==> Submitted(ls, buf, n).Some?
    ensures buf in ss[n].reqs ==>
              Submitted(ls, buf, n) == Some((ss[n].reqs[buf].a, ss[n].reqs[buf].b, ss[n].reqs[buf].c))
  {
    RunAgrees(ss, ls, n);
    assert Chain(ss[n], buf) == Submitted(ls, buf, n);
    hide IsRun;
  }

  /** In every run the device takes requests up in the order in which they were submitted. */
  lemma {:induction false} TakenInOrder(ss: seq<State>, ls: seq<Label>, n: nat)
    requires IsRun(ss, ls) && n < |ls| && ls[n].DevTake?
    ensures TakenBy(ls, n) < |Buffers(ls, n)|
    ensures var b := Buffers(ls, n)[TakenBy(ls, n)];
            && b in ss[n].reqs && ss[n].reqs[b].phase.Posted? && b in ss[n + 1].reqs && ss[n + 1].reqs[b].phase.Taken?
  {
    hide Inv, Follows;
    RunAgrees(ss, ls, n);
    RunKeepsInv(ss, ls, n);
    TakenOnce(ss, ls, n);
    var s := ss[n];
    var b := Buffers(ls, n)[s.taken];
    HeadIsBuffer(s, b);
  }

  lemma {:induction false} HeadIsBuffer(s: State, b: nat)
    requires Inv(s) && b in s.reqs
    ensures s.reqs[b].a < NUM && s.user[s.reqs[b].a] == Some(b)
  {
    assert ReqOk(s, b);
  }

  /** In every run the interrupt handler completes requests in the order in which the device finished them. */
  lemma {:induction false} SeenInOrder(ss: seq<State>, ls: seq<Label>, n: nat)
    requires IsRun(ss, ls) && n < |ls| && ls[n].Intr?
    ensures SeenBy(ls, n) < |Finished(ls, n)|
    ensures var h := Finished(ls, n)[SeenBy(ls, n)];
            && Sized(ss[n]) && h < NUM && ss[n].info[h].b.Some?
            && var b := ss[n].info[h].b.value;
               b in ss[n].reqs && ss[n].reqs[b].a == h && b in ss[n + 1].reqs && ss[n + 1].reqs[b].phase.Done?
  {
    hide Chains, Follows;
    RunAgrees(ss, ls, n);
    RunKeepsInv(ss, ls, n);
    assert Follows(ss[n], ls[n], ss[n + 1]);
    CompletedOnce(ss, ls, n);
    IntrSees(ss[n], ls[n], ss[n + 1]);
  }

  lemma {:induction false} IntrSees(s: State, l: Label, t: State)
    requires Inv(s) && Follows(s, l, t) && l.Intr?
    ensures s.seen < |s.completed| && s.used[s.didx % 8] == s.completed[s.seen]
  {
    hide Chains;
    SeesCompleted(s);
  }
}
