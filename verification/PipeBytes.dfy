/** Which bytes go through a pipe (kernel/pipe.c): the pipe's record of them against what the callers of pipewrite()
    were given, told from the steps of the run alone. */
module PipeBytes {
  import opened Options
  import opened Bytes
  import opened Pipe

  // What process p was given to write, by its last call of pipewrite() among the first n steps...
  ghost function Given(ls: seq<Label>, p: nat, n: nat): (r: seq<byte>)
    requires n <= |ls|
  {
    if n == 0 then []
    else if ls[n - 1].WriteBegin? && ls[n - 1].p == p then ls[n - 1].src
    else Given(ls, p, n - 1)
  }

  // ...and how many bytes it has put into the ring since.
  ghost function Count(ls: seq<Label>, p: nat, n: nat): (r: nat)
    requires n <= |ls|
  {
    if n == 0 then 0
    else if ls[n - 1].WriteBegin? && ls[n - 1].p == p then 0
    else Count(ls, p, n - 1) + if ls[n - 1].WriteByte? && ls[n - 1].p == p then 1 else 0
  }

  // What is to go through the pipe: at each WriteByte the next byte of what its process was given.
  ghost function Sent(ls: seq<Label>, n: nat): (r: seq<byte>)
    requires n <= |ls|
  {
    if n == 0 then []
    else
      var l := ls[n - 1];
      Sent(ls, n - 1) +
      if l.WriteByte? && Count(ls, l.p, n - 1) < |Given(ls, l.p, n - 1)| then
        [Given(ls, l.p, n - 1)[Count(ls, l.p, n - 1)]]
      else []
  }

  // What the pipe's record has gained at p's steps since p's last call.
  ghost function Added(ss: seq<State>, ls: seq<Label>, p: nat, n: nat): (r: seq<byte>)
    requires n <= |ls| < |ss|
  {
    if n == 0 then []
    else if ls[n - 1].WriteBegin? && ls[n - 1].p == p then []
    else
      var was, now := ss[n - 1].produced, ss[n].produced;
      Added(ss, ls, p, n - 1) +
      if ls[n - 1].WriteByte? && ls[n - 1].p == p && |was| <= |now| then now[|was|..] else []
  }

  // A process inside pipewrite() knows what it was given and how far it is.
  ghost predicate Keeps(s: State, p: nat, src: seq<byte>, i: nat) {
    p < |s.pcs| && InWrite(s.pcs[p]) ==> s.pcs[p].src == src && s.pcs[p].i == i <= |src|
  }

  lemma {:induction false} StepKeeps(s: State, l: Label, t: State, p: nat, src: seq<byte>, i: nat)
    requires Follows(s, l, t) && Keeps(s, p, src, i) && |t.pcs| == |s.pcs|
    ensures l.WriteBegin? && l.p == p ==> Keeps(t, p, l.src, 0)
    ensures l.WriteByte? && l.p == p ==> Keeps(t, p, src, i + 1) && i < |src|
    ensures !(l.WriteBegin? && l.p == p) && !(l.WriteByte? && l.p == p) ==> Keeps(t, p, src, i)
  {
  }

  lemma {:induction false} StepSize(s: State, l: Label, t: State)
    requires Follows(s, l, t)
    ensures |t.pcs| == |s.pcs|
    ensures !l.WriteByte? ==> t.produced == s.produced
  {
  }

  lemma {:induction false} StepAdds(s: State, l: Label, t: State, src: seq<byte>, i: nat)
    requires Follows(s, l, t) && l.WriteByte? && Keeps(s, l.p, src, i)
    ensures i < |src| && t.produced == s.produced + [src[i]]
  {
  }

  lemma {:induction false} RunKeeps(ss: seq<State>, ls: seq<Label>, p: nat, n: nat)
    requires IsRun(ss, ls) && n < |ss|
    ensures Keeps(ss[n], p, Given(ls, p, n), Count(ls, p, n)) && Count(ls, p, n) <= |Given(ls, p, n)|
  {
    hide Follows, Keeps;
    if n == 0 {
      InitKeeps(ss[0], p);
    } else {
      RunKeeps(ss, ls, p, n - 1);
      assert Follows(ss[n - 1], ls[n - 1], ss[n]);
      StepSize(ss[n - 1], ls[n - 1], ss[n]);
      StepKeeps(ss[n - 1], ls[n - 1], ss[n], p, Given(ls, p, n - 1), Count(ls, p, n - 1));
    }
  }

  lemma {:induction false} InitKeeps(s: State, p: nat)
    requires Init(s)
    ensures Keeps(s, p, [], 0)
  {
  }

  /** In every run, at every point, the bytes a process has put into the pipe since it called pipewrite() are the first
      bytes it was given, in order; a pipewrite() that ends by itself has put in all of them. */
  lemma {:induction false} WritersInOrder(ss: seq<State>, ls: seq<Label>, p: nat, n: nat)
    requires IsRun(ss, ls) && n < |ss|
    ensures Count(ls, p, n) <= |Given(ls, p, n)| && Added(ss, ls, p, n) == Given(ls, p, n)[..Count(ls, p, n)]
    ensures n < |ls| && ls[n] == WriteEnd(p, false) ==> Added(ss, ls, p, n) == Given(ls, p, n)
  {
    hide Follows, Keeps;
    RunKeeps(ss, ls, p, n);
    if n > 0 {
      WritersInOrder(ss, ls, p, n - 1);
      RunKeeps(ss, ls, p, n - 1);
      assert Follows(ss[n - 1], ls[n - 1], ss[n]);
      if ls[n - 1].WriteByte? && ls[n - 1].p == p {
        StepAdds(ss[n - 1], ls[n - 1], ss[n], Given(ls, p, n - 1), Count(ls, p, n - 1));
      }
    }
    if n < |ls| && ls[n] == WriteEnd(p, false) {
      assert Follows(ss[n], ls[n], ss[n + 1]);
      EndsFull(ss[n], p, ss[n + 1], Given(ls, p, n), Count(ls, p, n));
    }
  }

  lemma {:induction false} EndsFull(s: State, p: nat, t: State, src: seq<byte>, i: nat)
    requires Follows(s, WriteEnd(p, false), t) && Keeps(s, p, src, i)
    ensures i == |src|
  {
  }

  /** In every run what has gone into the pipe is the interleaving, in the order of the steps, of what the writers were
      given; what has come out is a prefix of it. */
  lemma {:induction false} ProducedIsSent(ss: seq<State>, ls: seq<Label>, n: nat)
    requires IsRun(ss, ls) && n < |ss|
    ensures ss[n].produced == Sent(ls, n) && ss[n].consumed <= Sent(ls, n)
  {
    hide Follows, Keeps;
    PrefixDelivered(ss, ls, n);
    if n > 0 {
      ProducedIsSent(ss, ls, n - 1);
      var l := ls[n - 1];
      assert Follows(ss[n - 1], l, ss[n]);
      StepSize(ss[n - 1], l, ss[n]);
      if l.WriteByte? {
        RunKeeps(ss, ls, l.p, n - 1);
        StepAdds(ss[n - 1], l, ss[n], Given(ls, l.p, n - 1), Count(ls, l.p, n - 1));
      }
    }
  }

  // What earlier calls of pipewrite() by p put in, one after the other.
  ghost function Finished(ls: seq<Label>, p: nat, n: nat): (r: seq<byte>)
    requires n <= |ls|
  {
    if n == 0 then []
    else
      Finished(ls, p, n - 1) +
      if ls[n - 1].WriteBegin? && ls[n - 1].p == p && Count(ls, p, n - 1) <= |Given(ls, p, n - 1)| then
        Given(ls, p, n - 1)[..Count(ls, p, n - 1)]
      else []
  }

  // Nobody but p calls pipewrite().
  ghost predicate OnlyWriter(ls: seq<Label>, p: nat) {
    forall k :: 0 <= k < |ls| && ls[k].WriteBegin? ==> ls[k].p == p
  }

  lemma {:induction false} OthersGivenNothing(ls: seq<Label>, p: nat, q: nat, n: nat)
    requires OnlyWriter(ls, p) && q != p && n <= |ls|
    ensures Given(ls, q, n) == []
  {
    if n > 0 {
      OthersGivenNothing(ls, p, q, n - 1);
    }
  }

  /** With a single writer the pipe delivers what its calls wrote, one after the other. */
  lemma {:induction false} SingleWriter(ss: seq<State>, ls: seq<Label>, p: nat, n: nat)
    requires IsRun(ss, ls) && n < |ss| && OnlyWriter(ls, p)
    ensures Count(ls, p, n) <= |Given(ls, p, n)|
    ensures ss[n].produced == Finished(ls, p, n) + Given(ls, p, n)[..Count(ls, p, n)]
    ensures ss[n].consumed <= Finished(ls, p, n) + Given(ls, p, n)[..Count(ls, p, n)]
  {
    hide Follows, Keeps;
    ProducedIsSent(ss, ls, n);
    RunKeeps(ss, ls, p, n);
    if n > 0 {
      SingleWriter(ss, ls, p, n - 1);
      ProducedIsSent(ss, ls, n - 1);
      var l := ls[n - 1];
      if l.WriteByte? && l.p != p {
        OthersGivenNothing(ls, p, l.p, n - 1);
      }
    }
  }

  // ---- Readers ----

  // The step at which p's current piperead() began to copy.
  ghost function CopyStart(ls: seq<Label>, p: nat, n: nat): (r: nat)
    requires n <= |ls|
    ensures r <= n
  {
    if n == 0 then 0
    else if ls[n - 1].ReadStart? && ls[n - 1].p == p then n
    else CopyStart(ls, p, n - 1)
  }

  // Nothing else comes out of the pipe while a process copies.
  lemma {:induction false} StepTakes(s: State, l: Label, t: State, p: nat)
    requires Inv(s) && Follows(s, l, t) && p < |t.pcs| == |s.pcs| && t.pcs[p].Copy?
    ensures l.ReadStart? && l.p == p ==> t.pcs[p].i == 0
    ensures !(l.ReadStart? && l.p == p) ==> s.pcs[p].Copy?
    ensures l.ReadByte? && s.pcs[p].Copy? ==> t.pcs[p].i == s.pcs[p].i + 1 && |t.consumed| == |s.consumed| + 1
    ensures !l.ReadByte? && s.pcs[p].Copy? ==> t.pcs[p].i == s.pcs[p].i
    ensures !l.ReadByte? ==> t.consumed == s.consumed
    ensures s.consumed <= t.consumed
  {
  }

  /** In every run a read() gets consecutive bytes of the stream: whoever is copying has taken exactly the bytes that
      came out of the pipe since it started, one for each turn of its loop. */
  lemma {:induction false} ReadIsContiguous(ss: seq<State>, ls: seq<Label>, p: nat, n: nat)
    requires IsRun(ss, ls) && n < |ss| && p < |ss[n].pcs| && ss[n].pcs[p].Copy?
    ensures ss[CopyStart(ls, p, n)].consumed <= ss[n].consumed <= ss[n].produced
    ensures |ss[n].consumed| == |ss[CopyStart(ls, p, n)].consumed| + ss[n].pcs[p].i
  {
    hide Follows, Inv;
    PrefixDelivered(ss, ls, n);
    if n > 0 {
      RunKeepsInv(ss, ls, n - 1);
      assert Follows(ss[n - 1], ls[n - 1], ss[n]);
      StepSize(ss[n - 1], ls[n - 1], ss[n]);
      StepTakes(ss[n - 1], ls[n - 1], ss[n], p);
      if !(ls[n - 1].ReadStart? && ls[n - 1].p == p) {
        ReadIsContiguous(ss, ls, p, n - 1);
      }
    }
  }
}
