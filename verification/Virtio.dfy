/** The request queue of kernel/virtio_disk.c: driver, device and interrupt handler as interleaved steps over the split
    virtqueue of section 2.6 of VirtIO 1.1. Ring indices are 16 bits and wrap. */
module Virtio {
  import opened Options

  const NUM: nat := 8
  const WRAP: nat := 65536

  // A struct virtq_desc: VRING_DESC_F_NEXT and next.
  datatype Desc = Desc(more: bool, next: nat)

  // info[i]: the buffer of the chain headed by i, and the byte the device writes.
  datatype Info = Info(b: Option<nat>, status: nat)

  // Where a request is: in the avail ring, with the device, in the used ring, or seen by the interrupt handler.
  datatype Phase = Posted | Taken | Completed | Done

  datatype Req = Req(a: nat, b: nat, c: nat, phase: Phase)

  // aidx, uidx and didx are avail->idx, used->idx and used_idx; lidx is how far the device has read. reqs are the
  // buffers with b->disk set or not yet collected. posted and completed record all heads ever put in either ring,
  // taken and seen how many have been read from it; user names the buffer whose chain a descriptor is in.
  datatype State = State(
    free: seq<bool>, desc: seq<Desc>, info: seq<Info>, avail: seq<nat>, used: seq<nat>,
    aidx: nat, lidx: nat, uidx: nat, didx: nat, reqs: map<nat, Req>,
    posted: seq<nat>, taken: nat, completed: seq<nat>, seen: nat, user: seq<Option<nat>>)

  datatype Label =
    | Submit(buf: nat, a: nat, b: nat, c: nat)
    | DevTake
    | DevDone(h: nat)
    | Intr
    | Finish(buf: nat)

  ghost predicate Sized(s: State) {
    && |s.free| == NUM && |s.desc| == NUM && |s.info| == NUM && |s.avail| == NUM && |s.used| == NUM && |s.user| == NUM
  }

  ghost predicate Enabled(s: State, l: Label) {
    && Sized(s)
    && match l
       // alloc3_desc() found three free descriptors.
       case Submit(buf, a, b, c) => buf !in s.reqs && a < NUM && b < NUM && c < NUM && a != b && b != c && a != c
           && s.free[a] && s.free[b] && s.free[c]
       case DevTake => s.lidx != s.aidx
       case DevDone(h) => h < NUM && exists buf :: buf in s.reqs && s.reqs[buf].a == h && s.reqs[buf].phase.Taken?
       case Intr => s.didx != s.uidx && s.used[s.didx % NUM] < NUM
       case Finish(buf) =>
         && buf in s.reqs && s.reqs[buf].phase.Done?
         && s.reqs[buf].a < NUM && s.reqs[buf].b < NUM && s.reqs[buf].c < NUM
  }

  // The buffer whose chain head h starts.
  ghost function BufOf(s: State, h: nat): (b: nat)
    requires h < |s.info|
  {
    if s.info[h].b.Some? then s.info[h].b.value else 0
  }

  ghost function SetPhase(s: State, buf: nat, ph: Phase): (t: State) {
    if buf in s.reqs then s.(reqs := s.reqs[buf := s.reqs[buf].(phase := ph)]) else s
  }

  ghost function Next(s: State, l: Label): (t: State)
    requires Enabled(s, l)
  {
    match l
    case Submit(buf, a, b, c) =>
      s.(free := s.free[a := false][b := false][c := false],
         desc := s.desc[a := Desc(true, b)][b := Desc(true, c)][c := Desc(false, 0)],
         info := s.info[a := Info(Some(buf), 0xff)],
         avail := s.avail[s.aidx % NUM := a], aidx := (s.aidx + 1) % WRAP, posted := s.posted + [a],
         reqs := s.reqs[buf := Req(a, b, c, Posted)],
         user := s.user[a := Some(buf)][b := Some(buf)][c := Some(buf)])
    case DevTake =>
      var h := s.avail[s.lidx % NUM];
      SetPhase(s, if h < NUM then BufOf(s, h) else 0, Taken).(lidx := (s.lidx + 1) % WRAP, taken := s.taken + 1)
    case DevDone(h) =>
      SetPhase(s, BufOf(s, h), Completed).(
        info := s.info[h := s.info[h].(status := 0)], used := s.used[s.uidx % NUM := h], uidx := (s.uidx + 1) % WRAP,
        completed := s.completed + [h])
    case Intr =>
      SetPhase(s, BufOf(s, s.used[s.didx % NUM]), Done).(didx := (s.didx + 1) % WRAP, seen := s.seen + 1)
    case Finish(buf) =>
      var r := s.reqs[buf];
      s.(info := s.info[r.a := s.info[r.a].(b := None)],
         free := s.free[r.a := true][r.b := true][r.c := true],
         desc := s.desc[r.a := Desc(false, 0)][r.b := Desc(false, 0)][r.c := Desc(false, 0)],
         reqs := s.reqs - {buf},
         user := s.user[r.a := None][r.b := None][r.c := None])
  }

  // After virtio_disk_init(); the rings' idx fields start at zero.
  ghost predicate Init(s: State) {
    && Sized(s) && (forall i :: 0 <= i < NUM ==> s.free[i] && s.user[i].None?)
    && s.aidx == s.lidx == s.uidx == s.didx == 0 && s.reqs == map[]
    && s.posted == [] && s.completed == [] && s.taken == s.seen == 0
  }

  ghost predicate Follows(s: State, l: Label, t: State) {
    Enabled(s, l) && t == Next(s, l)
  }

  ghost predicate IsRun(ss: seq<State>, ls: seq<Label>) {
    && |ss| == |ls| + 1 && Init(ss[0])
    && forall i :: 0 <= i < |ls| ==> Follows(ss[i], ls[i], ss[i + 1])
  }

  // ---- descriptors

  // The chain of a request is in place, belongs to it alone, and its head names its buffer.
  ghost predicate ReqOk(s: State, buf: nat)
    requires Sized(s) && buf in s.reqs
  {
    var r := s.reqs[buf];
    && r.a < NUM && r.b < NUM && r.c < NUM && r.a != r.b && r.b != r.c && r.a != r.c
    && s.user[r.a] == Some(buf) && s.user[r.b] == Some(buf) && s.user[r.c] == Some(buf)
    && s.desc[r.a] == Desc(true, r.b) && s.desc[r.b] == Desc(true, r.c) && s.desc[r.c] == Desc(false, 0)
    && s.info[r.a].b == Some(buf)
    && (r.phase.Completed? || r.phase.Done? ==> s.info[r.a].status == 0)
  }

  // A descriptor is free or in one request's chain.
  ghost predicate DescOk(s: State, i: nat)
    requires Sized(s) && i < NUM
  {
    && (s.free[i] <==> s.user[i].None?)
    && (s.user[i].Some? ==>
          s.user[i].value in s.reqs
              && (i == s.reqs[s.user[i].value].a || i == s.reqs[s.user[i].value].b || i == s.reqs[s.user[i].value].c))
  }

  ghost predicate Chains(s: State)
    requires Sized(s)
  {
    && (forall buf {:trigger ReqOk(s, buf)} :: buf in s.reqs ==> ReqOk(s, buf))
    && (forall i {:trigger DescOk(s, i)} :: 0 <= i < NUM ==> DescOk(s, i))
  }

  // ---- rings

  // Position p of a ring's history holds the head of a request in the given phase.
  ghost predicate HeadOf(s: State, h: nat, ph: Phase)
    requires Sized(s)
  {
    h < NUM && s.user[h].Some? && s.user[h].value in s.reqs && s.reqs[s.user[h].value].a == h
        && s.reqs[s.user[h].value].phase == ph
  }

  ghost predicate Distinct(q: seq<nat>, from: nat) {
    forall i, j :: from <= i < j < |q| ==> q[i] != q[j]
  }

  // One ring: entries from .. |q| - 1 of the history are in the slots and are the heads in phase ph.
  ghost predicate RingOk(s: State, ring: seq<nat>, q: seq<nat>, from: nat, ph: Phase)
    requires Sized(s) && |ring| == NUM
  {
    && from <= |q| && Distinct(q, from)
    && (forall p {:trigger q[p]} :: from <= p < |q| ==> ring[p % 8] == q[p] && HeadOf(s, q[p], ph))
  }

  ghost predicate Rings(s: State)
    requires Sized(s)
  {
    && RingOk(s, s.avail, s.posted, s.taken, Posted) && RingOk(s, s.used, s.completed, s.seen, Completed)
    && s.aidx == |s.posted| % 65536 && s.lidx == s.taken % 65536
    && s.uidx == |s.completed| % 65536 && s.didx == s.seen % 65536
  }

  ghost predicate Inv(s: State) {
    Sized(s) && Chains(s) && Rings(s)
  }

  lemma {:induction false} CardBelow(xs: set<nat>, k: nat)
    requires forall x :: x in xs ==> x < k
    ensures |xs| <= k
  {
    if k == 0 {
      assert xs == {};
    } else if k - 1 in xs {
      CardBelow(xs - {k - 1}, k - 1);
      assert |xs - {k - 1}| == |xs| - 1;
    } else {
      CardBelow(xs, k - 1);
    }
  }

  // The entries from .. |q| - 1 as a set.
  lemma {:induction false} Gather(q: seq<nat>, from: nat) returns (hs: set<nat>)
    requires from <= |q| && Distinct(q, from)
    ensures |hs| == |q| - from && forall x :: x in hs <==> x in q[from..]
    decreases |q| - from
  {
    if from == |q| {
      hs := {};
    } else {
      var rest := Gather(q, from + 1);
      assert q[from..] == [q[from]] + q[from + 1..];
      hs := rest + {q[from]};
    }
  }

  // Distinct descriptor numbers outside a set are few.
  lemma {:induction false} FewDistinct(q: seq<nat>, from: nat, out: set<nat>)
    requires from <= |q| && Distinct(q, from) && forall x :: x in out ==> x < 8
    requires forall p {:trigger q[p]} :: from <= p < |q| ==> q[p] < 8 && q[p] !in out
    ensures |q| - from + |out| <= 8
  {
    var hs := Gather(q, from);
    forall x | x in hs
      ensures x < 8 && x !in out
    {
      var p :| 0 <= p < |q[from..]| && q[from..][p] == x;
      assert q[from + p] == x;
    }
    CardBelow(hs + out, 8);
    assert |hs + out| == |hs| + |out|;
  }

  // Positions less than eight apart have different slots, and the 16-bit indices tell them apart.
  lemma {:induction false} SlotsApart(p: nat, n: nat)
    requires p < n < p + 8
    ensures p % 8 != n % 8 && p % 65536 != n % 65536
  {
  }

  lemma {:induction false} IndexNext(n: nat)
    ensures (n % 65536 + 1) % 65536 == (n + 1) % 65536
  {
  }

  lemma {:induction false} IndexSlot(n: nat)
    ensures n % 65536 % 8 == n % 8
  {
    SlotIs(n % 65536 % 8, n / 65536, n % 65536, n);
  }

  lemma {:induction false} SlotIs(m: nat, q: nat, r: nat, n: nat)
    requires n == 65536 * q + r && m == r % 8
    ensures n % 8 == m
  {
    RemainderIs(n, 8192 * q + r / 8, m);
  }

  lemma {:induction false} RemainderIs(n: nat, k: nat, m: nat)
    requires n == 8 * k + m && m < 8
    ensures n % 8 == m
  {
  }

  // ---- the rings have room

  // While three descriptors are free, fewer than eight heads wait in the avail ring.
  lemma {:induction false} AvailRoom(s: State, a: nat, b: nat, c: nat)
    requires Inv(s) && a < NUM && b < NUM && c < NUM && a != b && b != c && a != c && s.free[a] && s.free[b]
    requires s.free[c]
    ensures |s.posted| - s.taken <= 5
  {
    assert DescOk(s, a) && DescOk(s, b) && DescOk(s, c);
    FewDistinct(s.posted, s.taken, {a, b, c});
    assert |{a, b, c}| == 3;
  }

  // While one head is still with the device, fewer than eight wait in the used ring.
  lemma {:induction false} UsedRoom(s: State, h: nat)
    requires Inv(s) && HeadOf(s, h, Taken)
    ensures |s.completed| - s.seen <= 7
  {
    FewDistinct(s.completed, s.seen, {h});
  }

  /** A request is posted into a slot the device has already read. */
  lemma {:induction false} SlotIsSpent(s: State, l: Label, p: nat)
    requires Inv(s) && Enabled(s, l) && l.Submit? && s.taken <= p < |s.posted|
    ensures p % 8 != |s.posted| % 8 && s.aidx % 8 == |s.posted| % 8
  {
    AvailRoom(s, l.a, l.b, l.c);
    SlotsApart(p, |s.posted|);
    IndexSlot(|s.posted|);
  }

  // ---- the steps

  lemma {:induction false} SubmitReq(s: State, l: Label, t: State, x: nat)
    requires Inv(s) && Follows(s, l, t) && l.Submit? && Sized(t) && x in t.reqs
    ensures ReqOk(t, x)
  {
    assert DescOk(s, l.a) && DescOk(s, l.b) && DescOk(s, l.c);
    if x != l.buf {
      assert ReqOk(s, x);
    }
    hide Chains, Rings;
  }

  lemma {:induction false} SubmitDesc(s: State, l: Label, t: State, i: nat)
    requires Inv(s) && Follows(s, l, t) && l.Submit? && Sized(t) && i < NUM
    ensures DescOk(t, i)
  {
    assert DescOk(s, i);
    hide Chains, Rings;
  }

  lemma {:induction false} SubmitChains(s: State, l: Label, t: State)
    requires Inv(s) && Follows(s, l, t) && l.Submit?
    ensures Sized(t) && Chains(t)
  {
    hide Rings, ReqOk, DescOk;
    forall x | x in t.reqs
      ensures ReqOk(t, x)
    {
      SubmitReq(s, l, t, x);
    }
    forall i | 0 <= i < NUM
      ensures DescOk(t, i)
    {
      SubmitDesc(s, l, t, i);
    }
  }

  // A head stays a head while its request and its descriptor are left alone.
  lemma {:induction false} HeadKept(s: State, t: State, h: nat, ph: Phase)
    requires Sized(s) && Sized(t) && HeadOf(s, h, ph) && t.user[h] == s.user[h]
    requires s.user[h].value in t.reqs && t.reqs[s.user[h].value] == s.reqs[s.user[h].value]
    ensures HeadOf(t, h, ph)
  {
  }

  lemma {:induction false} SubmitRings(s: State, l: Label, t: State)
    requires Inv(s) && Follows(s, l, t) && l.Submit?
    ensures Sized(t) && Rings(t)
  {
    var n := |s.posted|;
    IndexNext(n);
    assert DescOk(s, l.a) && DescOk(s, l.b) && DescOk(s, l.c);
    forall p | s.taken <= p < |t.posted|
      ensures t.avail[p % 8] == t.posted[p] && HeadOf(t, t.posted[p], Posted)
    {
      if p < n {
        SlotIsSpent(s, l, p);
        assert HeadOf(s, s.posted[p], Posted);
        HeadKept(s, t, s.posted[p], Posted);
      } else {
        IndexSlot(n);
      }
    }
    forall p | s.seen <= p < |t.completed|
      ensures t.used[p % 8] == t.completed[p] && HeadOf(t, t.completed[p], Completed)
    {
      assert HeadOf(s, s.completed[p], Completed);
      HeadKept(s, t, s.completed[p], Completed);
    }
    hide Chains, HeadOf;
  }

  // The device reads the head that was posted there.
  lemma {:induction false} TakesPosted(s: State)
    requires Inv(s) && s.lidx != s.aidx
    ensures s.taken < |s.posted| && s.avail[s.lidx % 8] == s.posted[s.taken] && HeadOf(s, s.posted[s.taken], Posted)
    ensures BufOf(s, s.posted[s.taken]) == s.user[s.posted[s.taken]].value
  {
    IndexSlot(s.taken);
    var h := s.posted[s.taken];
    assert HeadOf(s, h, Posted);
    assert ReqOk(s, s.user[h].value);
  }

  // The handler reads the head that was completed there.
  lemma {:induction false} SeesCompleted(s: State)
    requires Inv(s) && s.didx != s.uidx
    ensures s.seen < |s.completed| && s.used[s.didx % 8] == s.completed[s.seen]
    ensures HeadOf(s, s.completed[s.seen], Completed)
    ensures BufOf(s, s.completed[s.seen]) == s.user[s.completed[s.seen]].value
    ensures s.info[s.completed[s.seen]].status == 0
  {
    IndexSlot(s.seen);
    var h := s.completed[s.seen];
    assert HeadOf(s, h, Completed);
    assert ReqOk(s, s.user[h].value);
  }

  // Changing a request's phase leaves the chains in place.
  lemma {:induction false} PhaseChains(s: State, t: State, buf: nat, ph: Phase)
    requires Sized(s) && Chains(s) && buf in s.reqs && t.user == s.user && t.desc == s.desc && t.free == s.free
    requires t.reqs == s.reqs[buf := s.reqs[buf].(phase := ph)] && Sized(t)
    requires forall i :: 0 <= i < NUM ==>
               t.info[i].b == s.info[i].b && (s.info[i].status == 0 ==> t.info[i].status == 0)
    requires ph.Completed? || ph.Done? ==> t.info[s.reqs[buf].a % 8].status == 0 && s.reqs[buf].a < NUM
    ensures Chains(t)
  {
    forall x | x in t.reqs
      ensures ReqOk(t, x)
    {
      assert ReqOk(s, x);
    }
    forall i | 0 <= i < NUM
      ensures DescOk(t, i)
    {
      assert DescOk(s, i);
    }
  }

  // A ring keeps its heads when another request changes phase.
  lemma {:induction false} PhaseRing(
      s: State, t: State, buf: nat, h: nat, ph: Phase, ring: seq<nat>, q: seq<nat>, from: nat, from': nat, was: Phase)
    requires Sized(s) && Sized(t) && |ring| == NUM && RingOk(s, ring, q, from, was) && from <= from' <= |q|
    requires t.user == s.user
    requires buf in s.reqs && t.reqs == s.reqs[buf := s.reqs[buf].(phase := ph)] && s.reqs[buf].a == h
    requires forall p {:trigger q[p]} :: from' <= p < |q| ==> q[p] != h
    ensures RingOk(t, ring, q, from', was)
  {
    forall p | from' <= p < |q|
      ensures ring[p % 8] == q[p] && HeadOf(t, q[p], was)
    {
      assert HeadOf(s, q[p], was);
    }
  }

  // A head in one phase is not in the other ring.
  lemma {:induction false} NotInRing(s: State, h: nat, ph: Phase, ring: seq<nat>, q: seq<nat>, from: nat, other: Phase)
    requires Sized(s) && |ring| == NUM && RingOk(s, ring, q, from, other) && HeadOf(s, h, ph) && ph != other
    ensures forall p {:trigger q[p]} :: from <= p < |q| ==> q[p] != h
  {
    forall p | from <= p < |q|
      ensures q[p] != h
    {
      assert HeadOf(s, q[p], other);
    }
  }

  lemma {:induction false} TakeKeeps(s: State, l: Label, t: State)
    requires Inv(s) && Follows(s, l, t) && l.DevTake?
    ensures Inv(t)
  {
    TakesPosted(s);
    IndexNext(s.taken);
    var h := s.posted[s.taken];
    var buf := s.user[h].value;
    PhaseChains(s, t, buf, Taken);
    NotInRing(s, h, Posted, s.used, s.completed, s.seen, Completed);
    hide Chains;
    PhaseRing(s, t, buf, h, Taken, s.avail, s.posted, s.taken, s.taken + 1, Posted);
    PhaseRing(s, t, buf, h, Taken, s.used, s.completed, s.seen, s.seen, Completed);
    hide RingOk;
  }

  lemma {:induction false} IntrKeeps(s: State, l: Label, t: State)
    requires Inv(s) && Follows(s, l, t) && l.Intr?
    ensures Inv(t)
  {
    SeesCompleted(s);
    IndexNext(s.seen);
    var h := s.completed[s.seen];
    var buf := s.user[h].value;
    PhaseChains(s, t, buf, Done);
    NotInRing(s, h, Completed, s.avail, s.posted, s.taken, Posted);
    hide Chains;
    PhaseRing(s, t, buf, h, Done, s.used, s.completed, s.seen, s.seen + 1, Completed);
    PhaseRing(s, t, buf, h, Done, s.avail, s.posted, s.taken, s.taken, Posted);
    hide RingOk;
  }

  // A head goes into the used ring.
  lemma {:induction false} DoneRing(s: State, t: State, buf: nat, h: nat)
    requires Inv(s) && HeadOf(s, h, Taken) && buf == s.user[h].value && Sized(t) && t.user == s.user
    requires t.reqs == s.reqs[buf := s.reqs[buf].(phase := Completed)]
    requires t.used == s.used[|s.completed| % 8 := h]
    ensures RingOk(t, t.used, s.completed + [h], s.seen, Completed)
  {
    NotInRing(s, h, Taken, s.used, s.completed, s.seen, Completed);
    UsedRoom(s, h);
    var q, n := s.completed + [h], |s.completed|;
    forall p | s.seen <= p < |q|
      ensures t.used[p % 8] == q[p] && HeadOf(t, q[p], Completed)
    {
      if p < n {
        SlotsApart(p, n);
        assert HeadOf(s, s.completed[p], Completed) && s.completed[p] != h;
      }
    }
    hide Chains, HeadOf;
  }

  lemma {:induction false} DoneKeeps(s: State, l: Label, t: State)
    requires Inv(s) && Follows(s, l, t) && l.DevDone?
    ensures Inv(t)
  {
    var h := l.h;
    var buf :| buf in s.reqs && s.reqs[buf].a == h && s.reqs[buf].phase.Taken?;
    assert ReqOk(s, buf);
    assert BufOf(s, h) == buf && HeadOf(s, h, Taken);
    IndexNext(|s.completed|);
    IndexSlot(|s.completed|);
    PhaseChains(s, t, buf, Completed);
    NotInRing(s, h, Taken, s.avail, s.posted, s.taken, Posted);
    DoneRing(s, t, buf, h);
    hide Chains;
    PhaseRing(s, t, buf, h, Completed, s.avail, s.posted, s.taken, s.taken, Posted);
    hide RingOk;
  }

  lemma {:induction false} FinishChains(s: State, l: Label, t: State)
    requires Inv(s) && Follows(s, l, t) && l.Finish?
    ensures Sized(t) && Chains(t)
  {
    hide Rings;
    assert ReqOk(s, l.buf);
    forall x | x in t.reqs
      ensures ReqOk(t, x)
    {
      assert ReqOk(s, x);
    }
    forall i | 0 <= i < NUM
      ensures DescOk(t, i)
    {
      assert DescOk(s, i);
    }
  }

  lemma {:induction false} FinishRing(s: State, l: Label, t: State, ring: seq<nat>, q: seq<nat>, from: nat, ph: Phase)
    requires Inv(s) && Follows(s, l, t) && l.Finish? && |ring| == NUM && RingOk(s, ring, q, from, ph) && !ph.Done?
    requires Sized(t)
    ensures RingOk(t, ring, q, from, ph)
  {
    assert ReqOk(s, l.buf);
    forall p | from <= p < |q|
      ensures ring[p % 8] == q[p] && HeadOf(t, q[p], ph)
    {
      assert HeadOf(s, q[p], ph);
      assert ReqOk(s, s.user[q[p]].value);
      HeadKept(s, t, q[p], ph);
    }
    hide Chains, Rings, HeadOf;
  }

  lemma {:induction false} StepKeepsInv(s: State, l: Label, t: State)
    requires Inv(s) && Follows(s, l, t)
    ensures Inv(t)
  {
    match l
    case Submit(_, _, _, _) =>
      SubmitChains(s, l, t);
      SubmitRings(s, l, t);
    case DevTake => TakeKeeps(s, l, t);
    case DevDone(_) => DoneKeeps(s, l, t);
    case Intr => IntrKeeps(s, l, t);
    case Finish(_) =>
      FinishChains(s, l, t);
      FinishRing(s, l, t, s.avail, s.posted, s.taken, Posted);
      FinishRing(s, l, t, s.used, s.completed, s.seen, Completed);
    hide Chains, RingOk, Inv;
  }

  lemma {:induction false} RunKeepsInv(ss: seq<State>, ls: seq<Label>, n: nat)
    requires IsRun(ss, ls) && n < |ss|
    ensures Inv(ss[n])
  {
    if n > 0 {
      RunKeepsInv(ss, ls, n - 1);
      hide Inv, Follows;
      assert Follows(ss[n - 1], ls[n - 1], ss[n]);
      StepKeepsInv(ss[n - 1], ls[n - 1], ss[n]);
    }
  }

  // ---- what the runs guarantee

  /** In every run, at every point: each descriptor is free or in exactly one request's chain of three, and a chain is
      linked head to tail with its buffer recorded. */
  lemma {:induction false} DescriptorsPartitioned(ss: seq<State>, ls: seq<Label>, n: nat, i: nat)
    requires IsRun(ss, ls) && n < |ss| && i < NUM
    ensures var s := ss[n];
            && Sized(s)
            && (s.free[i] <==> forall b :: b in s.reqs ==> i != s.reqs[b].a && i != s.reqs[b].b && i != s.reqs[b].c)
            && (forall b, d :: b in s.reqs && d in s.reqs && b != d ==>
                  !((i == s.reqs[b].a || i == s.reqs[b].b || i == s.reqs[b].c)
                      && (i == s.reqs[d].a || i == s.reqs[d].b || i == s.reqs[d].c)))
    ensures forall b :: b in ss[n].reqs ==> ReqOk(ss[n], b)
  {
    RunKeepsInv(ss, ls, n);
    var s := ss[n];
    assert DescOk(s, i);
    forall b | b in s.reqs
      ensures ReqOk(s, b)
      ensures i == s.reqs[b].a || i == s.reqs[b].b || i == s.reqs[b].c ==> s.user[i] == Some(b)
    {
    }
    hide IsRun, Rings;
  }

  /** In every run the driver writes an avail slot only when the device has read what was there, also across wrap-around
      of the 16-bit indices, and equal indices mean that nothing waits. */
  lemma {:induction false} AvailNeverOverwritten(ss: seq<State>, ls: seq<Label>, n: nat, p: nat)
    requires IsRun(ss, ls) && n < |ls| && ls[n].Submit? && ss[n].taken <= p < |ss[n].posted|
    ensures ss[n].lidx != ss[n].aidx && ss[n + 1].avail[p % 8] == ss[n].avail[p % 8] == ss[n].posted[p]
  {
    RunKeepsInv(ss, ls, n);
    assert Follows(ss[n], ls[n], ss[n + 1]);
    SlotIsSpent(ss[n], ls[n], p);
    AvailRoom(ss[n], ls[n].a, ls[n].b, ls[n].c);
    SlotsApart(ss[n].taken, |ss[n].posted|);
    hide IsRun, Chains;
  }

  /** In every run the device takes up a request that is waiting, and only once. */
  lemma {:induction false} TakenOnce(ss: seq<State>, ls: seq<Label>, n: nat)
    requires IsRun(ss, ls) && n < |ls| && ls[n].DevTake?
    ensures var s := ss[n];
            && Sized(s) && s.taken < |s.posted|
            && var h := s.avail[s.lidx % 8];
               && h == s.posted[s.taken] && h < NUM && s.user[h].Some? && s.user[h].value in s.reqs
               && s.reqs[s.user[h].value].a == h && s.reqs[s.user[h].value].phase.Posted?
               && s.user[h].value in ss[n + 1].reqs && ss[n + 1].reqs[s.user[h].value].phase.Taken?
  {
    RunKeepsInv(ss, ls, n);
    assert Follows(ss[n], ls[n], ss[n + 1]);
    TakesPosted(ss[n]);
    hide IsRun, Chains, Rings;
  }

  /** In every run the interrupt handler completes each buffer once: the entry it reads is a request the device has
      finished and nobody has been told about, its status is 0, and its buffer is the one recorded. */
  lemma {:induction false} CompletedOnce(ss: seq<State>, ls: seq<Label>, n: nat)
    requires IsRun(ss, ls) && n < |ls| && ls[n].Intr?
    ensures var s := ss[n];
            && Sized(s)
            && var h := s.used[s.didx % 8];
               && h < NUM && s.info[h].status == 0 && s.info[h].b.Some?
               && var b := s.info[h].b.value;
                  b in s.reqs && s.reqs[b].a == h && s.reqs[b].phase.Completed? && b in ss[n + 1].reqs
                      && ss[n + 1].reqs[b].phase.Done?
  {
    RunKeepsInv(ss, ls, n);
    assert Follows(ss[n], ls[n], ss[n + 1]);
    SeesCompleted(ss[n]);
    var s := ss[n];
    assert ReqOk(s, s.user[s.completed[s.seen]].value);
    hide IsRun, Chains, Rings;
  }

  /** In every run free_chain() frees three descriptors in use: free_desc() never panics. */
  lemma {:induction false} FreeNeverPanics(ss: seq<State>, ls: seq<Label>, n: nat)
    requires IsRun(ss, ls) && n < |ls| && ls[n].Finish?
    ensures var s := ss[n];
            && Sized(s) && ls[n].buf in s.reqs
            && var r := s.reqs[ls[n].buf];
               && r.a < NUM && r.b < NUM && r.c < NUM && r.a != r.b && r.b != r.c && r.a != r.c
               && !s.free[r.a] && !s.free[r.b] && !s.free[r.c]
               && s.desc[r.a] == Desc(true, r.b) && s.desc[r.b] == Desc(true, r.c) && !s.desc[r.c].more
  {
    RunKeepsInv(ss, ls, n);
    assert Follows(ss[n], ls[n], ss[n + 1]);
    var s := ss[n];
    var r := s.reqs[ls[n].buf];
    assert ReqOk(s, ls[n].buf) && DescOk(s, r.a) && DescOk(s, r.b) && DescOk(s, r.c);
    hide IsRun, Rings;
  }

  // ---- the descriptor functions as they run

  // alloc_desc()'s choice: the first free descriptor at or after i, |free| if there is none.
  function FirstFree(free: seq<bool>, i: nat): (r: nat)
    requires i <= |free|
    ensures i <= r <= |free| && (r < |free| ==> free[r]) && forall k :: i <= k < r ==> !free[k]
    decreases |free| - i
  {
    if i == |free| || free[i] then i else FirstFree(free, i + 1)
  }

  class DescTable {
    var free: seq<bool>
    var desc: seq<Desc>

    method AllocDesc() returns (i: int)
      modifies this`free
      ensures var r := FirstFree(old(free), 0);
              if r == |old(free)| then i == -1 && free == old(free) else i == r && free == old(free)[r := false]
    {
      i := 0;
      while i < |free|
        invariant 0 <= i <= |free| && free == old(free) && FirstFree(free, 0) == FirstFree(free, i)
      {
        if free[i] {
          free := free[i := false];
          return;
        }
        i := i + 1;
      }
      i := -1;
    }

    method FreeDesc(i: nat) returns (panic: bool)
      requires |desc| == |free|
      modifies this
      ensures panic <==> |old(free)| <= i || old(free)[i]
      ensures panic ==> free == old(free) && desc == old(desc)
      ensures !panic ==> free == old(free)[i := true] && desc == old(desc)[i := Desc(false, 0)]
    {
      if |free| <= i {
        return true;
      }
      if free[i] {
        return true;
      }
      desc := desc[i := Desc(false, 0)];
      free := free[i := true];
      return false;
    }

    /** free_chain() of a chain of three. */
    method FreeChain(a: nat, ghost b: nat, ghost c: nat) returns (panic: bool)
      requires |desc| == |free| && a < |free| && b < |free| && c < |free| && a != b && b != c && a != c
      requires !free[a] && !free[b] && !free[c]
      requires desc[a] == Desc(true, b) && desc[b] == Desc(true, c) && !desc[c].more
      modifies this
      ensures !panic && free == old(free)[a := true][b := true][c := true]
      ensures desc == old(desc)[a := Desc(false, 0)][b := Desc(false, 0)][c := Desc(false, 0)]
    {
      var i := a;
      ghost var left := 3;
      while true
        invariant 1 <= left <= 3 && |desc| == |free| == |old(free)|
        invariant i == (if left == 3 then a else if left == 2 then b else c)
        invariant left == 3 ==> free == old(free) && desc == old(desc)
        invariant left == 2 ==> free == old(free)[a := true] && desc == old(desc)[a := Desc(false, 0)]
        invariant left == 1 ==>
                    free == old(free)[a := true][b := true]
                        && desc == old(desc)[a := Desc(false, 0)][b := Desc(false, 0)]
        decreases left
      {
        var d := desc[i];
        panic := FreeDesc(i);
        if panic {
          return;
        }
        if !d.more {
          break;
        }
        i := d.next;
        left := left - 1;
      }
    }

    /** alloc3_desc(): three free descriptors, or none taken. */
    method Alloc3Desc() returns (ok: bool, idx: seq<nat>)
      requires |desc| == |free|
      modifies this
      ensures ok ==>
                |idx| == 3 && idx[0] < idx[1] < idx[2] < |old(free)| && old(free)[idx[0]] && old(free)[idx[1]]
                    && old(free)[idx[2]]
      ensures ok ==> free == old(free)[idx[0] := false][idx[1] := false][idx[2] := false] && desc == old(desc)
      ensures !ok ==> free == old(free) && |desc| == |old(desc)| && forall i :: 0 <= i < |desc| && !free[i] ==>
                desc[i] == old(desc)[i]
      ensures !ok ==> |idx| <= 2 && forall i :: 0 <= i < |free| && free[i] ==> i in idx // fewer than three were free
    {
      idx := [];
      while |idx| < 3
        invariant |idx| <= 3 && |free| == |old(free)| && desc == old(desc)
        invariant forall j :: 0 <= j < |idx| ==> idx[j] < |free| && old(free)[idx[j]]
        invariant forall j, k :: 0 <= j < k < |idx| ==> idx[j] < idx[k]
        invariant forall i :: 0 <= i < |free| ==> (free[i] <==> old(free)[i] && i !in idx)
        invariant forall i :: 0 <= i < |free| && free[i] && 0 < |idx| ==> idx[|idx| - 1] < i
      {
        var i := AllocDesc();
        if i < 0 {
          Restore(idx);
          return false, idx;
        }
        idx := idx + [i];
      }
      assert free == old(free)[idx[0] := false][idx[1] := false][idx[2] := false];
      return true, idx;
    }

    // The undo loop of alloc3_desc().
    method Restore(idx: seq<nat>)
      requires |desc| == |free| && forall j :: 0 <= j < |idx| ==> idx[j] < |free| && !free[idx[j]]
      requires forall j, k :: 0 <= j < k < |idx| ==> idx[j] != idx[k]
      modifies this
      ensures |free| == |old(free)| && |desc| == |old(desc)|
      ensures forall i :: 0 <= i < |free| ==> (free[i] <==> old(free)[i] || i in idx)
      ensures forall i :: 0 <= i < |desc| && i !in idx ==> desc[i] == old(desc)[i]
    {
      var j := 0;
      while j < |idx|
        invariant j <= |idx| && |free| == |old(free)| == |desc|
        invariant forall i :: 0 <= i < |free| ==> (free[i] <==> old(free)[i] || i in idx[..j])
        invariant forall i :: 0 <= i < |desc| && i !in idx ==> desc[i] == old(desc)[i]
      {
        assert idx[j] !in idx[..j];
        assert idx[..j + 1] == idx[..j] + [idx[j]];
        var panic := FreeDesc(idx[j]);
        j := j + 1;
      }
      assert idx[..j] == idx;
    }
  }
}
