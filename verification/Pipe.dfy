/** kernel/pipe.c under every interleaving of readers, writers, kills and closes. The counters are 32-bit and wrap;
    sleep() gives up the pipe's lock and wakeup() makes every sleeper on a channel runnable. */
module Pipe {
  import opened Options
  import opened Bytes

  const PIPESIZE: nat := 512
  const WRAP: nat := 0x1_0000_0000

  // Where a process is in pipewrite() or piperead(); the *Hold points and Copy hold pi->lock. dirty: bytes have been
  // added since the last wakeup(&pi->nread).
  datatype Pc =
    | Idle
    | WHold(src: seq<byte>, i: nat, dirty: bool) | WSleep(src: seq<byte>, i: nat) | WAwake(src: seq<byte>, i: nat)
    | RHold(n: nat) | RSleep(n: nat) | RAwake(n: nat) | Copy(n: nat, i: nat)

  // produced and consumed record every byte put into and taken out of the ring.
  datatype State = State(
    data: seq<byte>, nread: nat, nwrite: nat, readopen: bool, writeopen: bool,
    lock: Option<nat>, pcs: seq<Pc>, killed: seq<bool>, produced: seq<byte>, consumed: seq<byte>)

  datatype Label =
    | WriteBegin(p: nat, src: seq<byte>)
    | WriteQuit(p: nat)            // killed, or nobody left to read: return without wakeup()
    | WriteWait(p: nat)
    | WriteByte(p: nat)
    | WriteEnd(p: nat, fault: bool)
    | WriteRetry(p: nat)
    | ReadBegin(p: nat, n: nat)
    | ReadQuit(p: nat)
    | ReadWait(p: nat)
    | ReadStart(p: nat)
    | ReadByte(p: nat, fault: bool)
    | ReadEnd(p: nat)
    | ReadRetry(p: nat)
    | Kill(p: nat)
    | CloseWrite
    | CloseRead

  predicate Full(s: State) {
    s.nwrite == (s.nread + PIPESIZE) % WRAP
  }

  predicate Empty(s: State) {
    s.nread == s.nwrite
  }

  predicate InWrite(pc: Pc) {
    pc.WHold? || pc.WSleep? || pc.WAwake?
  }

  predicate InRead(pc: Pc) {
    pc.RHold? || pc.RSleep? || pc.RAwake? || pc.Copy?
  }

  predicate Holds(pc: Pc) {
    pc.WHold? || pc.RHold? || pc.Copy?
  }

  ghost predicate At(s: State, p: nat) {
    p < |s.pcs| == |s.killed|
  }

  ghost predicate Enabled(s: State, l: Label) {
    && |s.data| == PIPESIZE
    && match l
       case WriteBegin(p, _) => At(s, p) && s.pcs[p].Idle? && s.lock.None? && s.writeopen
       case WriteQuit(p) => At(s, p) && s.pcs[p].WHold? && s.pcs[p].i < |s.pcs[p].src| && (!s.readopen || s.killed[p])
       case WriteWait(p) => At(s, p) && s.pcs[p].WHold? && s.pcs[p].i < |s.pcs[p].src| && s.readopen && Full(s)
       case WriteByte(p) => At(s, p) && s.pcs[p].WHold? && s.pcs[p].i < |s.pcs[p].src| && s.readopen && !Full(s)
       case WriteEnd(p, fault) => At(s, p) && s.pcs[p].WHold? && (fault || |s.pcs[p].src| <= s.pcs[p].i)
       case WriteRetry(p) => At(s, p) && s.pcs[p].WAwake? && s.lock.None?
       case ReadBegin(p, _) => At(s, p) && s.pcs[p].Idle? && s.lock.None? && s.readopen
       case ReadQuit(p) => At(s, p) && s.pcs[p].RHold? && Empty(s) && s.writeopen && s.killed[p]
       case ReadWait(p) => At(s, p) && s.pcs[p].RHold? && Empty(s) && s.writeopen
       case ReadStart(p) => At(s, p) && s.pcs[p].RHold? && !(Empty(s) && s.writeopen)
       case ReadByte(p, _) => At(s, p) && s.pcs[p].Copy? && s.pcs[p].i < s.pcs[p].n && !Empty(s)
       case ReadEnd(p) => At(s, p) && s.pcs[p].Copy? && (s.pcs[p].n <= s.pcs[p].i || Empty(s))
       case ReadRetry(p) => At(s, p) && s.pcs[p].RAwake? && s.lock.None?
       case Kill(p) => At(s, p)
       // An end is closed when the last descriptor for it goes, so by nobody still inside.
       case CloseWrite => s.writeopen && s.lock.None? && forall p :: 0 <= p < |s.pcs| ==> !InWrite(s.pcs[p])
       case CloseRead => s.readopen && s.lock.None? && forall p :: 0 <= p < |s.pcs| ==> !InRead(s.pcs[p])
  }

  // wakeup(&pi->nread) and wakeup(&pi->nwrite)
  function WakeReader(pc: Pc): (r: Pc) {
    if pc.RSleep? then RAwake(pc.n) else pc
  }

  function WakeWriter(pc: Pc): (r: Pc) {
    if pc.WSleep? then WAwake(pc.src, pc.i) else pc
  }

  function WakeReaders(pcs: seq<Pc>): (r: seq<Pc>)
    ensures |r| == |pcs| && forall p :: 0 <= p < |pcs| ==> r[p] == WakeReader(pcs[p])
  {
    seq(|pcs|, p requires 0 <= p < |pcs| => WakeReader(pcs[p]))
  }

  function WakeWriters(pcs: seq<Pc>): (r: seq<Pc>)
    ensures |r| == |pcs| && forall p :: 0 <= p < |pcs| ==> r[p] == WakeWriter(pcs[p])
  {
    seq(|pcs|, p requires 0 <= p < |pcs| => WakeWriter(pcs[p]))
  }

  ghost function Next(s: State, l: Label): (t: State)
    requires Enabled(s, l)
  {
    match l
    case WriteBegin(p, src) => s.(pcs := s.pcs[p := WHold(src, 0, false)], lock := Some(p))
    case WriteQuit(p) => s.(pcs := s.pcs[p := Idle], lock := None)
    case WriteWait(p) => s.(pcs := WakeReaders(s.pcs)[p := WSleep(s.pcs[p].src, s.pcs[p].i)], lock := None)
    case WriteByte(p) =>
      var pc := s.pcs[p];
      var ch := pc.src[pc.i];
      s.(data := s.data[s.nwrite % PIPESIZE := ch], nwrite := (s.nwrite + 1) % WRAP, produced := s.produced + [ch],
         pcs := s.pcs[p := WHold(pc.src, pc.i + 1, true)])
    case WriteEnd(p, _) => s.(pcs := WakeReaders(s.pcs)[p := Idle], lock := None)
    case WriteRetry(p) => s.(pcs := s.pcs[p := WHold(s.pcs[p].src, s.pcs[p].i, false)], lock := Some(p))
    case ReadBegin(p, n) => s.(pcs := s.pcs[p := RHold(n)], lock := Some(p))
    case ReadQuit(p) => s.(pcs := s.pcs[p := Idle], lock := None)
    case ReadWait(p) => s.(pcs := s.pcs[p := RSleep(s.pcs[p].n)], lock := None)
    case ReadStart(p) => s.(pcs := s.pcs[p := Copy(s.pcs[p].n, 0)])
    case ReadByte(p, fault) =>
      var pc := s.pcs[p];
      var t := s.(nread := (s.nread + 1) % WRAP, consumed := s.consumed + [s.data[s.nread % PIPESIZE]]);
      if fault then t.(pcs := WakeWriters(s.pcs)[p := Idle], lock := None)
      else t.(pcs := s.pcs[p := Copy(pc.n, pc.i + 1)])
    case ReadEnd(p) => s.(pcs := WakeWriters(s.pcs)[p := Idle], lock := None)
    case ReadRetry(p) => s.(pcs := s.pcs[p := RHold(s.pcs[p].n)], lock := Some(p))
    case Kill(p) => s.(killed := s.killed[p := true], pcs := s.pcs[p := WakeReader(WakeWriter(s.pcs[p]))])
    case CloseWrite => s.(writeopen := false, pcs := WakeReaders(s.pcs))
    case CloseRead => s.(readopen := false, pcs := WakeWriters(s.pcs))
  }

  // pipealloc()
  ghost predicate Init(s: State) {
    && |s.data| == PIPESIZE && s.nread == s.nwrite == 0 && s.readopen && s.writeopen && s.lock.None?
    && |s.killed| == |s.pcs| && (forall p :: 0 <= p < |s.pcs| ==> s.pcs[p].Idle?)
    && s.produced == s.consumed == []
  }

  ghost predicate Follows(s: State, l: Label, t: State) {
    Enabled(s, l) && t == Next(s, l)
  }

  ghost predicate IsRun(ss: seq<State>, ls: seq<Label>) {
    && |ss| == |ls| + 1 && Init(ss[0])
    && forall i :: 0 <= i < |ls| ==> Follows(ss[i], ls[i], ss[i + 1])
  }

  // ---- the ring

  // The ring holds exactly the bytes produced and not yet consumed.
  ghost predicate RingOk(s: State) {
    && |s.data| == PIPESIZE
    && |s.consumed| <= |s.produced| <= |s.consumed| + PIPESIZE
    && s.consumed == s.produced[..|s.consumed|]
    && s.nread == |s.consumed| % WRAP && s.nwrite == |s.produced| % WRAP
    && (forall k :: |s.consumed| <= k < |s.produced| ==> s.data[k % PIPESIZE] == s.produced[k])
  }

  lemma {:induction false} WrapNext(n: nat)
    ensures (n % WRAP + 1) % WRAP == (n + 1) % WRAP
    ensures n % WRAP % PIPESIZE == n % PIPESIZE
  {
    WrapPlace(n / WRAP, n % WRAP);
    assert n == WRAP * (n / WRAP) + n % WRAP;
  }

  lemma {:induction false} WrapPlace(q: nat, r: nat)
    requires r < WRAP
    ensures (WRAP * q + r) % 512 == r % 512
  {
    PlaceIs(WRAP * q + r, 8388608 * q + r / 512, r % 512);
  }

  lemma {:induction false} PlaceIs(x: nat, k: nat, m: nat)
    requires x == 512 * k + m && m < 512
    ensures x % 512 == m
  {
  }

  lemma {:induction false} WrapApart(a: nat, b: nat)
    requires a <= b <= a + PIPESIZE
    ensures b % WRAP == a % WRAP <==> a == b
    ensures b % WRAP == (a % WRAP + PIPESIZE) % WRAP <==> b == a + PIPESIZE
  {
  }

  // Bytes less than a ring apart have different places.
  lemma {:induction false} PlacesApart(a: nat, b: nat)
    requires a < b < a + PIPESIZE
    ensures a % PIPESIZE != b % PIPESIZE
  {
  }

  // The wrapped counters tell full and empty apart.
  lemma {:induction false} CountersTell(s: State)
    requires RingOk(s)
    ensures Full(s) <==> |s.produced| - |s.consumed| == PIPESIZE
    ensures Empty(s) <==> |s.produced| == |s.consumed|
    ensures s.nwrite % PIPESIZE == |s.produced| % PIPESIZE && s.nread % PIPESIZE == |s.consumed| % PIPESIZE
  {
    WrapApart(|s.consumed|, |s.produced|);
    WrapNext(|s.consumed|);
    WrapNext(|s.produced|);
  }

  lemma {:induction false} PutKeepsData(s: State, ch: byte, data: seq<byte>, k: nat)
    requires RingOk(s) && |s.produced| - |s.consumed| < PIPESIZE && data == s.data[|s.produced| % PIPESIZE := ch]
    requires |s.consumed| <= k <= |s.produced|
    ensures data[k % PIPESIZE] == (s.produced + [ch])[k]
  {
    if k < |s.produced| {
      PlacesApart(k, |s.produced|);
      assert s.data[k % PIPESIZE] == s.produced[k];
    }
  }

  lemma {:induction false} PutKeepsRing(s: State, ch: byte, t: State)
    requires RingOk(s) && !Full(s)
    requires t == s.(data := s.data[s.nwrite % PIPESIZE := ch], nwrite := (s.nwrite + 1) % WRAP,
        produced := s.produced + [ch],
                     pcs := t.pcs, lock := t.lock)
    ensures RingOk(t)
  {
    CountersTell(s);
    WrapNext(|s.produced|);
    forall k | |t.consumed| <= k < |t.produced|
      ensures t.data[k % PIPESIZE] == t.produced[k]
    {
      PutKeepsData(s, ch, t.data, k);
    }
    hide Full, Empty;
  }

  lemma {:induction false} TakeKeepsRing(s: State, t: State)
    requires RingOk(s) && !Empty(s)
    requires t == s.(nread := (s.nread + 1) % WRAP, consumed := s.consumed + [s.data[s.nread % PIPESIZE]], pcs := t.pcs,
        lock := t.lock)
    ensures RingOk(t)
  {
    CountersTell(s);
    hide Full, Empty;
    var k := |s.consumed|;
    WrapNext(k);
    assert s.data[k % PIPESIZE] == s.produced[k];
    assert s.produced[..k + 1] == s.produced[..k] + [s.produced[k]];
  }

  lemma {:induction false} StepRing(s: State, l: Label, t: State)
    requires RingOk(s) && Follows(s, l, t)
    ensures RingOk(t)
  {
    if l.WriteByte? {
      PutKeepsRing(s, s.pcs[l.p].src[s.pcs[l.p].i], t);
    } else if l.ReadByte? {
      TakeKeepsRing(s, t);
    }
  }

  // ---- who holds the lock and who sleeps

  ghost predicate LockOk(s: State) {
    && |s.killed| == |s.pcs|
    && (s.lock.Some? ==> s.lock.value < |s.pcs| && Holds(s.pcs[s.lock.value]))
    && (forall p :: 0 <= p < |s.pcs| && Holds(s.pcs[p]) ==> s.lock == Some(p))
  }

  lemma {:induction false} WriteLock(s: State, l: Label, t: State)
    requires LockOk(s) && Follows(s, l, t)
    requires l.WriteBegin? || l.WriteQuit? || l.WriteWait? || l.WriteByte? || l.WriteEnd? || l.WriteRetry?
    ensures LockOk(t)
  {
  }

  lemma {:induction false} ReadLock(s: State, l: Label, t: State)
    requires LockOk(s) && Follows(s, l, t)
    requires l.ReadBegin? || l.ReadQuit? || l.ReadWait? || l.ReadStart? || l.ReadByte? || l.ReadEnd? || l.ReadRetry?
    ensures LockOk(t)
  {
  }

  lemma {:induction false} IdleLock(s: State, l: Label, t: State)
    requires LockOk(s) && Follows(s, l, t) && (l.Kill? || l.CloseWrite? || l.CloseRead?)
    ensures LockOk(t)
  {
  }

  lemma {:induction false} StepLock(s: State, l: Label, t: State)
    requires LockOk(s) && Follows(s, l, t)
    ensures LockOk(t)
  {
    hide LockOk, Follows;
    if l.Kill? || l.CloseWrite? || l.CloseRead? {
      IdleLock(s, l, t);
    } else if l.WriteBegin? || l.WriteQuit? || l.WriteWait? || l.WriteByte? || l.WriteEnd? || l.WriteRetry? {
      WriteLock(s, l, t);
    } else {
      ReadLock(s, l, t);
    }
  }

  ghost predicate OpenOk(s: State) {
    forall p :: 0 <= p < |s.pcs| ==> (InWrite(s.pcs[p]) ==> s.writeopen) && (InRead(s.pcs[p]) ==> s.readopen)
  }

  lemma {:induction false} StepOpen(s: State, l: Label, t: State)
    requires OpenOk(s) && Follows(s, l, t)
    ensures OpenOk(t)
  {
  }

  // A sleeping writer has a full pipe and somebody to read it, unless a reader is at work.
  ghost predicate WritersOk(s: State) {
    forall p :: 0 <= p < |s.pcs| && s.pcs[p].WSleep? ==>
      s.readopen && (Full(s) || (s.lock.Some? && s.lock.value < |s.pcs| && s.pcs[s.lock.value].Copy?))
  }

  lemma {:induction false} StepWriters(s: State, l: Label, t: State)
    requires RingOk(s) && LockOk(s) && WritersOk(s) && Follows(s, l, t)
    ensures WritersOk(t)
  {
    if l.WriteByte? || l.ReadByte? {
      assert s.lock == Some(l.p);
    }
  }

  // A sleeping reader has an empty pipe and somebody to fill it, unless a writer that has added bytes is at work.
  ghost predicate ReadersOk(s: State) {
    forall p :: 0 <= p < |s.pcs| && s.pcs[p].RSleep? ==>
      s.writeopen && (Empty(s)
          || (s.lock.Some? && s.lock.value < |s.pcs| && s.pcs[s.lock.value].WHold? && s.pcs[s.lock.value].dirty))
  }

  // A writer returns early although it has added bytes.
  ghost predicate QuitsMidWrite(s: State, l: Label) {
    l.WriteQuit? && l.p < |s.pcs| && s.pcs[l.p].WHold? && s.pcs[l.p].dirty
  }

  ghost predicate SomeoneReads(s: State) {
    exists p :: 0 <= p < |s.pcs| && s.pcs[p].RSleep?
  }

  // ... while a reader sleeps: nobody tells it.
  ghost predicate Strands(s: State, l: Label) {
    QuitsMidWrite(s, l) && SomeoneReads(s)
  }

  // A writer that has added bytes still holds the lock, so they are all still there.
  ghost predicate DirtyOk(s: State) {
    forall p :: 0 <= p < |s.pcs| && s.pcs[p].WHold? && s.pcs[p].dirty ==> |s.consumed| < |s.produced|
  }

  lemma {:induction false} StepDirty(s: State, l: Label, t: State)
    requires RingOk(s) && LockOk(s) && DirtyOk(s) && Follows(s, l, t)
    ensures DirtyOk(t)
  {
    if l.ReadByte? {
      assert s.lock == Some(l.p);
    }
  }

  lemma {:induction false} StepReaders(s: State, l: Label, t: State)
    requires RingOk(s) && LockOk(s) && ReadersOk(s) && Follows(s, l, t) && !Strands(s, l)
    ensures ReadersOk(t)
  {
    if !(l.WriteBegin? || l.WriteRetry? || l.ReadBegin? || l.ReadRetry? || l.Kill? || l.CloseWrite? || l.CloseRead?) {
      assert s.lock == Some(l.p);
    }
  }

  ghost predicate Inv(s: State) {
    RingOk(s) && LockOk(s) && OpenOk(s) && WritersOk(s) && DirtyOk(s)
  }

  lemma {:induction false} RunKeepsInv(ss: seq<State>, ls: seq<Label>, n: nat)
    requires IsRun(ss, ls) && n < |ss|
    ensures Inv(ss[n])
  {
    hide RingOk, LockOk, OpenOk, WritersOk, DirtyOk, Follows;
    if n == 0 {
      InitInv(ss[0]);
    } else {
      RunKeepsInv(ss, ls, n - 1);
      assert Follows(ss[n - 1], ls[n - 1], ss[n]);
      StepRing(ss[n - 1], ls[n - 1], ss[n]);
      StepLock(ss[n - 1], ls[n - 1], ss[n]);
      StepOpen(ss[n - 1], ls[n - 1], ss[n]);
      StepWriters(ss[n - 1], ls[n - 1], ss[n]);
      StepDirty(ss[n - 1], ls[n - 1], ss[n]);
    }
  }

  lemma {:induction false} InitInv(s: State)
    requires Init(s)
    ensures Inv(s) && ReadersOk(s)
  {
  }

  /** In every run, at every point, also across wrap-around of the counters: what has been read is a prefix of what has
      been written and the ring holds the rest, at most PIPESIZE bytes. */
  lemma {:induction false} PrefixDelivered(ss: seq<State>, ls: seq<Label>, n: nat)
    requires IsRun(ss, ls) && n < |ss|
    ensures ss[n].consumed <= ss[n].produced
    ensures |ss[n].produced| - |ss[n].consumed| <= PIPESIZE
    ensures (ss[n].nwrite + WRAP - ss[n].nread) % WRAP == |ss[n].produced| - |ss[n].consumed|
    ensures |ss[n].data| == PIPESIZE
    ensures forall k :: |ss[n].consumed| <= k < |ss[n].produced| ==> ss[n].data[k % PIPESIZE] == ss[n].produced[k]
  {
    RunKeepsInv(ss, ls, n);
    hide IsRun;
  }

  /** In every run, whenever the lock is free: a writer asleep has a full pipe whose read end is open. */
  lemma {:induction false} WriterSleepsOnFull(ss: seq<State>, ls: seq<Label>, n: nat, p: nat)
    requires IsRun(ss, ls) && n < |ss| && ss[n].lock.None? && p < |ss[n].pcs| && ss[n].pcs[p].WSleep?
    ensures ss[n].readopen && |ss[n].produced| - |ss[n].consumed| == PIPESIZE
  {
    RunKeepsInv(ss, ls, n);
    CountersTell(ss[n]);
    hide IsRun;
  }

  lemma {:induction false} RunKeepsReaders(ss: seq<State>, ls: seq<Label>, n: nat)
    requires IsRun(ss, ls) && n < |ss| && forall i :: 0 <= i < n ==> !Strands(ss[i], ls[i])
    ensures ReadersOk(ss[n])
  {
    hide RingOk, LockOk, OpenOk, WritersOk, DirtyOk, ReadersOk, Follows, Strands;
    if n == 0 {
      InitInv(ss[0]);
    } else {
      RunKeepsReaders(ss, ls, n - 1);
      RunKeepsInv(ss, ls, n - 1);
      assert Follows(ss[n - 1], ls[n - 1], ss[n]);
      StepReaders(ss[n - 1], ls[n - 1], ss[n]);
    }
  }

  /** In every run in which no writer quits after adding bytes while a reader sleeps, whenever the lock is free: a
      reader asleep has an empty pipe whose write end is open. */
  lemma {:induction false} ReaderSleepsOnEmpty(ss: seq<State>, ls: seq<Label>, n: nat, p: nat)
    requires IsRun(ss, ls) && n < |ss| && ss[n].lock.None? && p < |ss[n].pcs| && ss[n].pcs[p].RSleep?
    requires forall i :: 0 <= i < n ==> !Strands(ss[i], ls[i])
    ensures ss[n].writeopen && ss[n].produced == ss[n].consumed
  {
    RunKeepsReaders(ss, ls, n);
    RunKeepsInv(ss, ls, n);
    CountersTell(ss[n]);
    hide IsRun;
  }

  // A killed writer's early return, after it has added bytes, with a reader asleep.
  lemma {:induction false} QuitStrands(s: State, l: Label, t: State)
    requires Inv(s) && Follows(s, l, t) && Strands(s, l)
    ensures !ReadersOk(t)
  {
    CountersTell(s);
    var p :| 0 <= p < |s.pcs| && s.pcs[p].RSleep?;
    assert t.pcs[p].RSleep?;
  }

  /** The exact condition: a reader is never left asleep beside bytes nobody will tell it about, at any point of a run
      up to n, if and only if no writer before n is killed after adding bytes while a reader sleeps. */
  lemma {:induction false} LostWakeupExact(ss: seq<State>, ls: seq<Label>, n: nat)
    requires IsRun(ss, ls) && n < |ss|
    ensures (forall k :: 0 <= k <= n ==> ReadersOk(ss[k])) <==> (forall i :: 0 <= i < n ==> !Strands(ss[i], ls[i]))
  {
    hide Inv, Follows, ReadersOk, Strands;
    if forall i :: 0 <= i < n ==> !Strands(ss[i], ls[i]) {
      forall k | 0 <= k <= n
        ensures ReadersOk(ss[k])
      {
        RunKeepsReaders(ss, ls, k);
      }
    } else {
      var i :| 0 <= i < n && Strands(ss[i], ls[i]);
      RunKeepsInv(ss, ls, i);
      assert Follows(ss[i], ls[i], ss[i + 1]);
      QuitStrands(ss[i], ls[i], ss[i + 1]);
      assert !ReadersOk(ss[i + 1]);
    }
  }

  // The states of a run with one reader and one writer.
  function Scene(k: nat): (s: State) {
    var pcs :=
      match k
      case 0 => [Idle, Idle]
      case 1 => [RHold(1), Idle]
      case 2 => [RSleep(1), Idle]
      case 3 => [RSleep(1), WHold([7, 7], 0, false)]
      case 6 => [RSleep(1), Idle]
      case _ => [RSleep(1), WHold([7, 7], 1, true)];
    var lock := if k == 1 then Some(0) else if 3 <= k < 6 then Some(1) else None;
    var data := Zeros()[..PIPESIZE];
    State(if k < 4 then data else data[0 := 7], 0, if k < 4 then 0 else 1, true, true, lock, pcs,
          [false, 5 <= k], if k < 4 then [] else [7], [])
  }

  lemma {:induction false} ReaderSleeps()
    ensures Init(Scene(0)) && Follows(Scene(0), ReadBegin(0, 1), Scene(1))
    ensures Follows(Scene(1), ReadWait(0), Scene(2))
  {
    assert Scene(0).pcs[0 := RHold(1)] == Scene(1).pcs;
    assert Scene(1).pcs[0 := RSleep(1)] == Scene(2).pcs;
  }

  lemma {:induction false} WriterAdds()
    ensures Follows(Scene(2), WriteBegin(1, [7, 7]), Scene(3)) && Follows(Scene(3), WriteByte(1), Scene(4))
  {
    assert Scene(2).pcs[1 := WHold([7, 7], 0, false)] == Scene(3).pcs;
    assert Scene(3).pcs[1 := WHold([7, 7], 1, true)] == Scene(4).pcs;
  }

  lemma {:induction false} WriterQuits()
    ensures Follows(Scene(4), Kill(1), Scene(5)) && Follows(Scene(5), WriteQuit(1), Scene(6))
    ensures Strands(Scene(5), WriteQuit(1))
  {
    assert Scene(4).killed[1 := true] == Scene(5).killed;
    assert Scene(4).pcs[1 := WHold([7, 7], 1, true)] == Scene(5).pcs;
    assert Scene(5).pcs[1 := Idle] == Scene(6).pcs;
    assert Scene(5).pcs[0].RSleep?;
  }

  /** It can happen: a reader goes to sleep, a writer adds a byte, is killed and quits, and the reader sleeps on beside
      the byte, with the lock free. */
  lemma {:induction false} StrandedReader() returns (ss: seq<State>, ls: seq<Label>)
    ensures IsRun(ss, ls) && |ls| == 6 && Strands(ss[5], ls[5])
    ensures ss[6].lock.None? && |ss[6].pcs| == 2 && ss[6].pcs[0].RSleep? && ss[6].writeopen
    ensures |ss[6].consumed| < |ss[6].produced|
  {
    hide Follows, Strands;
    ReaderSleeps();
    WriterAdds();
    WriterQuits();
    ss := [Scene(0), Scene(1), Scene(2), Scene(3), Scene(4), Scene(5), Scene(6)];
    ls := [ReadBegin(0, 1), ReadWait(0), WriteBegin(1, [7, 7]), WriteByte(1), Kill(1), WriteQuit(1)];
  }
}
