/** kernel/sleeplock.c under every interleaving. */
module SleepLock {
  import opened Options

  // Where a process is: not involved, in acquiresleep() holding lk->lk, asleep on the lock, woken, owning the
  // sleep-lock, owning it and holding lk->lk in releasesleep(), or holding lk->lk in holdingsleep(), which anyone
  // calls.
  datatype Pc = Out | Try | Asleep | Awake | Owns | Release | Test(owns: bool)

  // pid is the owner's, as process number + 1; 0 when unlocked.
  datatype State = State(locked: bool, pid: nat, spin: Option<nat>, pcs: seq<Pc>)

  datatype Label =
    | Enter(p: nat) | Take(p: nat) | Wait(p: nat) | Retry(p: nat) | Wake(p: nat)
    | Leave(p: nat) | Free(p: nat) | Ask(p: nat) | Answer(p: nat)

  predicate Holds(pc: Pc) {
    pc.Try? || pc.Release? || pc.Test?
  }

  predicate Owner(pc: Pc) {
    pc.Owns? || pc.Release? || (pc.Test? && pc.owns)
  }

  ghost predicate Enabled(s: State, l: Label) {
    && l.p < |s.pcs|
    && match l
       case Enter(p) => s.pcs[p].Out? && s.spin.None?
       case Take(p) => s.pcs[p].Try? && !s.locked
       case Wait(p) => s.pcs[p].Try? && s.locked
       case Retry(p) => s.pcs[p].Awake? && s.spin.None?
       case Wake(p) => s.pcs[p].Asleep?   // kill()
       case Leave(p) => s.pcs[p].Owns? && s.spin.None?
       case Free(p) => s.pcs[p].Release?
       case Ask(p) => (s.pcs[p].Owns? || s.pcs[p].Out?) && s.spin.None?
       case Answer(p) => s.pcs[p].Test?
  }

  function WakeAll(pcs: seq<Pc>): (r: seq<Pc>)
    ensures |r| == |pcs| && forall p :: 0 <= p < |pcs| ==> r[p] == if pcs[p].Asleep? then Awake else pcs[p]
  {
    seq(|pcs|, p requires 0 <= p < |pcs| => if pcs[p].Asleep? then Awake else pcs[p])
  }

  ghost function Next(s: State, l: Label): (t: State)
    requires Enabled(s, l)
  {
    match l
    case Enter(p) => s.(pcs := s.pcs[p := Try], spin := Some(p))
    case Take(p) => State(true, p + 1, None, s.pcs[p := Owns])
    case Wait(p) => s.(pcs := s.pcs[p := Asleep], spin := None)
    case Retry(p) => s.(pcs := s.pcs[p := Try], spin := Some(p))
    case Wake(p) => s.(pcs := s.pcs[p := Awake])
    case Leave(p) => s.(pcs := s.pcs[p := Release], spin := Some(p))
    case Free(p) => State(false, 0, None, WakeAll(s.pcs)[p := Out])
    case Ask(p) => s.(pcs := s.pcs[p := Test(s.pcs[p].Owns?)], spin := Some(p))
    case Answer(p) => s.(pcs := s.pcs[p := if s.pcs[p].owns then Owns else Out], spin := None)
  }

  // What holdingsleep() answers.
  predicate Holding(s: State, p: nat) {
    s.locked && s.pid == p + 1
  }

  ghost predicate Init(s: State) {
    !s.locked && s.pid == 0 && s.spin.None? && forall p :: 0 <= p < |s.pcs| ==> s.pcs[p].Out?
  }

  ghost predicate Follows(s: State, l: Label, t: State) {
    Enabled(s, l) && t == Next(s, l)
  }

  ghost predicate IsRun(ss: seq<State>, ls: seq<Label>) {
    && |ss| == |ls| + 1 && Init(ss[0])
    && forall i :: 0 <= i < |ls| ==> Follows(ss[i], ls[i], ss[i + 1])
  }

  ghost predicate PcOk(s: State, p: nat)
    requires p < |s.pcs|
  {
    && (Holds(s.pcs[p]) ==> s.spin == Some(p))
    && (Owner(s.pcs[p]) ==> Holding(s, p))
    && (s.pcs[p].Asleep? ==> s.locked)
  }

  ghost predicate Inv(s: State) {
    && (forall p {:trigger PcOk(s, p)} :: 0 <= p < |s.pcs| ==> PcOk(s, p))
    && (s.locked ==> 0 < s.pid <= |s.pcs| && Owner(s.pcs[s.pid - 1]))
  }

  lemma {:induction false} StepKeepsInv(s: State, l: Label, t: State)
    requires Inv(s) && Follows(s, l, t)
    ensures Inv(t)
  {
    assert PcOk(s, l.p);
    forall p | 0 <= p < |t.pcs|
      ensures PcOk(t, p)
    {
      assert PcOk(s, p);
    }
  }

  lemma {:induction false} RunKeepsInv(ss: seq<State>, ls: seq<Label>, n: nat)
    requires IsRun(ss, ls) && n < |ss|
    ensures Inv(ss[n])
  {
    if n > 0 {
      RunKeepsInv(ss, ls, n - 1);
      hide Inv, Follows;
      assert Follows(ss[n - 1], ls[n - 1], ss[n]);
      StepKeepsInv(ss[n - 1], ls[n - 1], ss[n]);
    }
  }

  /** In every run, at every point: at most one process owns the lock, lk->pid names it, holdingsleep() answers yes to
      it alone, and a process asleep in acquiresleep() means that the lock is taken. */
  lemma {:induction false} OneOwner(ss: seq<State>, ls: seq<Label>, n: nat, p: nat, q: nat)
    requires IsRun(ss, ls) && n < |ss| && p < |ss[n].pcs| && q < |ss[n].pcs|
    ensures Owner(ss[n].pcs[p]) && Owner(ss[n].pcs[q]) ==> p == q
    ensures Owner(ss[n].pcs[p]) <==> Holding(ss[n], p)
    ensures ss[n].pcs[p].Asleep? ==> ss[n].locked && exists o :: 0 <= o < |ss[n].pcs| && o != p && Owner(ss[n].pcs[o])
  {
    RunKeepsInv(ss, ls, n);
    assert PcOk(ss[n], p) && PcOk(ss[n], q);
    if ss[n].locked {
      assert Owner(ss[n].pcs[ss[n].pid - 1]);
    }
  }

  // Who has taken the lock and not given it up, after n steps.
  ghost function Taken(ls: seq<Label>, n: nat): (r: Option<nat>)
    requires n <= |ls|
  {
    if n == 0 then None
    else
      match ls[n - 1]
      case Take(p) => Some(p)
      case Free(_) => None
      case _ => Taken(ls, n - 1)
  }

  lemma {:induction false} StepTaken(s: State, l: Label, t: State)
    requires Inv(s) && Follows(s, l, t)
    ensures l.Take? ==> !s.locked && t.locked && t.pid == l.p + 1
    ensures l.Free? ==> !t.locked && s.pid == l.p + 1
    ensures !l.Take? && !l.Free? ==> t.locked == s.locked && t.pid == s.pid
  {
    assert PcOk(s, l.p);
  }

  /** In every run the lock is taken exactly while somebody has come out of acquiresleep() and not yet released it, and
      that process is its owner. */
  lemma {:induction false} OwnerTookIt(ss: seq<State>, ls: seq<Label>, n: nat, p: nat)
    requires IsRun(ss, ls) && n < |ss| && p < |ss[n].pcs|
    ensures ss[n].locked <==> Taken(ls, n).Some?
    ensures Taken(ls, n).Some? ==> ss[n].pid == Taken(ls, n).value + 1
    ensures Owner(ss[n].pcs[p]) <==> Taken(ls, n) == Some(p)
  {
    hide Follows, Inv;
    TakenRuns(ss, ls, n);
    OneOwner(ss, ls, n, p, p);
  }

  lemma {:induction false} TakenRuns(ss: seq<State>, ls: seq<Label>, n: nat)
    requires IsRun(ss, ls) && n < |ss|
    ensures ss[n].locked <==> Taken(ls, n).Some?
    ensures Taken(ls, n).Some? ==> ss[n].pid == Taken(ls, n).value + 1
  {
    hide Follows, Inv;
    if n > 0 {
      TakenRuns(ss, ls, n - 1);
      RunKeepsInv(ss, ls, n - 1);
      assert Follows(ss[n - 1], ls[n - 1], ss[n]);
      StepTaken(ss[n - 1], ls[n - 1], ss[n]);
    }
  }
}
