/** The list structure of kernel/bio.c: the NBUF buffers and the sentinel head on one circular doubly linked
    list, most recently released first. A pointer into bcache.buf is the index of the buffer; NBUF is &head. */
module BufferList {

  // The list as a walk along next from the sentinel back to the sentinel.
  ghost predicate IsRing(r: seq<nat>, n: nat) {
    && |r| >= 2 && r[0] == n && r[|r| - 1] == n
    && (forall i :: 0 < i < |r| - 1 ==> r[i] < n)
    && (forall i, j :: 0 < i < j < |r| - 1 ==> r[i] != r[j])
  }

  // next and prev are mutually inverse along the walk.
  ghost predicate Linked(next: seq<nat>, prev: seq<nat>, r: seq<nat>, n: nat) {
    && |next| == |prev| == n + 1
    && IsRing(r, n)
    && forall i :: 0 <= i < |r| - 1 ==> next[r[i]] == r[i + 1] && prev[r[i + 1]] == r[i]
  }

  // b->next->prev = b->prev; b->prev->next = b->next, for the buffer at place p of the walk.
  lemma {:induction false} Unlinks(next: seq<nat>, prev: seq<nat>, r: seq<nat>, n: nat, p: nat)
    requires Linked(next, prev, r, n) && 0 < p < |r| - 1
    ensures next[r[p]] == r[p + 1] <= n && prev[r[p]] == r[p - 1] <= n
    ensures Linked(next[r[p - 1] := r[p + 1]], prev[r[p + 1] := r[p - 1]], r[..p] + r[p + 1..], n)
  {
    var next', prev', r' := next[r[p - 1] := r[p + 1]], prev[r[p + 1] := r[p - 1]], r[..p] + r[p + 1..];
    assert prev[r[p]] == r[p - 1] by {
      assert next[r[p - 1]] == r[p - 1 + 1];
    }
    assert forall i :: 0 <= i < p ==> r'[i] == r[i];
    assert forall i :: p <= i < |r'| ==> r'[i] == r[i + 1];
    assert IsRing(r', n);
    forall i | 0 <= i < |r'| - 1
      ensures next'[r'[i]] == r'[i + 1] && prev'[r'[i + 1]] == r'[i]
    {
      if i < p - 1 {
        assert next[r[i]] == r[i + 1] && prev[r[i + 1]] == r[i];
      } else if i > p - 1 {
        assert next[r[i + 1]] == r[i + 1 + 1] && prev[r[i + 1 + 1]] == r[i + 1];
      }
    }
  }

  // Insertion right after the sentinel of a buffer that is not on the list.
  lemma {:induction false} InsertsFront(next: seq<nat>, prev: seq<nat>, r: seq<nat>, n: nat, b: nat)
    requires Linked(next, prev, r, n) && b < n
    requires forall i :: 0 <= i < |r| ==> r[i] != b
    ensures next[n] == r[1] <= n
    ensures Linked(next[b := next[n]][n := b], prev[b := n][next[n] := b], [n, b] + r[1..], n)
  {
    assert next[r[0]] == r[1];
    var next', prev', r' := next[b := next[n]][n := b], prev[b := n][next[n] := b], [n, b] + r[1..];
    forall i | 0 <= i < |r'| - 1
      ensures next'[r'[i]] == r'[i + 1] && prev'[r'[i + 1]] == r'[i]
    {
      if i >= 2 {
        assert r'[i] == r[i - 1] && r'[i + 1] == r[i];
        assert next[r[i - 1]] == r[i - 1 + 1];
      }
    }
  }

  // The list contents, most recent first, between the two sentinels.
  ghost function Ring(order: seq<nat>, n: nat): (r: seq<nat>) {
    [n] + order + [n]
  }

  ghost function MoveToFront(order: seq<nat>, p: nat): (r: seq<nat>)
    requires p < |order|
  {
    [order[p]] + order[..p] + order[p + 1..]
  }

  // Every buffer is on the list once, and the list is sorted by release time, latest first.
  ghost predicate Sorted(order: seq<nat>, stamp: seq<int>, clock: int, n: nat) {
    && |order| == |stamp| == n
    && (forall b :: 0 <= b < n ==> b in order)
    && (forall i :: 0 <= i < n ==> order[i] < n && stamp[order[i]] < clock)
    && (forall i, j :: 0 <= i < j < n ==> stamp[order[i]] > stamp[order[j]])
  }

  // binit()'s order: the last buffer inserted comes first.
  ghost function Descending(b: nat): (r: seq<nat>)
    ensures |r| == b && forall i :: 0 <= i < b ==> r[i] == b - 1 - i
  {
    if b == 0 then [] else [b - 1] + Descending(b - 1)
  }

  lemma {:induction false} DescendingSorted(n: nat)
    ensures Sorted(Descending(n), seq(n, i => i), n, n)
  {
    forall b | 0 <= b < n
      ensures b in Descending(n)
    {
      assert Descending(n)[n - 1 - b] == b;
    }
  }

  lemma {:induction false} MovePlaces(order: seq<nat>, p: nat, i: nat)
    requires p < |order| && i < |order|
    ensures |MoveToFront(order, p)| == |order|
    ensures MoveToFront(order, p)[i] == if i == 0 then order[p] else if i <= p then order[i - 1] else order[i]
    ensures order[i] in MoveToFront(order, p)
  {
    var r := MoveToFront(order, p);
    if i < p {
      assert r[i + 1] == order[i];
    } else if i == p {
      assert r[0] == order[i];
    } else {
      assert r[i] == order[i];
    }
  }

  lemma {:induction false} MoveKeepsStamps(order: seq<nat>, stamp: seq<int>, clock: int, n: nat, p: nat, i: nat, j: nat)
    requires Sorted(order, stamp, clock, n) && p < n && i < j < n
    ensures |MoveToFront(order, p)| == n && MoveToFront(order, p)[i] < n && MoveToFront(order, p)[j] < n
    ensures stamp[order[p] := clock][MoveToFront(order, p)[i]] > stamp[order[p] := clock][MoveToFront(order, p)[j]]
  {
    MovePlaces(order, p, i);
    MovePlaces(order, p, j);
  }

  lemma {:induction false} PlaceOf(order: seq<nat>, stamp: seq<int>, clock: int, n: nat, b: nat) returns (p: nat)
    requires Sorted(order, stamp, clock, n) && b < n
    ensures p < n == |order| == |stamp| && order[p] == b
  {
    assert b in order;
    p :| 0 <= p < n && order[p] == b;
  }

  lemma {:induction false} MoveKeepsSorted(order: seq<nat>, stamp: seq<int>, clock: int, n: nat, p: nat)
    requires Sorted(order, stamp, clock, n) && p < n
    ensures Sorted(MoveToFront(order, p), stamp[order[p] := clock], clock + 1, n)
  {
    var r := MoveToFront(order, p);
    forall c | 0 <= c < n
      ensures c in r
    {
      assert c in order;
      var i :| 0 <= i < n && order[i] == c;
      MovePlaces(order, p, i);
    }
    forall i | 0 <= i < n
      ensures r[i] < n && stamp[order[p] := clock][r[i]] < clock + 1
    {
      MovePlaces(order, p, i);
    }
    forall i, j | 0 <= i < j < n
      ensures stamp[order[p] := clock][r[i]] > stamp[order[p] := clock][r[j]]
    {
      MoveKeepsStamps(order, stamp, clock, n, p, i, j);
    }
  }

  // Splicing out and back in at the front is MoveToFront on the list.
  lemma {:induction false} RelinksFront(next: seq<nat>, prev: seq<nat>, order: seq<nat>, n: nat, p: nat)
    requires Linked(next, prev, Ring(order, n), n) && p < |order|
    ensures var b := order[p];
            && b < n && next[b] <= n && prev[b] <= n
            && var next1, prev1 := next[prev[b] := next[b]], prev[next[b] := prev[b]];
            && next1[n] <= n
            && Linked(next1[b := next1[n]][n := b], prev1[b := n][next1[n] := b], Ring(MoveToFront(order, p), n), n)
  {
    var r := Ring(order, n);
    assert r[p + 1] == order[p];
    Unlinks(next, prev, r, n, p + 1);
    var rest := r[..p + 1] + r[p + 2..];
    var b := order[p];
    var next1, prev1 := next[prev[b] := next[b]], prev[next[b] := prev[b]];
    InsertsFront(next1, prev1, rest, n, b);
    assert [n, b] + rest[1..] == Ring(MoveToFront(order, p), n);
  }

  class Bcache {
    const n: nat
    var next: seq<nat>
    var prev: seq<nat>
    var dev: seq<nat>
    var blockno: seq<nat>
    var refcnt: seq<int>
    var valid: seq<bool>
    ghost var order: seq<nat> // the list, head.next first
    ghost var stamp: seq<int> // when brelse() last brought the buffer's refcnt to 0
    ghost var clock: int

    ghost predicate Valid()
      reads this
    {
      && |dev| == |blockno| == |refcnt| == |valid| == n
      && Linked(next, prev, Ring(order, n), n)
      && Sorted(order, stamp, clock, n)
    }

    constructor (n: nat)
      ensures Valid() && this.n == n
      ensures forall b :: 0 <= b < n ==> dev[b] == 0 && blockno[b] == 0 && refcnt[b] == 0 && !valid[b]
      ensures order == Descending(n)
    {
      this.n := n;
      dev, blockno := seq(n, _ => 0), seq(n, _ => 0);
      refcnt, valid := seq(n, _ => 0), seq(n, _ => false);
      next, prev := seq(n + 1, _ => n), seq(n + 1, _ => n);
      order, stamp, clock := Descending(0), seq(n, i => i), n;
      new;
      var b := 0;
      while b < n
        modifies this`next, this`prev, this`order
        invariant 0 <= b <= n
        invariant order == Descending(b) && Linked(next, prev, Ring(order, n), n)
      {
        InsertHead(b);
        order := Descending(b + 1);
        b := b + 1;
      }
      DescendingSorted(n);
    }

    // One turn of binit(): insert b right after the sentinel.
    method InsertHead(b: nat)
      requires b < n && order == Descending(b) && Linked(next, prev, Ring(order, n), n)
      modifies this`next, this`prev
      ensures Linked(next, prev, Ring(Descending(b + 1), n), n)
    {
      InsertsFront(next, prev, Ring(order, n), n, b);
      assert [n, b] + Ring(order, n)[1..] == Ring(Descending(b + 1), n);
      next, prev := next[b := next[n]], prev[b := n];
      prev := prev[next[n] := b];
      next := next[n := b];
    }

    // The first scan of bget(): b is the place of (d, k) on the list, or n.
    method FindCached(d: nat, k: nat) returns (b: nat, ghost p: nat)
      requires Valid()
      ensures b <= n
      ensures b < n ==> p < n && order[p] == b && dev[b] == d && blockno[b] == k
      ensures b < n ==> forall i :: 0 <= i < p ==> !(dev[order[i]] == d && blockno[order[i]] == k)
      ensures b == n ==> forall c :: 0 <= c < n ==> !(dev[c] == d && blockno[c] == k)
    {
      ghost var r := Ring(order, n);
      assert next[r[0]] == r[1];
      b, p := next[n], 0;
      while b != n && !(dev[b] == d && blockno[b] == k)
        invariant 0 <= p <= n && b == r[p + 1]
        invariant forall i :: 0 <= i < p ==> !(dev[order[i]] == d && blockno[order[i]] == k)
        decreases n - p
      {
        assert next[r[p + 1]] == r[p + 1 + 1];
        b, p := next[b], p + 1;
      }
      if b == n {
        forall c | 0 <= c < n
          ensures !(dev[c] == d && blockno[c] == k)
        {
          assert c in order;
        }
      }
    }

    // The second scan, from the other end: the unused buffer that comes last, or n.
    method FindUnused() returns (b: nat, ghost p: nat)
      requires Valid()
      ensures b <= n
      ensures b < n ==> p < n && order[p] == b && refcnt[b] == 0
      ensures b < n ==> forall c :: 0 <= c < n && refcnt[c] == 0 ==> stamp[b] <= stamp[c]
      ensures b == n ==> forall c :: 0 <= c < n ==> refcnt[c] != 0
    {
      ghost var r := Ring(order, n);
      assert next[r[n]] == r[n + 1];
      ghost var q := n;
      b := prev[n];
      while b != n && refcnt[b] != 0
        invariant 0 <= q <= n && b == r[q]
        invariant forall i :: q <= i < n ==> refcnt[order[i]] != 0
        decreases q
      {
        assert next[r[q - 1]] == r[q - 1 + 1];
        b, q := prev[b], q - 1;
      }
      p := if q > 0 then q - 1 else 0;
      forall c | 0 <= c < n && refcnt[c] == 0
        ensures b < n && stamp[b] <= stamp[c]
      {
        assert c in order;
        var i :| 0 <= i < n && order[i] == c;
      }
    }

    /** bget() up to the sleep-lock: a hit takes one more reference to the cached buffer; a miss recycles the
        buffer with no references whose last release is the oldest; with every buffer in use it panics. */
    method Bget(d: nat, k: nat) returns (b: nat, panic: bool)
      requires Valid()
      modifies this`dev, this`blockno, this`refcnt, this`valid
      ensures Valid()
      ensures panic <==> (forall c :: 0 <= c < n ==> !(old(dev)[c] == d && old(blockno)[c] == k) && old(refcnt)[c] != 0)
      ensures panic ==> dev == old(dev) && blockno == old(blockno) && refcnt == old(refcnt) && valid == old(valid)
      ensures !panic ==> b < n
      ensures !panic && (exists c :: 0 <= c < n && old(dev)[c] == d && old(blockno)[c] == k) ==>
                && old(dev)[b] == d && old(blockno)[b] == k && refcnt == old(refcnt)[b := old(refcnt)[b] + 1]
                && dev == old(dev) && blockno == old(blockno) && valid == old(valid)
      ensures !panic && !(exists c :: 0 <= c < n && old(dev)[c] == d && old(blockno)[c] == k) ==>
                && old(refcnt)[b] == 0
                && (forall c :: 0 <= c < n && old(refcnt)[c] == 0 ==> stamp[b] <= stamp[c])
                && dev == old(dev)[b := d] && blockno == old(blockno)[b := k]
                && refcnt == old(refcnt)[b := 1] && valid == old(valid)[b := false]
    {
      ghost var p;
      b, p := FindCached(d, k);
      if b < n {
        assert dev[b] == d && blockno[b] == k;
        refcnt := refcnt[b := refcnt[b] + 1];
        return b, false;
      }
      b, p := FindUnused();
      if b < n {
        dev, blockno := dev[b := d], blockno[b := k];
        valid, refcnt := valid[b := false], refcnt[b := 1];
        return b, false;
      }
      return n, true;
    }

    // The six pointer assignments of brelse().
    method Relink(b: nat, ghost p: nat)
      requires Linked(next, prev, Ring(order, n), n) && p < |order| && order[p] == b
      modifies this`next, this`prev
      ensures Linked(next, prev, Ring(MoveToFront(order, p), n), n)
    {
      RelinksFront(next, prev, order, n, p);
      var after, before := next[b], prev[b];
      prev := prev[after := before];
      next := next[before := after];
      next := next[b := next[n]];
      prev := prev[b := n];
      prev := prev[next[n] := b];
      next := next[n := b];
    }

    /** brelse() after the sleep-lock is released: the last reference moves the buffer to the front. */
    method Brelse(b: nat)
      requires Valid() && b < n && refcnt[b] > 0
      modifies this`refcnt, this`next, this`prev, this`order, this`stamp, this`clock
      ensures Valid()
      ensures refcnt == old(refcnt)[b := old(refcnt)[b] - 1]
      ensures refcnt[b] > 0 ==> order == old(order) && stamp == old(stamp) && next == old(next) && prev == old(prev)
      ensures refcnt[b] == 0 ==> (exists p :: 0 <= p < n && old(order)[p] == b && order == MoveToFront(old(order), p))
                                 && stamp == old(stamp)[b := old(clock)]
    {
      hide Ring, MoveToFront, Linked;
      ghost var p := PlaceOf(order, stamp, clock, n, b);
      hide Sorted;
      refcnt := refcnt[b := refcnt[b] - 1];
      if refcnt[b] == 0 {
        MoveKeepsSorted(order, stamp, clock, n, p);
        Relink(b, p);
        order, stamp, clock := MoveToFront(order, p), stamp[b := clock], clock + 1;
      }
    }

    method Bpin(b: nat)
      requires Valid() && b < n
      modifies this`refcnt
      ensures Valid() && refcnt == old(refcnt)[b := old(refcnt)[b] + 1]
    {
      refcnt := refcnt[b := refcnt[b] + 1];
    }

    method Bunpin(b: nat)
      requires Valid() && b < n && refcnt[b] > 0
      modifies this`refcnt
      ensures Valid() && refcnt == old(refcnt)[b := old(refcnt)[b] - 1]
    {
      refcnt := refcnt[b := refcnt[b] - 1];
    }
  }
}
