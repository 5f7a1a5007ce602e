/** Durable block storage as the log sees it: a row of blocks, changed one atomic block write at a time. */
module Disk {

  // BSIZE / sizeof(int): a block seen as the array of ints that struct logheader overlays on it.
  const WORDS: nat := 256

  datatype Block = Block(words: seq<int>)

  type Image = seq<Block>

  datatype Write = Write(at: nat, value: Block)

  ghost predicate Fits(d: Image, ws: seq<Write>) {
    forall i :: 0 <= i < |ws| ==> ws[i].at < |d|
  }

  // The image after the writes, in order. A crash is the same thing for a prefix of them.
  ghost function Apply(d: Image, ws: seq<Write>): (r: Image)
    requires Fits(d, ws)
    ensures |r| == |d|
  {
    if ws == [] then d
    else
      var last := ws[|ws| - 1];
      Apply(d, ws[..|ws| - 1])[last.at := last.value]
  }

  lemma {:induction false} ApplyNone(d: Image)
    ensures Fits(d, []) && Apply(d, []) == d
  {
  }

  lemma {:induction false} ApplyAppend(d: Image, ws: seq<Write>, vs: seq<Write>)
    requires Fits(d, ws + vs)
    ensures Fits(d, ws) && Fits(d, vs)
    ensures Apply(d, ws + vs) == Apply(Apply(d, ws), vs)
  {
    assert forall i :: 0 <= i < |ws| ==> ws[i] == (ws + vs)[i];
    assert forall i :: 0 <= i < |vs| ==> vs[i] == (ws + vs)[|ws| + i];
    if vs == [] {
      assert ws + vs == ws;
    } else {
      assert (ws + vs)[..|ws + vs| - 1] == ws + vs[..|vs| - 1];
      ApplyAppend(d, ws, vs[..|vs| - 1]);
    }
  }

  lemma {:induction false} ApplyUntouched(d: Image, ws: seq<Write>, b: nat)
    requires Fits(d, ws) && b < |d|
    requires forall i :: 0 <= i < |ws| ==> ws[i].at != b
    ensures Apply(d, ws)[b] == d[b]
  {
    if ws != [] {
      ApplyUntouched(d, ws[..|ws| - 1], b);
    }
  }

  // When no address repeats, each written block ends with the value of its own write.
  lemma {:induction false} ApplyDistinct(d: Image, ws: seq<Write>, t: nat)
    requires Fits(d, ws) && t < |ws|
    requires forall i, j :: 0 <= i < j < |ws| ==> ws[i].at != ws[j].at
    ensures Apply(d, ws)[ws[t].at] == ws[t].value
  {
    if t < |ws| - 1 {
      ApplyDistinct(d, ws[..|ws| - 1], t);
    }
  }

  lemma {:induction false} ApplyNext(d: Image, ws: seq<Write>, k: nat)
    requires Fits(d, ws) && k < |ws|
    ensures Fits(d, ws[..k]) && Fits(d, ws[..k + 1])
    ensures Apply(d, ws[..k + 1]) == Apply(d, ws[..k])[ws[k].at := ws[k].value]
  {
    assert ws[..k + 1][..k] == ws[..k];
  }
}
