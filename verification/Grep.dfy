/** user/grep.c: the matcher and the line loop. A C string is the sequence of its characters before the NUL. */
module Grep {

  datatype Item = Star(c: char) | End | One(c: char)

  // What a pattern asks for, item by item.
  function Items(re: string): (r: seq<Item>) {
    if re == "" then []
    else if 1 < |re| && re[1] == '*' then [Star(re[0])] + Items(re[2..])
    else if re == "$" then [End]
    else [One(re[0])] + Items(re[1..])
  }

  predicate OneOf(c: char, x: char) {
    c == '.' || c == x
  }

  // The strings an item stands for.
  predicate Fits(it: Item, s: string) {
    match it
    case Star(c) => forall k :: 0 <= k < |s| ==> OneOf(c, s[k])
    case End => s == ""
    case One(c) => |s| == 1 && OneOf(c, s[0])
  }

  ghost function Flat(pieces: seq<string>): (s: string) {
    if pieces == [] then "" else pieces[0] + Flat(pieces[1..])
  }

  // The pieces spell a prefix of the text, all of it when the items hold a '$'.
  ghost predicate Spelled(items: seq<Item>, pieces: seq<string>, text: string) {
    && |pieces| == |items| && (forall k :: 0 <= k < |items| ==> Fits(items[k], pieces[k]))
    && Flat(pieces) <= text && (End in items ==> Flat(pieces) == text)
  }

  ghost predicate Matches(items: seq<Item>, text: string) {
    exists pieces :: Spelled(items, pieces, text)
  }

  // The texts a whole pattern is meant to find: anchored at the start by '^', anywhere in the text otherwise.
  ghost predicate Found(re: string, text: string) {
    if re != "" && re[0] == '^' then Matches(Items(re[1..]), text) else FoundFrom(Items(re), text)
  }

  ghost predicate FoundFrom(items: seq<Item>, text: string) {
    exists k :: 0 <= k <= |text| && Matches(items, text[k..])
  }

  lemma {:induction false} NoneMatches(text: string)
    ensures Matches([], text)
  {
    assert Spelled([], [], text);
  }

  lemma {:induction false} EndMatches(text: string)
    ensures Matches([End], text) <==> text == ""
  {
    if text == "" {
      assert Spelled([End], [""], text);
    }
    if Matches([End], text) {
      var pieces :| Spelled([End], pieces, text);
      assert [End][0] == End && pieces[1..] == [];
      assert Fits([End][0], pieces[0]) && Flat(pieces) == pieces[0] + Flat([]) == "";
      assert End in [End] && Flat(pieces) == text;
    }
  }

  // An item in front takes the first j characters.
  lemma {:induction false} Prepend(it: Item, rest: seq<Item>, text: string, j: nat)
    requires !it.End? && j <= |text| && Fits(it, text[..j]) && Matches(rest, text[j..])
    ensures Matches([it] + rest, text)
  {
    var pieces :| Spelled(rest, pieces, text[j..]);
    var all, items := [text[..j]] + pieces, [it] + rest;
    assert all[1..] == pieces;
    assert text[..j] + text[j..] == text;
    forall k | 0 <= k < |items|
      ensures Fits(items[k], all[k])
    {
      assert 0 < k ==> items[k] == rest[k - 1] && all[k] == pieces[k - 1];
    }
    assert Spelled(items, all, text);
  }

  lemma {:induction false} Split(it: Item, rest: seq<Item>, text: string) returns (j: nat)
    requires !it.End? && Matches([it] + rest, text)
    ensures j <= |text| && Fits(it, text[..j]) && Matches(rest, text[j..])
  {
    var items := [it] + rest;
    var all :| Spelled(items, all, text);
    var pieces := all[1..];
    j := |all[0]|;
    assert Flat(all) == all[0] + Flat(pieces);
    assert text[..j] == all[0] && Flat(pieces) <= text[j..] && Fits(items[0], all[0]);
    forall k | 0 <= k < |rest|
      ensures Fits(rest[k], pieces[k])
    {
      assert Fits(items[k + 1], all[k + 1]);
    }
    if End in rest {
      assert End in items;
      assert Flat(pieces) == text[j..];
    }
    assert Spelled(rest, pieces, text[j..]);
  }

  lemma {:induction false} OneMatches(c: char, rest: seq<Item>, text: string)
    ensures Matches([One(c)] + rest, text) <==> text != "" && OneOf(c, text[0]) && Matches(rest, text[1..])
  {
    if Matches([One(c)] + rest, text) {
      var j := Split(One(c), rest, text);
    }
    if text != "" && OneOf(c, text[0]) && Matches(rest, text[1..]) {
      Prepend(One(c), rest, text, 1);
    }
  }

  ghost predicate StarFrom(c: char, rest: seq<Item>, text: string) {
    exists j :: 0 <= j <= |text| && Fits(Star(c), text[..j]) && Matches(rest, text[j..])
  }

  lemma {:induction false} StarMatches(c: char, rest: seq<Item>, text: string)
    ensures Matches([Star(c)] + rest, text) <==> StarFrom(c, rest, text)
  {
    if Matches([Star(c)] + rest, text) {
      var j := Split(Star(c), rest, text);
      assert Fits(Star(c), text[..j]) && Matches(rest, text[j..]);
    }
    if StarFrom(c, rest, text) {
      var j :| 0 <= j <= |text| && Fits(Star(c), text[..j]) && Matches(rest, text[j..]);
      Prepend(Star(c), rest, text, j);
    }
  }

  /** matchhere() is sound and complete for the language of the pattern's items. */
  method MatchHere(re: string, text: string) returns (r: bool)
    ensures r <==> Matches(Items(re), text)
    decreases |re|, 0
  {
    hide Matches;
    if re == "" {
      NoneMatches(text);
      return true;
    }
    if 1 < |re| && re[1] == '*' {
      StarMatches(re[0], Items(re[2..]), text);
      r := MatchStar(re[0], re[2..], text);
    } else if re == "$" {
      EndMatches(text);
      r := text == "";
    } else {
      OneMatches(re[0], Items(re[1..]), text);
      if text != "" && (re[0] == '.' || re[0] == text[0]) {
        r := MatchHere(re[1..], text[1..]);
      } else {
        r := false;
      }
    }
  }

  method MatchStar(c: char, re: string, text: string) returns (r: bool)
    ensures r <==> StarFrom(c, Items(re), text)
    decreases |re|, 1
  {
    hide Matches;
    var i := 0;
    while true
      invariant 0 <= i <= |text| && Fits(Star(c), text[..i])
      invariant forall j :: 0 <= j < i ==> !Matches(Items(re), text[j..])
      decreases |text| - i
    {
      var here := MatchHere(re, text[i..]);
      if here {
        return true;
      }
      if !(i < |text| && (text[i] == c || c == '.')) {
        assert forall j :: i < j <= |text| ==> !OneOf(c, text[..j][i]);
        return false;
      }
      i := i + 1;
    }
  }

  /** match() finds a text exactly when the pattern's language says so. */
  method Match(re: string, text: string) returns (r: bool)
    ensures r <==> Found(re, text)
  {
    hide Matches;
    if re != "" && re[0] == '^' {
      r := MatchHere(re[1..], text);
      return;
    }
    var i := 0;
    while true
      invariant 0 <= i <= |text|
      invariant forall k :: 0 <= k < i ==> !Matches(Items(re), text[k..])
      decreases |text| - i
    {
      var here := MatchHere(re, text[i..]);
      if here {
        return true;
      }
      if i == |text| {
        return false;
      }
      i := i + 1;
    }
  }

  // ---- grep()

  const SIZE: nat := 1024
  const NUL: char := '\0'

  // The first newline that no NUL precedes.
  predicate FirstLine(s: string, e: nat) {
    e < |s| && s[e] == '\n' && forall k :: 0 <= k < e ==> s[k] != '\n' && s[k] != NUL
  }

  ghost predicate HasLine(s: string) {
    exists e :: FirstLine(s, e)
  }

  ghost function LineEnd(s: string): (e: nat)
    requires '\n' in s
    ensures e < |s| && s[e] == '\n' && forall k :: 0 <= k < e ==> s[k] != '\n'
  {
    if s[0] == '\n' then 0 else 1 + LineEnd(s[1..])
  }

  // A line that fits the buffer with its newline and a NUL, and holds no NUL itself.
  predicate Fitting(line: string) {
    |line| + 1 < SIZE && NUL !in line
  }

  // What is printed: the lines that match, up to the first that is not fitting.
  ghost function Printed(re: string, input: string): (out: string)
    decreases |input|
  {
    if '\n' !in input then ""
    else
      var e := LineEnd(input);
      if !Fitting(input[..e]) then ""
      else (if Found(re, input[..e]) then input[..e + 1] else "") + Printed(re, input[e + 1..])
  }

  // Every complete line that matches.
  ghost function Wanted(re: string, input: string): (out: string)
    decreases |input|
  {
    if '\n' !in input then ""
    else
      var e := LineEnd(input);
      (if Found(re, input[..e]) then input[..e + 1] else "") + Wanted(re, input[e + 1..])
  }

  ghost predicate AllFitting(input: string)
    decreases |input|
  {
    '\n' in input ==> Fitting(input[..LineEnd(input)]) && AllFitting(input[LineEnd(input) + 1..])
  }

  /** The loop prints what is wanted for every pattern if and only if every complete line is shorter than 1023
      characters and holds no NUL. */
  lemma {:induction false} PrintedExact(input: string)
    ensures AllFitting(input) <==> forall re :: Printed(re, input) == Wanted(re, input)
  {
    if AllFitting(input) {
      forall re
        ensures Printed(re, input) == Wanted(re, input)
      {
        PrintedAll(re, input);
      }
    } else {
      PrintedLess(input);
      assert Printed("", input) != Wanted("", input);
    }
  }

  lemma {:induction false} PrintedAll(re: string, input: string)
    requires AllFitting(input)
    ensures Printed(re, input) == Wanted(re, input)
    decreases |input|
  {
    if '\n' in input {
      PrintedAll(re, input[LineEnd(input) + 1..]);
    }
  }

  lemma {:induction false} EmptyFinds(text: string)
    ensures Found("", text)
  {
    NoneMatches(text);
    assert text[0..] == text;
  }

  lemma {:induction false} PrintedLess(input: string)
    requires !AllFitting(input)
    ensures |Printed("", input)| < |Wanted("", input)|
    decreases |input|
  {
    var e := LineEnd(input);
    EmptyFinds(input[..e]);
    if Fitting(input[..e]) {
      PrintedLess(input[e + 1..]);
    }
  }

  /** Such lines exist: one of 1023 characters is never printed, and so neither is what follows it. */
  lemma {:induction false} LongLine(rest: string) returns (input: string)
    ensures |input| == 1024 + |rest| && input[1024..] == rest
    ensures Printed("", input) == "" && |Wanted("", input)| >= 1024
  {
    var line := seq(1023, _ => 'a');
    input := line + "\n" + rest;
    assert input[1023] == '\n' && forall k :: 0 <= k < 1023 ==> input[k] == 'a';
    var e := LineEnd(input);
    assert e == 1023 && |input[..e]| == 1023;
    EmptyFinds(input[..e]);
  }

  // strchr(p, '\n') in a buffer that holds s and then a NUL.
  method StrChr(s: string) returns (q: int)
    ensures q < 0 ==> !HasLine(s)
    ensures 0 <= q ==> FirstLine(s, q)
  {
    q := 0;
    while q < |s| && s[q] != NUL
      invariant 0 <= q <= |s| && forall k :: 0 <= k < q ==> s[k] != '\n' && s[k] != NUL
    {
      if s[q] == '\n' {
        return;
      }
      q := q + 1;
    }
    NoLine(s, q);
    q := -1;
  }

  lemma {:induction false} NoLine(s: string, q: nat)
    requires q <= |s| && (q < |s| ==> s[q] == NUL) && forall k :: 0 <= k < q ==> s[k] != '\n'
    ensures !HasLine(s)
  {
  }

  // The first line of what is in the buffer is the first line of the input.
  lemma {:induction false} LineStep(re: string, input: string, e: nat)
    requires FirstLine(input, e) && e + 1 < SIZE
    ensures Printed(re, input) == (if Found(re, input[..e]) then input[..e + 1] else "") + Printed(re, input[e + 1..])
  {
    hide Found;
    assert LineEnd(input) == e;
  }

  // A buffer that is full, or holds the rest of the input, with no line in it.
  lemma {:induction false} NothingMore(re: string, input: string, m: nat)
    requires m <= |input| && (m == |input| || m + 1 == SIZE) && !HasLine(input[..m])
    ensures Printed(re, input) == ""
  {
    hide Found;
    if '\n' in input {
      var e := LineEnd(input);
      assert NUL !in input[..e] ==> forall k :: 0 <= k < e ==> input[..e][k] != NUL;
      assert !FirstLine(input[..m], e);
    }
  }

  /** grep(): however read() cuts the input into pieces, the output is the same. */
  method Grep(buf: array<char>, pattern: string, input: string) returns (out: string)
    requires buf.Length == SIZE
    modifies buf
    ensures out == Printed(pattern, input)
  {
    hide Printed, Found, HasLine;
    out := "";
    var m, pos := 0, 0; // bytes in the buffer, bytes read
    ghost var rest := input; // the input from the buffer's first byte on
    NoLine("", 0);
    assert buf[..0] == "" && input[0..] == input;
    while true
      invariant 0 <= m < SIZE && m <= pos <= |input| && rest == input[pos - m..] && buf[..m] == rest[..m]
      invariant !HasLine(buf[..m]) && out + Printed(pattern, rest) == Printed(pattern, input)
      decreases |input| - pos
    {
      var n := Read(SIZE - m - 1, |input| - pos);
      if n == 0 {
        NothingMore(pattern, rest, m);
        return;
      }
      Longer(input, pos - m, m, n);
      Fill(buf, m, input[pos..pos + n]);
      m, pos := m + n, pos + n;
      var p, more := Lines(buf, pattern, m, rest);
      out := out + more;
      Shorter(rest, p, m);
      assert rest[p..] == input[pos - (m - p)..];
      Shift(buf, p, m);
      rest, m := rest[p..], m - p;
    }
  }

  lemma {:induction false} Longer(s: string, i: nat, m: nat, n: nat)
    requires i + m + n <= |s|
    ensures s[i..][..m] + s[i + m..i + m + n] == s[i..][..m + n]
  {
  }

  lemma {:induction false} Shorter(s: string, p: nat, m: nat)
    requires p <= m <= |s|
    ensures s[p..m] == s[p..][..m - p]
  {
  }

  method Fill(buf: array<char>, m: nat, bytes: string)
    requires m + |bytes| < buf.Length
    modifies buf
    ensures buf[..m + |bytes|] == old(buf[..m]) + bytes && buf[m + |bytes|] == NUL
  {
    forall i | 0 <= i < |bytes| {
      buf[m + i] := bytes[i];
    }
    buf[m + |bytes|] := NUL;
  }

  // memmove(buf, buf + p, m - p)
  method Shift(buf: array<char>, p: nat, m: nat)
    requires p <= m <= buf.Length
    modifies buf
    ensures buf[..m - p] == old(buf[p..m])
  {
    forall i | 0 <= i < m - p {
      buf[i] := buf[p + i];
    }
  }

  // read(): some bytes unless none are left or none are asked for.
  method Read(room: nat, left: nat) returns (n: nat)
    ensures n <= room && n <= left && (n == 0 <==> room == 0 || left == 0)
  {
    if room == 0 || left == 0 {
      n := 0;
    } else {
      n :| 0 < n <= room && n <= left;
    }
  }

  // The line that ends at k in rest[p..m] is the first line of rest[p..].
  lemma {:induction false} LineOf(rest: string, p: nat, m: nat, was: string, k: nat)
    requires p <= m <= |rest| && was == rest[p..m] && FirstLine(was, k)
    ensures p + k < m && FirstLine(rest[p..], k)
    ensures rest[p..][..k] == was[..k] && rest[p..][..k + 1] == was[..k] + ['\n']
    ensures rest[p..][k + 1..] == rest[p + k + 1..] && was[k + 1..] == rest[p + k + 1..m]
  {
    assert forall x :: 0 <= x < |was| ==> rest[p..][x] == was[x];
  }

  // The inner loop: prints the matching lines of the buffer and gives the start of the part that is left.
  method Lines(buf: array<char>, pattern: string, m: nat, ghost rest: string) returns (p: nat, out: string)
    requires m < buf.Length == SIZE && m <= |rest| && buf[..m] == rest[..m]
    modifies buf
    ensures p <= m && buf[p..m] == rest[p..m] && !HasLine(buf[p..m])
    ensures out + Printed(pattern, rest[p..]) == Printed(pattern, rest)
  {
    hide Printed, Found, HasLine, FirstLine;
    p, out := 0, "";
    assert rest[0..] == rest;
    while true
      invariant p <= m && buf[p..m] == rest[p..m] && out + Printed(pattern, rest[p..]) == Printed(pattern, rest)
      decreases m - p
    {
      var k := StrChr(buf[p..m]);
      if k < 0 {
        return;
      }
      var q: nat := p + k;
      ghost var was := buf[p..m];
      LineOf(rest, p, m, was, k);
      LineStep(pattern, rest[p..], k);
      buf[q] := NUL;
      assert buf[p..q] == was[..k];
      var matched := Match(pattern, buf[p..q]);
      if matched {
        buf[q] := '\n';
        assert buf[p..q + 1] == buf[p..q] + ['\n'];
        out := out + buf[p..q + 1];
      }
      assert buf[q + 1..m] == was[k + 1..];
      p := q + 1;
    }
  }
}
