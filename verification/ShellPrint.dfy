/** Printing a command tree for user/sh.c and reading it back. */
module ShellPrint {
  import opened Shell

  // The words of a parsed command.
  function WordText(line: string, w: Slice): (s: string) {
    if w.q <= w.eq <= |line| then line[w.q..w.eq] else ""
  }

  function Texts(line: string, ws: seq<Slice>): (r: seq<string>)
    ensures |r| == |ws| && forall k :: 0 <= k < |ws| ==> r[k] == WordText(line, ws[k])
  {
    seq(|ws|, k requires 0 <= k < |ws| => WordText(line, ws[k]))
  }

  function Text(line: string, c: Cmd<Slice>): (t: Cmd<string>) {
    match c
    case Exec(args) => Exec(Texts(line, args))
    case Redir(d, file, mode) => Redir(Text(line, d), WordText(line, file), mode)
    case Pipe(l, r) => Pipe(Text(line, l), Text(line, r))
    case List(l, r) => List(Text(line, l), Text(line, r))
    case Back(d) => Back(Text(line, d))
  }

  predicate ValidWord(w: string) {
    0 < |w| && forall k :: 0 <= k < |w| ==> IsWordChar(w[k])
  }

  predicate Valid(t: Cmd<string>) {
    match t
    case Exec(args) => |args| <= 9 && forall k :: 0 <= k < |args| ==> ValidWord(args[k])
    case Redir(d, file, _) => Valid(d) && ValidWord(file)
    case Pipe(l, r) => Valid(l) && Valid(r)
    case List(l, r) => Valid(l) && Valid(r)
    case Back(d) => Valid(d)
  }

  function Join(args: seq<string>): (s: string) {
    if args == [] then "" else if |args| == 1 then args[0] else args[0] + " " + Join(args[1..])
  }

  function Op(mode: Mode): string {
    match mode
    case Read => "<"
    case Write => ">"
    case Append => ">>"
  }

  // Every subcommand in parentheses.
  function Print(t: Cmd<string>): (s: string) {
    match t
    case Exec(args) => Join(args)
    case Redir(d, file, mode) => "(" + Print(d) + ")" + Op(mode) + file
    case Pipe(l, r) => "(" + Print(l) + ")" + "|" + ("(" + Print(r) + ")")
    case List(l, r) => "(" + Print(l) + ")" + ";" + ("(" + Print(r) + ")")
    case Back(d) => "(" + Print(d) + ")" + "&"
  }

  // s stands in the line at i.
  predicate At(line: string, i: nat, s: string) {
    i + |s| <= |line| && line[i..i + |s|] == s
  }

  lemma {:induction false} AtSplit(line: string, i: nat, a: string, b: string)
    requires At(line, i, a + b)
    ensures At(line, i, a) && At(line, i + |a|, b)
  {
    assert (a + b)[..|a|] == a && (a + b)[|a|..] == b;
    assert line[i..i + |a|] == line[i..i + |a + b|][..|a|];
    assert line[i + |a|..i + |a| + |b|] == line[i..i + |a + b|][|a|..];
  }

  lemma {:induction false} AtChar(line: string, i: nat, s: string, k: nat)
    requires At(line, i, s) && k < |s|
    ensures i + k < |line| && line[i + k] == s[k]
  {
    assert line[i..i + |s|][k] == s[k];
  }

  // Nothing of a command comes at j.
  predicate Stop(line: string, j: nat) {
    j == |line| || (j < |line| && line[j] == ')')
  }

  lemma {:induction false} NoSkip(line: string, i: nat)
    requires i <= |line| && (i < |line| ==> !IsSpace(line[i]))
    ensures Skip(line, i) == i
  {
  }

  lemma {:induction false} NoRedirs(line: string, i: nat, rs: seq<Redirect<Slice>>)
    requires i <= |line| && GoodRedirs(line, rs)
    requires (i < |line| ==> !IsSpace(line[i]) && line[i] != '<' && line[i] != '>')
    ensures Redirs(line, i, rs) == Ok(rs, i)
  {
    NoSkip(line, i);
  }

  // A word at i, followed by something else.
  lemma {:induction false} WordToken(line: string, i: nat, w: string)
    requires ValidWord(w) && At(line, i, w) && (i + |w| < |line| ==> !IsWordChar(line[i + |w|]))
    ensures Token1(line, i) == (Word(Slice(i, i + |w|)), Skip(line, i + |w|))
    ensures WordText(line, Slice(i, i + |w|)) == w && i < |line| && IsWordChar(line[i])
  {
    forall k | i <= k < i + |w|
      ensures IsWordChar(line[k])
    {
      AtChar(line, i, w, k - i);
    }
    NoSkip(line, i);
    assert WordEnd(line, i) == i + |w|;
  }

  // The list ends here.
  lemma {:induction false} ArgsStop(line: string, i: nat, done: seq<Slice>)
    requires Stop(line, i) && |done| < MAXARGS && forall k :: 0 <= k < |done| ==> IsWord(line, done[k])
    ensures Args(line, i, done, []) == Ok(Exec(done), i)
  {
    NoSkip(line, i);
  }

  lemma {:induction false} ArgsParse(
      args: seq<string>, done: seq<Slice>, line: string, i: nat, end: nat)
    returns (ws: seq<Slice>)
    requires |done| + |args| <= 9 && (forall k :: 0 <= k < |args| ==> ValidWord(args[k])) && At(line, i, Join(args))
    requires (forall k :: 0 <= k < |done| ==> IsWord(line, done[k])) && end == i + |Join(args)| && Stop(line, end)
    ensures Args(line, i, done, []) == Ok(Exec(done + ws), end) && Texts(line, ws) == args
    decreases |args|
  {
    hide Args, Token1, IsWord, ValidWord, IsWordChar, IsSpace, WordText, At, Stop;
    if args == [] {
      ws := [];
      ArgsStop(line, i, done);
      assert done + [] == done;
    } else {
      hide Join;
      var s := Slice(i, i + |args[0]|);
      var n := WordThenRest(args, line, i, end);
      ArgsStep(line, i, done, s, n);
      var rest := ArgsParse(args[1..], done + [s], line, n, end);
      ws := [s] + rest;
      assert done + [s] + rest == done + ws;
      assert args == [args[0]] + args[1..];
    }
  }

  lemma {:induction false} LastWord(w: string, line: string, i: nat)
    requires ValidWord(w) && At(line, i, w) && Stop(line, i + |w|)
    ensures i < |line| && IsWordChar(line[i]) && Token1(line, i) == (Word(Slice(i, i + |w|)), i + |w|)
    ensures IsWord(line, Slice(i, i + |w|)) && WordText(line, Slice(i, i + |w|)) == w
  {
    WordToken(line, i, w);
    NoSkip(line, i + |w|);
    hide At, IsWord, ValidWord;
  }

  // A word, a space, and another word after it.
  lemma {:induction false} SpacedWord(w: string, line: string, i: nat)
    requires ValidWord(w) && At(line, i, w) && i + |w| + 1 < |line| && line[i + |w|] == ' '
    requires IsWordChar(line[i + |w| + 1])
    ensures i < |line| && IsWordChar(line[i]) && Token1(line, i) == (Word(Slice(i, i + |w|)), i + |w| + 1)
    ensures IsWord(line, Slice(i, i + |w|)) && WordText(line, Slice(i, i + |w|)) == w
  {
    WordToken(line, i, w);
    NoSkip(line, i + |w| + 1);
    hide At, IsWord, ValidWord;
  }

  // One word of the list and the position of the next.
  lemma {:induction false} WordThenRest(args: seq<string>, line: string, i: nat, end: nat) returns (n: nat)
    requires 0 < |args| && (forall k :: 0 <= k < |args| ==> ValidWord(args[k])) && At(line, i, Join(args))
    requires end == i + |Join(args)| && Stop(line, end)
    ensures i < |line| && IsWordChar(line[i]) && Token1(line, i) == (Word(Slice(i, i + |args[0]|)), n)
    ensures IsWord(line, Slice(i, i + |args[0]|)) && WordText(line, Slice(i, i + |args[0]|)) == args[0]
    ensures i < n <= |line| && At(line, n, Join(args[1..])) && end == n + |Join(args[1..])|
    ensures n < |line| ==> !IsSpace(line[n]) && line[n] != '<' && line[n] != '>'
  {
    hide Token1, IsWord, WordText;
    var w, e := args[0], i + |args[0]|;
    if |args| == 1 {
      n := e;
      LastWord(w, line, i);
      assert args[1..] == [] && ValidWord(w);
    } else {
      n := e + 1;
      AtSplit(line, i, w + " ", Join(args[1..]));
      AtSplit(line, i, w, " ");
      AtChar(line, e, " ", 0);
      JoinStarts(args[1..]);
      AtChar(line, n, Join(args[1..]), 0);
      SpacedWord(w, line, i);
      hide Join, At;
    }
  }

  lemma {:induction false} JoinStarts(args: seq<string>)
    requires 0 < |args| && ValidWord(args[0])
    ensures 0 < |Join(args)| && IsWordChar(Join(args)[0])
  {
  }

  // One turn of parseexec()'s loop.
  lemma {:induction false} ArgsStep(line: string, i: nat, done: seq<Slice>, s: Slice, n: nat)
    requires i < |line| && IsWordChar(line[i]) && |done| < 9 && (forall k :: 0 <= k < |done| ==> IsWord(line, done[k]))
    requires Token1(line, i) == (Word(s), n) && (n < |line| ==> !IsSpace(line[n]) && line[n] != '<' && line[n] != '>')
    ensures n <= |line| && IsWord(line, s) && Args(line, i, done, []) == Args(line, n, done + [s], [])
  {
    NoSkip(line, i);
    NoRedirs(line, n, []);
  }

  lemma {:induction false} ExecParses(args: seq<string>, line: string, i: nat, end: nat) returns (c: Cmd<Slice>)
    requires Valid(Exec(args)) && At(line, i, Join(args)) && end == i + |Join(args)| && Stop(line, end)
    ensures ParseExec(line, i) == Ok(c, end) && Text(line, c) == Exec(args)
  {
    if args != [] {
      JoinStarts(args);
      AtChar(line, i, Join(args), 0);
    }
    NoSkip(line, i);
    NoRedirs(line, i, []);
    var ws := ArgsParse(args, [], line, i, end);
    assert [] + ws == ws;
    c := Exec(ws);
  }

  lemma {:induction false} PrintStarts(t: Cmd<string>)
    requires Valid(t)
    ensures 0 < |Print(t)| ==> !IsSpace(Print(t)[0])
  {
    match t
    case Exec(args) =>
      if args != [] {
        JoinStarts(args);
      }
    case _ =>
  }

  // One symbol that is not '>'.
  lemma {:induction false} SymbolToken(line: string, i: nat)
    requires i < |line| && IsSymbol(line[i]) && line[i] != '>'
    ensures Token1(line, i) == (Sym(line[i]), Skip(line, i + 1))
  {
    NoSkip(line, i);
  }

  lemma {:induction false} NextIs(line: string, i: nat, toks: string)
    requires i <= |line| && (i < |line| ==> !IsSpace(line[i]))
    ensures Next(line, i, toks) <==> i < |line| && line[i] in toks
  {
    NoSkip(line, i);
  }

  // What parseexec() makes of a parenthesised command followed at k by no white space: it goes on to its redirections.
  lemma {:induction false} BlockParses(t: Cmd<string>, line: string, i: nat, k: nat) returns (c: Cmd<Slice>)
    requires Valid(t) && At(line, i, "(" + Print(t) + ")") && k == i + |Print(t)| + 2
    requires (k < |line| ==> !IsSpace(line[k]))
    ensures Good(line, c) && Text(line, c) == t && k <= |line|
    ensures ParseExec(line, i) == match Redirs(line, k, [])
                                  case Panic(m) => Panic(m)
                                  case Ok(rs, n) => Ok(Wrapped(c, rs), n)
    decreases t, 2
  {
    hide *;
    PrintStarts(t);
    BlockAt(Print(t), line, i, k);
    c := LineParses(t, line, i + 1, k - 1);
    BlockSteps(line, i, c, k);
  }

  lemma {:induction false} BlockAt(s: string, line: string, i: nat, k: nat)
    requires At(line, i, "(" + s + ")") && k == i + |s| + 2 && (0 < |s| ==> !IsSpace(s[0]))
    ensures i + 1 < k <= |line| && line[i] == '(' && line[k - 1] == ')' && !IsSpace(line[i + 1])
    ensures At(line, i + 1, s) && Stop(line, k - 1)
  {
    AtSplit(line, i, "(" + s, ")");
    AtSplit(line, i, "(", s);
    AtChar(line, i, "(", 0);
    AtChar(line, k - 1, ")", 0);
    if 0 < |s| {
      AtChar(line, i + 1, s, 0);
    }
    hide At;
  }

  lemma {:induction false} BlockSteps(line: string, i: nat, c: Cmd<Slice>, k: nat)
    requires i + 1 < k <= |line| && line[i] == '(' && line[k - 1] == ')' && !IsSpace(line[i + 1])
    requires (k < |line| ==> !IsSpace(line[k])) && ParseLine(line, i + 1) == Ok(c, k - 1)
    ensures Good(line, c)
    ensures ParseExec(line, i) == match Redirs(line, k, [])
                                  case Panic(m) => Panic(m)
                                  case Ok(rs, n) => Ok(Wrapped(c, rs), n)
  {
    hide ParseExec, ParseLine, Redirs, Wrapped, Token1, Next, Skip, Good;
    SymbolToken(line, i);
    SymbolToken(line, k - 1);
    NoSkip(line, i);
    NoSkip(line, i + 1);
    NoSkip(line, k - 1);
    NoSkip(line, k);
    NextIs(line, i, "(");
    NextIs(line, k - 1, ")");
    BlockUnfolds(line, i, c, k);
  }

  lemma {:induction false} BlockUnfolds(line: string, i: nat, c: Cmd<Slice>, k: nat)
    requires i < |line|
    requires line[i] == '(' && Skip(line, i) == i && Next(line, i, "(") && Token1(line, i) == (Sym('('), i + 1)
    requires i + 1 < k <= |line| && ParseLine(line, i + 1) == Ok(c, k - 1) && Next(line, k - 1, ")")
    requires Skip(line, k - 1) == k - 1
    requires Token1(line, k - 1) == (Sym(')'), k)
    ensures ParseExec(line, i) == match Redirs(line, k, [])
                                  case Panic(m) => Panic(m)
                                  case Ok(rs, n) => Ok(Wrapped(c, rs), n)
  {
    hide Token1, Next, Skip, ParseLine, Redirs, Wrapped, Good;
  }

  // ... followed by nothing that parsepipe() would take.
  lemma {:induction false} PipeOfBlock(t: Cmd<string>, line: string, i: nat, k: nat) returns (c: Cmd<Slice>)
    requires Valid(t) && At(line, i, "(" + Print(t) + ")") && k == i + |Print(t)| + 2
    requires k < |line| ==> line[k] == ')' || line[k] == ';' || line[k] == '&'
    ensures ParsePipe(line, i) == Ok(c, k) && Text(line, c) == t && Good(line, c)
    decreases t, 3
  {
    c := BlockParses(t, line, i, k);
    hide Print, At, Text, Valid, ParseExec, Good;
    NoRedirs(line, k, []);
    hide Redirs;
    NextIs(line, k, "|");
    NoSkip(line, k);
    hide Next, Skip;
  }

  lemma {:induction false} NoBacks(line: string, k: nat, c: Cmd<Slice>)
    requires k <= |line| && Good(line, c) && (k < |line| ==> line[k] == ')' || line[k] == ';')
    ensures Backs(line, k, c) == (c, k)
  {
    NextIs(line, k, "&");
    NoSkip(line, k);
  }

  // parseline() has nothing to add after what parsepipe() read.
  lemma {:induction false} LineOfPipe(line: string, i: nat, c: Cmd<Slice>, k: nat)
    requires i <= |line| && ParsePipe(line, i) == Ok(c, k) && k <= |line| && Stop(line, k)
    ensures ParseLine(line, i) == Ok(c, k)
  {
    NoBacks(line, k, c);
    NextIs(line, k, ";");
    NoSkip(line, k);
    hide ParsePipe, Backs, Next, Token1;
  }

  lemma {:induction false} RedirParses(
      t: Cmd<string>, file: string, mode: Mode, line: string, i: nat, end: nat) returns (c: Cmd<Slice>)
    requires Valid(t) && ValidWord(file) && At(line, i, "(" + Print(t) + ")" + Op(mode) + file)
    requires end == i + |Print(t)| + 2 + |Op(mode)| + |file| && Stop(line, end)
    ensures ParsePipe(line, i) == Ok(c, end) && Text(line, c) == Redir(t, file, mode)
    decreases t, 3
  {
    hide *;
    var k := i + |Print(t)| + 2;
    var j := k + |Op(mode)|;
    AtSplit(line, i, "(" + Print(t) + ")" + Op(mode), file);
    AtSplit(line, i, "(" + Print(t) + ")", Op(mode));
    OpAt(mode, line, k);
    LastWord(file, line, j);
    RedirsOne(line, k, j, end, mode);
    var d := BlockParses(t, line, i, k);
    RedirJoins(line, i, d, k, Slice(j, end), mode, end);
    c := Redir(d, Slice(j, end), mode);
    TextOfRedir(line, d, Slice(j, end), mode);
  }

  lemma {:induction false} OpAt(mode: Mode, line: string, k: nat)
    requires At(line, k, Op(mode))
    ensures k < k + |Op(mode)| <= |line| && line[k] == (if mode.Read? then '<' else '>') && !IsSpace(line[k])
    ensures mode.Append? ==> line[k + 1] == '>'
  {
    AtChar(line, k, Op(mode), 0);
    if mode.Append? {
      AtChar(line, k, Op(mode), 1);
    }
  }

  lemma {:induction false} RedirJoins(line: string, i: nat, d: Cmd<Slice>, k: nat, w: Slice, mode: Mode, end: nat)
    requires i <= |line| && k <= |line| && end <= |line| && Stop(line, end)
    requires ParseExec(line, i) == match Redirs(line, k, [])
                                   case Panic(m) => Panic(m)
                                   case Ok(rs, n) => Ok(Wrapped(d, rs), n)
    requires Redirs(line, k, []) == Ok([Redirect(w, mode)], end)
    ensures ParsePipe(line, i) == Ok(Redir(d, w, mode), end)
  {
    hide ParseExec, Redirs, ParsePipe;
    assert Wrapped(d, [Redirect(w, mode)]) == Redir(d, w, mode) by { assert [Redirect(w, mode)][..0] == []; }
    hide Wrapped;
    PipeOfExec(line, i, Redir(d, w, mode), end);
  }

  lemma {:induction false} TextOfRedir(line: string, d: Cmd<Slice>, w: Slice, mode: Mode)
    ensures Text(line, Redir(d, w, mode)) == Redir(Text(line, d), WordText(line, w), mode)
  {
  }

  // One redirection and then the end.
  lemma {:induction false} RedirsOne(line: string, k: nat, j: nat, end: nat, mode: Mode)
    requires k < j < |line| && j == k + |Op(mode)| && IsWordChar(line[j])
    requires Token1(line, j) == (Word(Slice(j, end)), end)
    requires line[k] == (if mode.Read? then '<' else '>') && (mode.Append? ==> line[k + 1] == '>')
    requires end <= |line| && Stop(line, end)
    ensures Redirs(line, k, []) == Ok([Redirect(Slice(j, end), mode)], end)
  {
    NoSkip(line, k);
    NoSkip(line, j);
    NextIs(line, k, "<>");
    assert Token1(line, k) == (Sym(if mode.Read? then '<' else if mode.Write? then '>' else '+'), j);
    hide Token1, Next;
    var rs := [Redirect(Slice(j, end), mode)];
    assert [] + rs == rs;
    NoRedirs(line, end, rs);
  }

  /** Parsing a printed tree where a command may end gives the tree back. */
  lemma {:induction false} LineParses(t: Cmd<string>, line: string, i: nat, end: nat) returns (c: Cmd<Slice>)
    requires Valid(t) && At(line, i, Print(t)) && end == i + |Print(t)| && Stop(line, end)
    ensures i <= end <= |line| && ParseLine(line, i) == Ok(c, end) && Text(line, c) == t && Good(line, c)
    decreases t, 1
  {
    hide ParseLine, ParsePipe, ParseExec, Text, At, Stop, Good, IsWord;
    match t
    case Exec(args) =>
      c := ExecParses(args, line, i, end);
      PipeOfExec(line, i, c, end);
      LineOfPipe(line, i, c, end);
    case Redir(d, file, mode) =>
      c := RedirParses(d, file, mode, line, i, end);
      LineOfPipe(line, i, c, end);
    case Pipe(l, r) =>
      c := PipeParses(l, r, line, i, end);
      LineOfPipe(line, i, c, end);
    case List(l, r) =>
      c := ListParses(l, r, line, i, end);
    case Back(d) =>
      c := BackParses(d, line, i, end);
  }

  lemma {:induction false} PipeParses(
      l: Cmd<string>, r: Cmd<string>, line: string, i: nat, end: nat)
    returns (c: Cmd<Slice>)
    requires Valid(l) && Valid(r) && At(line, i, "(" + Print(l) + ")" + "|" + ("(" + Print(r) + ")"))
    requires end == i + |Print(l)| + |Print(r)| + 5 && Stop(line, end)
    ensures end <= |line| && ParsePipe(line, i) == Ok(c, end) && Text(line, c) == Pipe(l, r)
    decreases Pipe(l, r), 0
  {
    hide At, Print, Valid, ParseExec, ParsePipe, Good, Redirs, Wrapped;
    var k := i + |Print(l)| + 2;
    BlocksAt(Print(l), "|", Print(r), line, i);
    var a := BlockParses(l, line, i, k);
    var b := PipeOfBlock(r, line, k + 1, end);
    c := Pipe(a, b);
    PipeJoins(line, i, a, k, b, end);
  }

  lemma {:induction false} ListParses(
      l: Cmd<string>, r: Cmd<string>, line: string, i: nat, end: nat)
    returns (c: Cmd<Slice>)
    requires Valid(l) && Valid(r) && At(line, i, "(" + Print(l) + ")" + ";" + ("(" + Print(r) + ")"))
    requires end == i + |Print(l)| + |Print(r)| + 5 && Stop(line, end)
    ensures end <= |line| && ParseLine(line, i) == Ok(c, end) && Text(line, c) == List(l, r)
    decreases List(l, r), 0
  {
    hide At, Print, Valid, ParseLine, ParsePipe, Good;
    var k := i + |Print(l)| + 2;
    BlocksAt(Print(l), ";", Print(r), line, i);
    var a := PipeOfBlock(l, line, i, k);
    var b := PipeOfBlock(r, line, k + 1, end);
    c := List(a, b);
    LineOfPipe(line, k + 1, b, end);
    ListJoins(line, i, a, k, b, end);
  }

  lemma {:induction false} BackParses(d: Cmd<string>, line: string, i: nat, end: nat) returns (c: Cmd<Slice>)
    requires Valid(d) && At(line, i, "(" + Print(d) + ")" + "&") && end == i + |Print(d)| + 3 && Stop(line, end)
    ensures end <= |line| && ParseLine(line, i) == Ok(c, end) && Text(line, c) == Back(d)
    decreases Back(d), 0
  {
    hide At, Print, Valid, ParseLine, ParsePipe, Good;
    AtSplit(line, i, "(" + Print(d) + ")", "&");
    AtChar(line, end - 1, "&", 0);
    var a := PipeOfBlock(d, line, i, end - 1);
    c := Back(a);
    BackJoins(line, i, a, end - 1);
  }

  // Two parenthesised commands with one character between them.
  lemma {:induction false} BlocksAt(s: string, op: string, t: string, line: string, i: nat)
    requires |op| == 1 && At(line, i, "(" + s + ")" + op + ("(" + t + ")"))
    ensures At(line, i, "(" + s + ")") && At(line, i + |s| + 3, "(" + t + ")")
    ensures i + |s| + 3 < |line| && line[i + |s| + 2] == op[0] && line[i + |s| + 3] == '('
  {
    var k := i + |s| + 2;
    AtSplit(line, i, "(" + s + ")" + op, "(" + t + ")");
    AtSplit(line, i, "(" + s + ")", op);
    AtChar(line, k, op, 0);
    AtChar(line, k + 1, "(" + t + ")", 0);
  }

  lemma {:induction false} PipeOfExec(line: string, i: nat, c: Cmd<Slice>, end: nat)
    requires i <= |line| && ParseExec(line, i) == Ok(c, end) && end <= |line| && Stop(line, end)
    ensures ParsePipe(line, i) == Ok(c, end)
  {
    NextIs(line, end, "|");
    NoSkip(line, end);
    hide ParseExec, Next, Token1;
  }

  lemma {:induction false} PipeJoins(line: string, i: nat, a: Cmd<Slice>, k: nat, b: Cmd<Slice>, end: nat)
    requires i <= |line| && k + 1 < |line| && line[k] == '|' && line[k + 1] == '('
    requires ParseExec(line, i) == match Redirs(line, k, [])
                                   case Panic(m) => Panic(m)
                                   case Ok(rs, n) => Ok(Wrapped(a, rs), n)
    requires ParsePipe(line, k + 1) == Ok(b, end)
    ensures ParsePipe(line, i) == Ok(Pipe(a, b), end)
  {
    hide ParseExec, ParsePipe, Next, Token1, Redirs, Skip, Wrapped;
    NoRedirs(line, k, []);
    SymbolAt(line, k, '|', "|");
    WrappedNone(a);
    PipeUnfolds(line, i, a, k, b, end);
  }

  lemma {:induction false} WrappedNone(c: Cmd<Slice>)
    ensures Wrapped(c, []) == c
  {
  }

  lemma {:induction false} PipeUnfolds(line: string, i: nat, a: Cmd<Slice>, k: nat, b: Cmd<Slice>, end: nat)
    requires i <= |line| && k + 1 < |line| && ParseExec(line, i) == Ok(a, k) && ParsePipe(line, k + 1) == Ok(b, end)
    requires Skip(line, k) == k && Next(line, k, "|") && Token1(line, k) == (Sym('|'), k + 1)
    ensures ParsePipe(line, i) == Ok(Pipe(a, b), end)
  {
    hide ParseExec, Next, Token1, Skip, Good;
  }

  // The symbol op of toks at k, right before a '('.
  lemma {:induction false} SymbolAt(line: string, k: nat, op: char, toks: string)
    requires k + 1 < |line| && line[k] == op && IsSymbol(op) && op != '>' && line[k + 1] == '(' && op in toks
    ensures Skip(line, k) == k && Next(line, k, toks) && Token1(line, k) == (Sym(op), k + 1)
  {
    hide Next, Token1, Skip;
    NextIs(line, k, toks);
    NoSkip(line, k);
    NoSkip(line, k + 1);
    SymbolToken(line, k);
  }

  lemma {:induction false} ListJoins(line: string, i: nat, a: Cmd<Slice>, k: nat, b: Cmd<Slice>, end: nat)
    requires i <= |line| && k + 1 < |line| && line[k] == ';' && line[k + 1] == '(' && Good(line, a)
    requires ParsePipe(line, i) == Ok(a, k) && ParseLine(line, k + 1) == Ok(b, end)
    ensures ParseLine(line, i) == Ok(List(a, b), end)
  {
    hide ParsePipe, Next, Token1, Backs, Skip, Good;
    NoBacks(line, k, a);
    SymbolAt(line, k, ';', ";");
  }

  lemma {:induction false} BackJoins(line: string, i: nat, a: Cmd<Slice>, k: nat)
    requires i <= |line| && k < |line| && line[k] == '&' && Good(line, a) && Stop(line, k + 1)
    requires ParsePipe(line, i) == Ok(a, k)
    ensures ParseLine(line, i) == Ok(Back(a), k + 1)
  {
    NextIs(line, k, "&");
    NoSkip(line, k);
    NoSkip(line, k + 1);
    SymbolToken(line, k);
    NoBacks(line, k + 1, Back(a));
    assert Backs(line, k, a) == (Back(a), k + 1);
    NextIs(line, k + 1, ";");
    hide ParsePipe, Next, Token1, Backs;
  }

  /** Printing any command tree with valid words and at most 9 arguments, every subcommand in parentheses, and parsing
      the result with parsecmd() gives the tree back. */
  lemma {:induction false} RoundTrip(t: Cmd<string>)
    requires Valid(t)
    ensures ParseCmd(Print(t)).Ok? && Text(Print(t), ParseCmd(Print(t)).value) == t
  {
    var line := Print(t);
    assert line[0..|line|] == line;
    var c := LineParses(t, line, 0, |line|);
    hide Print, Valid, Text;
    NoSkip(line, |line|);
  }
}
