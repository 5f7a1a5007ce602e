/** The command parser of user/sh.c. A line holds no NUL; position |line| stands for the one after it. */
module Shell {

  const MAXARGS: nat := 10

  datatype Mode = Read | Write | Append // O_RDONLY; O_WRONLY|O_CREATE|O_TRUNC; O_WRONLY|O_CREATE

  // A parsed command; W is a pair of positions in the line, or the word itself.
  datatype Cmd<W> =
    | Exec(args: seq<W>)
    | Redir(cmd: Cmd<W>, file: W, mode: Mode)
    | Pipe(left: Cmd<W>, right: Cmd<W>)
    | List(left: Cmd<W>, right: Cmd<W>)
    | Back(cmd: Cmd<W>)

  datatype Slice = Slice(q: nat, eq: nat)

  datatype Redirect<W> = Redirect(file: W, mode: Mode)

  datatype Result<T> = Ok(value: T, pos: nat) | Panic(message: string)

  datatype Token = End | Sym(c: char) | Word(w: Slice)

  predicate IsSpace(c: char) {
    c == ' ' || c == '\t' || c == '\r' || c == '\n' || c == '\U{000B}'
  }

  predicate IsSymbol(c: char) {
    c == '<' || c == '|' || c == '>' || c == '&' || c == ';' || c == '(' || c == ')'
  }

  predicate IsWordChar(c: char) {
    !IsSpace(c) && !IsSymbol(c)
  }

  function Skip(line: string, i: nat): (j: nat)
    requires i <= |line|
    ensures i <= j <= |line| && (j < |line| ==> !IsSpace(line[j])) && forall k :: i <= k < j ==> IsSpace(line[k])
    decreases |line| - i
  {
    if i < |line| && IsSpace(line[i]) then Skip(line, i + 1) else i
  }

  function WordEnd(line: string, i: nat): (j: nat)
    requires i <= |line|
    ensures i <= j <= |line| && (j < |line| ==> !IsWordChar(line[j])) && forall k :: i <= k < j ==> IsWordChar(line[k])
    decreases |line| - i
  {
    if i < |line| && IsWordChar(line[i]) then WordEnd(line, i + 1) else i
  }

  // A maximal word: what follows it is no word character.
  predicate IsWord(line: string, w: Slice) {
    && w.q < w.eq <= |line| && (forall k :: w.q <= k < w.eq ==> IsWordChar(line[k]))
    && (w.eq < |line| ==> !IsWordChar(line[w.eq]))
  }

  // gettoken(): the token at the next position that is not white space, and the position after it; '+' stands for >>.
  function Token1(line: string, i: nat): (r: (Token, nat))
    requires i <= |line|
    ensures i <= r.1 <= |line| && (!r.0.End? ==> i < r.1) && (r.0.Word? ==> IsWord(line, r.0.w))
    ensures r.0.End? <==> Skip(line, i) == |line|
  {
    var s := Skip(line, i);
    if s == |line| then (End, s)
    else if line[s] == '>' then
      if s + 1 < |line| && line[s + 1] == '>' then (Sym('+'), Skip(line, s + 2)) else (Sym('>'), Skip(line, s + 1))
    else if IsSymbol(line[s]) then (Sym(line[s]), Skip(line, s + 1))
    else (Word(Slice(s, WordEnd(line, s))), Skip(line, WordEnd(line, s)))
  }

  // peek(): whether one of toks comes next.
  predicate Next(line: string, i: nat, toks: string)
    requires i <= |line|
  {
    Skip(line, i) < |line| && line[Skip(line, i)] in toks
  }

  ghost predicate Good(line: string, c: Cmd<Slice>) {
    match c
    case Exec(args) => |args| < MAXARGS && forall k :: 0 <= k < |args| ==> IsWord(line, args[k])
    case Redir(d, file, _) => Good(line, d) && IsWord(line, file)
    case Pipe(l, r) => Good(line, l) && Good(line, r)
    case List(l, r) => Good(line, l) && Good(line, r)
    case Back(d) => Good(line, d)
  }

  ghost predicate GoodRedirs(line: string, rs: seq<Redirect<Slice>>) {
    forall k :: 0 <= k < |rs| ==> IsWord(line, rs[k].file)
  }

  // Redirections in the order met, the first innermost.
  function Wrapped<W>(c: Cmd<W>, rs: seq<Redirect<W>>): (r: Cmd<W>)
    decreases |rs|
  {
    if rs == [] then c else Redir(Wrapped(c, rs[..|rs| - 1]), rs[|rs| - 1].file, rs[|rs| - 1].mode)
  }

  lemma {:induction false} WrappedGood(line: string, c: Cmd<Slice>, rs: seq<Redirect<Slice>>)
    requires Good(line, c) && GoodRedirs(line, rs)
    ensures Good(line, Wrapped(c, rs))
    decreases |rs|
  {
    if rs != [] {
      WrappedGood(line, c, rs[..|rs| - 1]);
    }
  }

  // parseredirs()
  function Redirs(line: string, i: nat, rs: seq<Redirect<Slice>>): (r: Result<seq<Redirect<Slice>>>)
    requires i <= |line| && GoodRedirs(line, rs)
    ensures r.Ok? ==> i <= r.pos <= |line| && GoodRedirs(line, r.value)
    decreases |line| - i
  {
    if !Next(line, i, "<>") then Ok(rs, Skip(line, i))
    else
      var (tok, j) := Token1(line, Skip(line, i));
      var (w, k) := Token1(line, j);
      if !w.Word? then Panic("missing file for redirection")
      else
        var mode := if tok == Sym('<') then Read else if tok == Sym('>') then Write else Append;
        Redirs(line, k, rs + [Redirect(w.w, mode)])
  }

  // The loop of parseexec().
  function Args(line: string, i: nat, args: seq<Slice>, rs: seq<Redirect<Slice>>): (r: Result<Cmd<Slice>>)
    requires i <= |line| && |args| < MAXARGS && GoodRedirs(line, rs) && forall k :: 0 <= k < |args| ==>
               IsWord(line, args[k])
    ensures r.Ok? ==> i <= r.pos <= |line| && Good(line, r.value)
    decreases |line| - i
  {
    if Next(line, i, "|)&;") then (WrappedGood(line, Exec(args), rs); Ok(Wrapped(Exec(args), rs), Skip(line, i)))
    else
      var (tok, j) := Token1(line, Skip(line, i));
      if tok.End? then (WrappedGood(line, Exec(args), rs); Ok(Wrapped(Exec(args), rs), j))
      else if !tok.Word? then Panic("syntax")
      else if |args| + 1 >= MAXARGS then Panic("too many args")
      else
        match Redirs(line, j, rs)
        case Panic(m) => Panic(m)
        case Ok(rs', k) => Args(line, k, args + [tok.w], rs')
  }

  function ParseExec(line: string, i: nat): (r: Result<Cmd<Slice>>)
    requires i <= |line|
    ensures r.Ok? ==> i <= r.pos <= |line| && Good(line, r.value)
    decreases |line| - i, 1
  {
    if Next(line, i, "(") then ParseBlock(line, Skip(line, i))
    else
      match Redirs(line, i, [])
      case Panic(m) => Panic(m)
      case Ok(rs, j) => Args(line, j, [], rs)
  }

  function ParseBlock(line: string, i: nat): (r: Result<Cmd<Slice>>)
    requires i < |line| && line[i] == '('
    ensures r.Ok? ==> i <= r.pos <= |line| && Good(line, r.value)
    decreases |line| - i, 0
  {
    match ParseLine(line, Token1(line, i).1)
    case Panic(m) => Panic(m)
    case Ok(c, j) =>
      if !Next(line, j, ")") then Panic("syntax - missing )")
      else
        match Redirs(line, Token1(line, Skip(line, j)).1, [])
        case Panic(m) => Panic(m)
        case Ok(rs, k) => (WrappedGood(line, c, rs); Ok(Wrapped(c, rs), k))
  }

  function ParsePipe(line: string, i: nat): (r: Result<Cmd<Slice>>)
    requires i <= |line|
    ensures r.Ok? ==> i <= r.pos <= |line| && Good(line, r.value)
    decreases |line| - i, 2
  {
    match ParseExec(line, i)
    case Panic(m) => Panic(m)
    case Ok(c, j) =>
      if !Next(line, j, "|") then Ok(c, Skip(line, j))
      else
        match ParsePipe(line, Token1(line, Skip(line, j)).1)
        case Panic(m) => Panic(m)
        case Ok(d, k) => Ok(Pipe(c, d), k)
  }

  // The '&' loop of parseline().
  function Backs(line: string, i: nat, c: Cmd<Slice>): (r: (Cmd<Slice>, nat))
    requires i <= |line| && Good(line, c)
    ensures i <= r.1 <= |line| && Good(line, r.0)
    decreases |line| - i
  {
    if Next(line, i, "&") then Backs(line, Token1(line, Skip(line, i)).1, Back(c)) else (c, Skip(line, i))
  }

  function ParseLine(line: string, i: nat): (r: Result<Cmd<Slice>>)
    requires i <= |line|
    ensures r.Ok? ==> i <= r.pos <= |line| && Good(line, r.value)
    decreases |line| - i, 3
  {
    match ParsePipe(line, i)
    case Panic(m) => Panic(m)
    case Ok(c, j) =>
      var (d, k) := Backs(line, j, c);
      if !Next(line, k, ";") then Ok(d, Skip(line, k))
      else
        match ParseLine(line, Token1(line, Skip(line, k)).1)
        case Panic(m) => Panic(m)
        case Ok(e, n) => Ok(List(d, e), n)
  }

  /** parsecmd(), defined for every line: the parser always comes to an end. Every word of the result is a maximal word
      of the line, and no command has more than 9 arguments. */
  function ParseCmd(line: string): (r: Result<Cmd<Slice>>)
    ensures r.Ok? ==> Good(line, r.value) && r.pos == |line|
  {
    match ParseLine(line, 0)
    case Panic(m) => Panic(m)
    case Ok(c, j) => if Skip(line, j) != |line| then Panic("syntax") else Ok(c, |line|)
  }

  // ---- nulterminate()

  const NUL: char := '\0'

  ghost function Words(c: Cmd<Slice>): (r: set<Slice>) {
    match c
    case Exec(args) => set k | 0 <= k < |args| :: args[k]
    case Redir(d, file, _) => Words(d) + {file}
    case Pipe(l, r) => Words(l) + Words(r)
    case List(l, r) => Words(l) + Words(r)
    case Back(d) => Words(d)
  }

  // A NUL stored at the end of each word.
  function EndArgs(buf: seq<char>, args: seq<Slice>): (r: seq<char>)
    requires forall k :: 0 <= k < |args| ==> args[k].eq < |buf|
    ensures |r| == |buf|
    decreases |args|
  {
    if args == [] then buf else EndArgs(buf, args[..|args| - 1])[args[|args| - 1].eq := NUL]
  }

  ghost predicate Fits(c: Cmd<Slice>, n: nat) {
    forall w :: w in Words(c) ==> w.eq < n
  }

  ghost function Terminated(buf: seq<char>, c: Cmd<Slice>): (r: seq<char>)
    requires Fits(c, |buf|)
    ensures |r| == |buf|
    decreases c
  {
    match c
    case Exec(args) => (forall k | 0 <= k < |args| ensures args[k].eq < |buf| { assert args[k] in Words(c); }
                        EndArgs(buf, args))
    case Redir(d, file, _) => (assert file in Words(c); Terminated(buf, d)[file.eq := NUL])
    case Pipe(l, r) => Terminated(Terminated(buf, l), r)
    case List(l, r) => Terminated(Terminated(buf, l), r)
    case Back(d) => Terminated(buf, d)
  }

  ghost predicate EndsAt(ws: set<Slice>, k: nat) {
    exists w :: w in ws && w.eq == k
  }

  ghost predicate ArgEndsAt(args: seq<Slice>, k: nat) {
    exists i :: 0 <= i < |args| && args[i].eq == k
  }

  lemma {:induction false} ArgsSplit(args: seq<Slice>, n: nat, k: nat)
    requires |args| == n + 1
    ensures ArgEndsAt(args, k) <==> ArgEndsAt(args[..n], k) || args[n].eq == k
  {
    if ArgEndsAt(args[..n], k) {
      var i :| 0 <= i < n && args[..n][i].eq == k;
      assert args[i].eq == k;
    }
    if ArgEndsAt(args, k) && args[n].eq != k {
      var i :| 0 <= i < |args| && args[i].eq == k;
      assert args[..n][i].eq == k;
    }
  }

  lemma {:induction false} ArgsAt(buf: seq<char>, args: seq<Slice>, k: nat)
    requires (forall i :: 0 <= i < |args| ==> args[i].eq < |buf|) && k < |buf|
    ensures EndArgs(buf, args)[k] == if ArgEndsAt(args, k) then NUL else buf[k]
    decreases |args|
  {
    if args != [] {
      var n := |args| - 1;
      ArgsAt(buf, args[..n], k);
      ArgsSplit(args, n, k);
    }
  }

  lemma {:induction false} EndArgsAt(buf: seq<char>, args: seq<Slice>, ws: set<Slice>, k: nat)
    requires (forall i :: 0 <= i < |args| ==> args[i].eq < |buf|) && k < |buf| && (forall w :: w in ws <==> w in args)
    ensures EndArgs(buf, args)[k] == if EndsAt(ws, k) then NUL else buf[k]
  {
    hide EndArgs;
    ArgsAt(buf, args, k);
    if ArgEndsAt(args, k) {
      var i :| 0 <= i < |args| && args[i].eq == k;
      assert args[i] in ws;
    }
  }

  // nulterminate() changes exactly the characters after the words.
  lemma {:induction false} TerminatedAt(buf: seq<char>, c: Cmd<Slice>, k: nat)
    requires Fits(c, |buf|) && k < |buf|
    ensures Terminated(buf, c)[k] == if EndsAt(Words(c), k) then NUL else buf[k]
    decreases c
  {
    match c
    case Exec(args) =>
      forall i | 0 <= i < |args|
        ensures args[i].eq < |buf|
      {
        assert args[i] in Words(c);
      }
      EndArgsAt(buf, args, Words(c), k);
    case Redir(d, file, _) =>
      TerminatedAt(buf, d, k);
      EndsUnion(Words(d), {file}, k);
      assert file in Words(c);
    case Pipe(l, r) =>
      TerminatedAt(buf, l, k);
      TerminatedAt(Terminated(buf, l), r, k);
      EndsUnion(Words(l), Words(r), k);
    case List(l, r) =>
      TerminatedAt(buf, l, k);
      TerminatedAt(Terminated(buf, l), r, k);
      EndsUnion(Words(l), Words(r), k);
    case Back(d) =>
      TerminatedAt(buf, d, k);
  }

  lemma {:induction false} EndsUnion(a: set<Slice>, b: set<Slice>, k: nat)
    ensures EndsAt(a + b, k) <==> EndsAt(a, k) || EndsAt(b, k)
  {
    if EndsAt(a, k) {
      var w :| w in a && w.eq == k;
      assert w in a + b;
    }
    if EndsAt(b, k) {
      var w :| w in b && w.eq == k;
      assert w in a + b;
    }
  }

  lemma {:induction false} GoodWords(line: string, c: Cmd<Slice>, w: Slice)
    requires Good(line, c) && w in Words(c)
    ensures IsWord(line, w)
    decreases c
  {
    match c
    case Exec(_) =>
    case Redir(d, file, _) =>
      if w != file {
        GoodWords(line, d, w);
      }
    case Pipe(l, r) =>
      if w in Words(l) {
        GoodWords(line, l, w);
      } else {
        GoodWords(line, r, w);
      }
    case List(l, r) =>
      if w in Words(l) {
        GoodWords(line, l, w);
      } else {
        GoodWords(line, r, w);
      }
    case Back(d) => GoodWords(line, d, w);
  }

  // The C string at position i.
  function CString(buf: seq<char>, i: nat): (r: seq<char>)
    requires i <= |buf|
    decreases |buf| - i
  {
    if i == |buf| || buf[i] == NUL then [] else [buf[i]] + CString(buf, i + 1)
  }

  lemma {:induction false} CStringIs(buf: seq<char>, i: nat, j: nat)
    requires i <= j < |buf| && buf[j] == NUL && forall k :: i <= k < j ==> buf[k] != NUL
    ensures CString(buf, i) == buf[i..j]
    decreases j - i
  {
    if i < j {
      CStringIs(buf, i + 1, j);
      assert buf[i..j] == [buf[i]] + buf[i + 1..j];
    }
  }

  /** After parsing and nulterminate(), every argv and file string reads as exactly the word the parser saw. */
  lemma {:induction false} StringsAreWords(line: string, w: Slice)
    requires (forall k :: 0 <= k < |line| ==> line[k] != NUL) && ParseCmd(line).Ok? && w in Words(ParseCmd(line).value)
    ensures var c := ParseCmd(line).value;
            && Fits(c, |line| + 1) && w.q < w.eq <= |line|
            && CString(Terminated(line + [NUL], c), w.q) == line[w.q..w.eq]
  {
    var c := ParseCmd(line).value;
    hide ParseCmd;
    assert Good(line, c);
    forall x | x in Words(c)
      ensures IsWord(line, x)
    {
      GoodWords(line, c, x);
    }
    var buf := Terminated(line + [NUL], c);
    forall k | w.q <= k < w.eq
      ensures buf[k] == line[k]
    {
      TerminatedAt(line + [NUL], c, k);
      assert !EndsAt(Words(c), k);
    }
    TerminatedAt(line + [NUL], c, w.eq);
    assert EndsAt(Words(c), w.eq);
    hide Words, EndsAt, Good;
    CStringIs(buf, w.q, w.eq);
  }

  /** nulterminate() in place. */
  method NulTerminate(c: Cmd<Slice>, buf: array<char>)
    requires Fits(c, buf.Length)
    modifies buf
    ensures buf[..] == Terminated(old(buf[..]), c)
    decreases c
  {
    match c
    case Exec(args) =>
      forall k | 0 <= k < |args|
        ensures args[k].eq < buf.Length
      {
        assert args[k] in Words(c);
      }
      var i := 0;
      while i < |args|
        invariant i <= |args| && buf[..] == EndArgs(old(buf[..]), args[..i])
      {
        assert args[..i + 1][..i] == args[..i];
        buf[args[i].eq] := NUL;
        i := i + 1;
      }
      assert args[..i] == args;
    case Redir(d, file, _) =>
      assert file in Words(c);
      NulTerminate(d, buf);
      buf[file.eq] := NUL;
    case Pipe(l, r) =>
      NulTerminate(l, buf);
      NulTerminate(r, buf);
    case List(l, r) =>
      NulTerminate(l, buf);
      NulTerminate(r, buf);
    case Back(d) =>
      NulTerminate(d, buf);
  }

  // ---- the scanning loops

  method SkipSpace(line: string, i: nat) returns (s: nat)
    requires i <= |line|
    ensures s == Skip(line, i)
  {
    s := i;
    while s < |line| && IsSpace(line[s])
      invariant i <= s <= |line| && Skip(line, i) == Skip(line, s)
    {
      s := s + 1;
    }
  }

  /** gettoken(). */
  method GetToken(line: string, i: nat) returns (tok: Token, pos: nat)
    requires i <= |line|
    ensures (tok, pos) == Token1(line, i)
  {
    var s := SkipSpace(line, i);
    var q := s;
    if s == |line| {
      return End, s;
    }
    var c := line[s];
    if c == '>' {
      s := s + 1;
      tok := Sym('>');
      if s < |line| && line[s] == '>' {
        tok := Sym('+');
        s := s + 1;
      }
    } else if IsSymbol(c) {
      tok := Sym(c);
      s := s + 1;
    } else {
      while s < |line| && IsWordChar(line[s])
        invariant q <= s <= |line| && WordEnd(line, q) == WordEnd(line, s)
      {
        s := s + 1;
      }
      tok := Word(Slice(q, s));
    }
    pos := SkipSpace(line, s);
  }

  /** peek(). */
  method Peek(line: string, i: nat, toks: string) returns (yes: bool, pos: nat)
    requires i <= |line|
    ensures yes == Next(line, i, toks) && pos == Skip(line, i)
  {
    pos := SkipSpace(line, i);
    yes := pos < |line| && line[pos] in toks;
  }
}
