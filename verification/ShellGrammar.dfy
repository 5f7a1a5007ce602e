/** The grammar of user/sh.c's command lines, and its parser against it: which lines parse, and to what. */
module ShellGrammar {
  import opened Options
  import opened Shell

  // A word of a simple command and the redirections that follow it.
  datatype Arg = Arg(w: Slice, redirs: seq<Redirect<Slice>>)

  datatype ExecSyntax =
    | Simple(lead: seq<Redirect<Slice>>, args: seq<Arg>)        // < in cat > out -n
    | Block(line: LineSyntax, redirs: seq<Redirect<Slice>>)     // ( line ) > out

  datatype PipeSyntax = PipeSyntax(first: ExecSyntax, rest: Option<PipeSyntax>)            // exec | pipe
  datatype LineSyntax = LineSyntax(pipe: PipeSyntax, backs: nat, rest: Option<LineSyntax>) // pipe & ; line

  // ---- The tokens of a syntax tree ----

  function OpToken(mode: Mode): (t: Token) {
    match mode
    case Read => Sym('<')
    case Write => Sym('>')
    case Append => Sym('+')
  }

  function ShowRedirs(rs: seq<Redirect<Slice>>): (r: seq<Token>) {
    if rs == [] then [] else [OpToken(rs[0].mode), Word(rs[0].file)] + ShowRedirs(rs[1..])
  }

  function ShowArgs(args: seq<Arg>): (r: seq<Token>) {
    if args == [] then [] else [Word(args[0].w)] + ShowRedirs(args[0].redirs) + ShowArgs(args[1..])
  }

  function ShowBacks(n: nat): (r: seq<Token>) {
    if n == 0 then [] else [Sym('&')] + ShowBacks(n - 1)
  }

  function ShowExec(e: ExecSyntax): (r: seq<Token>) {
    match e
    case Simple(lead, args) => ShowRedirs(lead) + ShowArgs(args)
    case Block(line, redirs) => [Sym('(')] + ShowLine(line) + [Sym(')')] + ShowRedirs(redirs)
  }

  function ShowPipe(p: PipeSyntax): (r: seq<Token>) {
    match p.rest
    case None => ShowExec(p.first)
    case Some(q) => ShowExec(p.first) + [Sym('|')] + ShowPipe(q)
  }

  function ShowLine(l: LineSyntax): (r: seq<Token>) {
    match l.rest
    case None => ShowPipe(l.pipe) + ShowBacks(l.backs)
    case Some(m) => ShowPipe(l.pipe) + ShowBacks(l.backs) + [Sym(';')] + ShowLine(m)
  }

  // ---- The command it stands for ----

  function ArgWords(args: seq<Arg>): (r: seq<Slice>)
    ensures |r| == |args|
  {
    seq(|args|, k requires 0 <= k < |args| => args[k].w)
  }

  function ArgRedirs(args: seq<Arg>): (r: seq<Redirect<Slice>>) {
    if args == [] then [] else args[0].redirs + ArgRedirs(args[1..])
  }

  function InBack(c: Cmd<Slice>, n: nat): (r: Cmd<Slice>)
    decreases n
  {
    if n == 0 then c else InBack(Back(c), n - 1)
  }

  function ExecTree(e: ExecSyntax): (c: Cmd<Slice>) {
    match e
    case Simple(lead, args) => Wrapped(Exec(ArgWords(args)), lead + ArgRedirs(args))
    case Block(line, redirs) => Wrapped(LineTree(line), redirs)
  }

  function PipeTree(p: PipeSyntax): (c: Cmd<Slice>) {
    match p.rest
    case None => ExecTree(p.first)
    case Some(q) => Pipe(ExecTree(p.first), PipeTree(q))
  }

  function LineTree(l: LineSyntax): (c: Cmd<Slice>) {
    var d := InBack(PipeTree(l.pipe), l.backs);
    match l.rest
    case None => d
    case Some(m) => List(d, LineTree(m))
  }

  // No command has more than 9 words.
  predicate ExecFits(e: ExecSyntax) {
    match e
    case Simple(_, args) => |args| < MAXARGS
    case Block(line, _) => LineFits(line)
  }

  predicate PipeFits(p: PipeSyntax) {
    ExecFits(p.first) && (p.rest.Some? ==> PipeFits(p.rest.value))
  }

  predicate LineFits(l: LineSyntax) {
    PipeFits(l.pipe) && (l.rest.Some? ==> LineFits(l.rest.value))
  }

  // ---- Reading tokens off a line ----

  // From i the tokens are ts, and j is where the next one would be.
  predicate Spells(line: string, i: nat, ts: seq<Token>, j: nat)
    decreases |ts|
  {
    && i <= |line|
    && if ts == [] then j == i
       else !ts[0].End? && Token1(line, i).0 == ts[0] && Spells(line, Token1(line, i).1, ts[1..], j)
  }

  // A place where a token starts, or the end.
  predicate Settled(line: string, i: nat) {
    i <= |line| && Skip(line, i) == i
  }

  lemma {:induction false} SettledAt(line: string, i: nat)
    requires Settled(line, i)
    ensures i <= |line| && Skip(line, i) == i
  {
  }

  lemma {:induction false} SpellsEnds(line: string, i: nat, ts: seq<Token>, j: nat)
    requires Spells(line, i, ts, j)
    ensures i <= j <= |line| && (Settled(line, i) ==> Settled(line, j)) && (ts != [] ==> Settled(line, j) && i < j)
    decreases |ts|
  {
    if ts != [] {
      TokenSettles(line, i);
      SpellsEnds(line, Token1(line, i).1, ts[1..], j);
    }
  }

  lemma {:induction false} TokenSettles(line: string, i: nat)
    requires i <= |line|
    ensures Settled(line, Token1(line, i).1)
  {
    SkipSettles(line, i);
    var s := Skip(line, i);
    if s < |line| {
      SkipSettles(line, s + 1);
      if s + 1 < |line| {
        SkipSettles(line, s + 2);
      }
      SkipSettles(line, WordEnd(line, s));
    }
  }

  lemma {:induction false} SkipSettles(line: string, i: nat)
    requires i <= |line|
    ensures Settled(line, Skip(line, i))
  {
  }

  lemma {:induction false} SpellsSplit(line: string, i: nat, a: seq<Token>, b: seq<Token>, j: nat) returns (k: nat)
    requires Spells(line, i, a + b, j)
    ensures Spells(line, i, a, k) && Spells(line, k, b, j)
    decreases |a|
  {
    hide Token1;
    if a == [] {
      k := i;
      assert a + b == b;
    } else {
      assert (a + b)[1..] == a[1..] + b && (a + b)[0] == a[0];
      k := SpellsSplit(line, Token1(line, i).1, a[1..], b, j);
    }
  }

  lemma {:induction false} SpellsJoin(line: string, i: nat, a: seq<Token>, k: nat, b: seq<Token>, j: nat)
    requires Spells(line, i, a, k) && Spells(line, k, b, j)
    ensures Spells(line, i, a + b, j)
    decreases |a|
  {
    hide Token1;
    if a == [] {
      assert a + b == b;
    } else {
      assert (a + b)[1..] == a[1..] + b && (a + b)[0] == a[0];
      SpellsJoin(line, Token1(line, i).1, a[1..], k, b, j);
    }
  }

  lemma {:induction false} SpellsNone(line: string, i: nat, j: nat)
    ensures Spells(line, i, [], j) <==> i == j <= |line|
  {
  }

  lemma {:induction false} SpellsOne(line: string, i: nat, t: Token, j: nat)
    requires !t.End?
    ensures Spells(line, i, [t], j) <==> i <= |line| && Token1(line, i) == (t, j)
  {
    assert [t][1..] == [];
  }

  // The token at i.
  function First(line: string, i: nat): (t: Token)
    requires i <= |line|
  {
    Token1(line, i).0
  }

  // peek() in terms of the token that comes next.
  lemma {:induction false} PeekIs(line: string, i: nat, toks: string)
    requires Settled(line, i) && forall k :: 0 <= k < |toks| ==> IsSymbol(toks[k]) && toks[k] != '<' && toks[k] != '>'
    ensures Next(line, i, toks) <==> First(line, i).Sym? && First(line, i).c in toks
    ensures '+' !in toks
  {
    assert !IsSymbol('+');
  }

  predicate Redirects(t: Token) {
    t == Sym('<') || t == Sym('>') || t == Sym('+')
  }

  lemma {:induction false} PeekRedir(line: string, i: nat)
    requires Settled(line, i)
    ensures Next(line, i, "<>") <==> Redirects(First(line, i))
  {
    assert !IsSymbol('+');
  }

  // ---- Redirections ----

  // The redirections that can be read at i.
  lemma {:induction false} RedirsRead(
      line: string, i: nat, done: seq<Redirect<Slice>>, rs: seq<Redirect<Slice>>, j: nat)
    requires Settled(line, i) && GoodRedirs(line, done) && Spells(line, i, ShowRedirs(rs), j)
    requires j <= |line| && !Redirects(First(line, j))
    ensures Redirs(line, i, done) == Ok(done + rs, j)
    decreases |rs|
  {
    hide Token1, Next, Settled, First, Redirs, GoodRedirs, Spells, Redirects;
    PeekRedir(line, i);
    if rs == [] {
      SpellsNone(line, i, j);
      RedirsStop(line, i, done);
      assert done + rs == done;
    } else {
      var a, w := OpToken(rs[0].mode), Word(rs[0].file);
      var m := SpellsSplit(line, i, [a, w], ShowRedirs(rs[1..]), j);
      assert [a, w] == [a] + [w];
      var n := SpellsSplit(line, i, [a], [w], m);
      SpellsOne(line, i, a, n);
      SpellsOne(line, n, w, m);
      RedirsTurn(line, i, done, rs[0], n, m);
      RedirsRead(line, m, done + [rs[0]], rs[1..], j);
      assert done + [rs[0]] + rs[1..] == done + rs;
    }
  }

  lemma {:induction false} RedirsStop(line: string, i: nat, done: seq<Redirect<Slice>>)
    requires Settled(line, i) && GoodRedirs(line, done) && !Next(line, i, "<>")
    ensures Redirs(line, i, done) == Ok(done, i)
  {
  }

  lemma {:induction false} RedirsTurn(
      line: string, i: nat, done: seq<Redirect<Slice>>, r: Redirect<Slice>, n: nat, m: nat)
    requires Settled(line, i) && GoodRedirs(line, done) && n <= |line|
    requires Token1(line, i) == (OpToken(r.mode), n) && Token1(line, n) == (Word(r.file), m)
    ensures m <= |line| && Settled(line, m) && GoodRedirs(line, done + [r])
    ensures Redirs(line, i, done) == Redirs(line, m, done + [r])
  {
    hide Token1, Next;
    TokenIsWord(line, n);
    TokenSettles(line, n);
    PeekRedir(line, i);
  }

  lemma {:induction false} TokenIsWord(line: string, i: nat)
    requires i <= |line|
    ensures Token1(line, i).0.Word? ==> IsWord(line, Token1(line, i).0.w)
    ensures Token1(line, i).1 <= |line|
  {
  }

  // What parseredirs() has read is redirections, all there are.
  lemma {:induction false} RedirsWere(
      line: string, i: nat, done: seq<Redirect<Slice>>, all: seq<Redirect<Slice>>, j: nat)
    returns (rs: seq<Redirect<Slice>>)
    requires Settled(line, i) && GoodRedirs(line, done) && Redirs(line, i, done) == Ok(all, j)
    ensures all == done + rs && Spells(line, i, ShowRedirs(rs), j) && Settled(line, j) && !Redirects(First(line, j))
    decreases |line| - i
  {
    hide Token1, Next, Settled, First, Redirs, GoodRedirs, Spells, Redirects;
    PeekRedir(line, i);
    if !Next(line, i, "<>") {
      rs := [];
      SpellsNone(line, i, i);
      RedirsStop(line, i, done);
      assert all == done + [];
    } else {
      var n, m, r := RedirsTook(line, i, done);
      var rest := RedirsWere(line, m, done + [r], all, j);
      rs := [r] + rest;
      assert rs[0] == r && rs[1..] == rest;
      assert all == done + rs;
      SpellsOne(line, i, OpToken(r.mode), n);
      SpellsOne(line, n, Word(r.file), m);
      SpellsJoin(line, i, [OpToken(r.mode)], n, [Word(r.file)], m);
      assert [OpToken(r.mode)] + [Word(r.file)] == [OpToken(r.mode), Word(r.file)];
      SpellsJoin(line, i, [OpToken(r.mode), Word(r.file)], m, ShowRedirs(rest), j);
    }
  }

  lemma {:induction false} RedirsTook(line: string, i: nat, done: seq<Redirect<Slice>>)
    returns (n: nat, m: nat, r: Redirect<Slice>)
    requires Settled(line, i) && GoodRedirs(line, done) && Next(line, i, "<>") && Redirs(line, i, done).Ok?
    ensures i < n < m <= |line| && Token1(line, i) == (OpToken(r.mode), n) && Token1(line, n) == (Word(r.file), m)
    ensures Settled(line, m) && GoodRedirs(line, done + [r]) && Redirs(line, i, done) == Redirs(line, m, done + [r])
  {
    hide Token1, Next;
    PeekRedir(line, i);
    TokenMoves(line, i);
    n := Token1(line, i).1;
    TokenMoves(line, n);
    m := Token1(line, n).1;
    var t := Token1(line, i).0;
    var mode := if t == Sym('<') then Read else if t == Sym('>') then Write else Append;
    r := Redirect(Token1(line, n).0.w, mode);
    TokenIsWord(line, n);
    TokenSettles(line, n);
  }

  lemma {:induction false} TokenMoves(line: string, i: nat)
    requires i <= |line|
    ensures i <= Token1(line, i).1 <= |line| && (!Token1(line, i).0.End? ==> i < Token1(line, i).1)
  {
  }

  // ---- Simple commands ----

  // What may follow a simple command or a block.
  predicate Follows(t: Token) {
    t.End? || t == Sym('|') || t == Sym(')') || t == Sym('&') || t == Sym(';')
  }

  lemma {:induction false} ArgsStop(line: string, i: nat, done: seq<Slice>, rs: seq<Redirect<Slice>>)
    requires Settled(line, i) && |done| < MAXARGS && GoodRedirs(line, rs)
    requires (forall k :: 0 <= k < |done| ==> IsWord(line, done[k])) && Follows(First(line, i))
    ensures Args(line, i, done, rs) == Ok(Wrapped(Exec(done), rs), i)
  {
    hide Next, Wrapped, IsWord;
    PeekIs(line, i, "|)&;");
    assert First(line, i).End? ==> Token1(line, i).1 == i;
  }

  lemma {:induction false} ArgsTurn(
      line: string, i: nat, done: seq<Slice>, rs: seq<Redirect<Slice>>, w: Slice, n: nat, rs': seq<Redirect<Slice>>,
      m: nat)
    requires Settled(line, i) && |done| + 1 < MAXARGS && GoodRedirs(line, rs)
    requires forall k :: 0 <= k < |done| ==> IsWord(line, done[k])
    requires Token1(line, i) == (Word(w), n) && n <= |line| && Redirs(line, n, rs) == Ok(rs', m)
    ensures m <= |line| && IsWord(line, w) && GoodRedirs(line, rs')
    ensures Args(line, i, done, rs) == Args(line, m, done + [w], rs')
  {
    hide Next, Wrapped, IsWord, Redirs, Token1;
    PeekIs(line, i, "|)&;");
    TokenIsWord(line, i);
  }

  // The arguments that can be read at i.
  lemma {:induction false} ArgsRead(
      line: string, i: nat, done: seq<Slice>, rs: seq<Redirect<Slice>>, args: seq<Arg>, j: nat)
    requires Settled(line, i) && |done| + |args| < MAXARGS && GoodRedirs(line, rs)
    requires (forall k :: 0 <= k < |done| ==> IsWord(line, done[k])) && Spells(line, i, ShowArgs(args), j)
    requires j <= |line| && Follows(First(line, j))
    ensures Args(line, i, done, rs) == Ok(Wrapped(Exec(done + ArgWords(args)), rs + ArgRedirs(args)), j)
    decreases |args|
  {
    hide Token1, Settled, First, Args, IsWord, Redirs, ShowRedirs, Wrapped, Spells, GoodRedirs;
    if args == [] {
      SpellsNone(line, i, j);
      ArgsStop(line, i, done, rs);
      assert done + ArgWords(args) == done && rs + ArgRedirs(args) == rs;
    } else {
      var a, rest := args[0], args[1..];
      assert ShowArgs(args) == [Word(a.w)] + (ShowRedirs(a.redirs) + ShowArgs(rest));
      var n := SpellsSplit(line, i, [Word(a.w)], ShowRedirs(a.redirs) + ShowArgs(rest), j);
      SpellsOne(line, i, Word(a.w), n);
      var m := SpellsSplit(line, n, ShowRedirs(a.redirs), ShowArgs(rest), j);
      SpellsEnds(line, i, [Word(a.w)], n);
      SpellsEnds(line, n, ShowRedirs(a.redirs), m);
      ArgsStart(line, m, rest, j);
      RedirsRead(line, n, rs, a.redirs, m);
      ArgsTurn(line, i, done, rs, a.w, n, rs + a.redirs, m);
      ArgsRead(line, m, done + [a.w], rs + a.redirs, rest, j);
      assert done + [a.w] + ArgWords(rest) == done + ArgWords(args);
      assert rs + a.redirs + ArgRedirs(rest) == rs + ArgRedirs(args);
    }
  }

  // Arguments start with a word.
  lemma {:induction false} ArgsStart(line: string, i: nat, args: seq<Arg>, j: nat)
    requires i <= |line| && Spells(line, i, ShowArgs(args), j) && j <= |line|
    requires args == [] ==> Follows(First(line, j))
    ensures !Redirects(First(line, i)) && First(line, i) != Sym('(')
  {
    hide ShowRedirs;
    if args != [] {
      assert ShowArgs(args)[0] == Word(args[0].w);
    }
  }

  // What parseexec()'s loop has read is arguments, all there are.
  lemma {:induction false} ArgsWere(
      line: string, i: nat, done: seq<Slice>, rs: seq<Redirect<Slice>>, c: Cmd<Slice>, j: nat)
    returns (args: seq<Arg>)
    requires Settled(line, i) && |done| < MAXARGS && GoodRedirs(line, rs)
    requires (forall k :: 0 <= k < |done| ==> IsWord(line, done[k])) && Args(line, i, done, rs) == Ok(c, j)
    ensures |done| + |args| < MAXARGS && c == Wrapped(Exec(done + ArgWords(args)), rs + ArgRedirs(args))
    ensures Spells(line, i, ShowArgs(args), j) && Settled(line, j) && Follows(First(line, j))
    decreases |line| - i
  {
    hide Token1, Settled, First, IsWord, Args, Redirs, ShowRedirs, Wrapped, Spells, GoodRedirs;
    var go, w, n, rs', m := ArgsTook(line, i, done, rs);
    if !go {
      args := [];
      SettledAt(line, i);
      SpellsNone(line, i, i);
      assert done + ArgWords(args) == done && rs + ArgRedirs(args) == rs;
    } else {
      var more := RedirsWere(line, n, rs, rs', m);
      var rest := ArgsWere(line, m, done + [w], rs', c, j);
      var a := Arg(w, more);
      args := [a] + rest;
      assert args[0] == a && args[1..] == rest;
      assert done + [w] + ArgWords(rest) == done + ArgWords(args);
      assert rs + more + ArgRedirs(rest) == rs + ArgRedirs(args);
      SpellsOne(line, i, Word(w), n);
      SpellsJoin(line, i, [Word(w)], n, ShowRedirs(more), m);
      SpellsJoin(line, i, [Word(w)] + ShowRedirs(more), m, ShowArgs(rest), j);
    }
  }

  lemma {:induction false} ArgsTook(line: string, i: nat, done: seq<Slice>, rs: seq<Redirect<Slice>>)
    returns (go: bool, w: Slice, n: nat, rs': seq<Redirect<Slice>>, m: nat)
    requires Settled(line, i) && |done| < MAXARGS && GoodRedirs(line, rs)
    requires (forall k :: 0 <= k < |done| ==> IsWord(line, done[k])) && Args(line, i, done, rs).Ok?
    ensures !go ==> Follows(First(line, i)) && Args(line, i, done, rs) == Ok(Wrapped(Exec(done), rs), i)
    ensures go ==>
              && |done| + 1 < MAXARGS && i < n <= m <= |line| && Token1(line, i) == (Word(w), n) && Settled(line, n)
              && IsWord(line, w) && Redirs(line, n, rs) == Ok(rs', m) && GoodRedirs(line, rs') && Settled(line, m)
              && Args(line, i, done, rs) == Args(line, m, done + [w], rs')
  {
    hide Next, Wrapped, IsWord, Token1, Redirs;
    PeekIs(line, i, "|)&;");
    var t := Token1(line, i).0;
    TokenMoves(line, i);
    TokenSettles(line, i);
    go, w, n, rs', m := t.Word?, Slice(0, 0), Token1(line, i).1, rs, 0;
    if go {
      TokenIsWord(line, i);
      w := t.w;
      rs', m := Redirs(line, n, rs).value, Redirs(line, n, rs).pos;
      var more := RedirsWere(line, n, rs, rs', m);
    } else if Follows(t) {
      ArgsStop(line, i, done, rs);
    }
  }

  // ---- From the grammar to the parser ----

  // What parseexec() does at a word, a redirection or nothing, and at a parenthesis.
  lemma {:induction false} ExecSteps(line: string, i: nat)
    requires Settled(line, i)
    ensures First(line, i) != Sym('(') ==>
              ParseExec(line, i) == match Redirs(line, i, [])
                                    case Panic(m) => Panic(m)
                                    case Ok(rs, j) => Args(line, j, [], rs)
    ensures First(line, i) == Sym('(') ==>
              && i < |line| && line[i] == '(' && i < Token1(line, i).1 <= |line| && Settled(line, Token1(line, i).1)
              && ParseExec(line, i) == ParseBlock(line, i)
  {
    hide ParseBlock, Args, Redirs, Next;
    PeekIs(line, i, "(");
    TokenMoves(line, i);
    TokenSettles(line, i);
  }

  lemma {:induction false} BlockSteps(line: string, i: nat, c: Cmd<Slice>, j: nat, n: nat)
    requires i < |line| && line[i] == '(' && Token1(line, i).1 <= |line|
    requires ParseLine(line, Token1(line, i).1) == Ok(c, j) && Settled(line, j)
    requires Token1(line, j) == (Sym(')'), n) && n <= |line|
    ensures ParseBlock(line, i) == match Redirs(line, n, [])
                                   case Panic(m) => Panic(m)
                                   case Ok(rs, k) => Ok(Wrapped(c, rs), k)
  {
    hide ParseLine, Redirs, Wrapped, Next, Token1, Skip, Good;
    SettledAt(line, j);
    PeekIs(line, j, ")");
  }

  lemma {:induction false} PipeSteps(line: string, i: nat, c: Cmd<Slice>, j: nat)
    requires i <= |line| && ParseExec(line, i) == Ok(c, j) && Settled(line, j)
    ensures First(line, j) != Sym('|') ==> ParsePipe(line, i) == Ok(c, j)
    ensures First(line, j) == Sym('|') ==>
              && i < Token1(line, j).1 <= |line|
              && ParsePipe(line, i) == match ParsePipe(line, Token1(line, j).1)
                                       case Panic(m) => Panic(m)
                                       case Ok(d, k) => Ok(Pipe(c, d), k)
  {
    hide ParseExec, Next, Token1, Skip, Good;
    SettledAt(line, j);
    PeekIs(line, j, "|");
    TokenMoves(line, j);
    ExecMoves(line, i);
  }

  lemma {:induction false} ExecMoves(line: string, i: nat)
    requires i <= |line|
    ensures ParseExec(line, i).Ok? ==> i <= ParseExec(line, i).pos <= |line| && Good(line, ParseExec(line, i).value)
  {
  }

  lemma {:induction false} PipeMoves(line: string, i: nat)
    requires i <= |line|
    ensures ParsePipe(line, i).Ok? ==> i <= ParsePipe(line, i).pos <= |line| && Good(line, ParsePipe(line, i).value)
  {
  }

  lemma {:induction false} LineSteps(line: string, i: nat, c: Cmd<Slice>, j: nat, d: Cmd<Slice>, k: nat)
    requires i <= |line| && ParsePipe(line, i) == Ok(c, j) && j <= |line| && Good(line, c)
    requires Backs(line, j, c) == (d, k) && Settled(line, k)
    ensures First(line, k) != Sym(';') ==> ParseLine(line, i) == Ok(d, k)
    ensures First(line, k) == Sym(';') ==>
              && i < Token1(line, k).1 <= |line|
              && ParseLine(line, i) == match ParseLine(line, Token1(line, k).1)
                                       case Panic(m) => Panic(m)
                                       case Ok(e, n) => Ok(List(d, e), n)
  {
    hide ParsePipe, Next, Token1, Skip, Backs, Good;
    SettledAt(line, k);
    PeekIs(line, k, ";");
    TokenMoves(line, k);
    PipeMoves(line, i);
    BacksMove(line, j, c);
  }

  lemma {:induction false} BacksMove(line: string, j: nat, c: Cmd<Slice>)
    requires j <= |line| && Good(line, c)
    ensures j <= Backs(line, j, c).1 <= |line| && Good(line, Backs(line, j, c).0)
  {
  }

  lemma {:induction false} BacksStep(line: string, i: nat, c: Cmd<Slice>)
    requires Settled(line, i) && Good(line, c)
    ensures First(line, i) != Sym('&') ==> Backs(line, i, c) == (c, i)
    ensures First(line, i) == Sym('&') ==>
              && i < Token1(line, i).1 <= |line| && Settled(line, Token1(line, i).1)
              && Backs(line, i, c) == Backs(line, Token1(line, i).1, Back(c))
  {
    hide Next, Token1;
    PeekIs(line, i, "&");
    TokenMoves(line, i);
    TokenSettles(line, i);
  }

  lemma {:induction false} BacksRead(line: string, i: nat, c: Cmd<Slice>, n: nat, j: nat)
    requires Settled(line, i) && Good(line, c) && Spells(line, i, ShowBacks(n), j) && j <= |line|
    requires First(line, j) != Sym('&')
    ensures Backs(line, i, c) == (InBack(c, n), j)
    decreases n
  {
    hide Token1, First, Settled, Backs;
    BacksStep(line, i, c);
    if n > 0 {
      assert ShowBacks(n)[0] == Sym('&') && ShowBacks(n)[1..] == ShowBacks(n - 1);
      FirstIs(line, i);
      BacksRead(line, Token1(line, i).1, Back(c), n - 1, j);
    }
  }

  lemma {:induction false} FirstIs(line: string, i: nat)
    requires i <= |line|
    ensures First(line, i) == Token1(line, i).0
  {
  }

  // The line that starts at i with this syntax, where a line may end.
  lemma {:induction false} LineReads(l: LineSyntax, line: string, i: nat, j: nat)
    requires LineFits(l) && Settled(line, i) && Spells(line, i, ShowLine(l), j) && j <= |line|
    requires First(line, j).End? || First(line, j) == Sym(')')
    ensures ParseLine(line, i) == Ok(LineTree(l), j)
    decreases l, 2
  {
    hide Token1, First, Settled, ParseLine, ParsePipe, Backs, Good, Spells, ShowPipe, ShowBacks, InBack;
    var after := if l.rest.None? then [] else [Sym(';')] + ShowLine(l.rest.value);
    assert ShowLine(l) == ShowPipe(l.pipe) + (ShowBacks(l.backs) + after);
    var k := SpellsSplit(line, i, ShowPipe(l.pipe), ShowBacks(l.backs) + after, j);
    var n := SpellsSplit(line, k, ShowBacks(l.backs), after, j);
    SpellsEnds(line, i, ShowPipe(l.pipe), k);
    SpellsEnds(line, k, ShowBacks(l.backs), n);
    AfterLine(line, n, l.rest, j);
    AfterPipe(line, k, l.backs, n);
    PipeReads(l.pipe, line, i, k);
    var c := PipeTree(l.pipe);
    PipeMoves(line, i);
    BacksRead(line, k, c, l.backs, n);
    LineSteps(line, i, c, k, InBack(c, l.backs), n);
    if l.rest.Some? {
      var m := SpellsSplit(line, n, [Sym(';')], ShowLine(l.rest.value), j);
      SpellsOne(line, n, Sym(';'), m);
      SpellsEnds(line, n, [Sym(';')], m);
      LineReads(l.rest.value, line, m, j);
    } else {
      SpellsNone(line, n, j);
    }
  }

  // What follows the pipeline and its '&'s.
  lemma {:induction false} AfterLine(line: string, n: nat, rest: Option<LineSyntax>, j: nat)
    requires n <= |line| && j <= |line| && (First(line, j).End? || First(line, j) == Sym(')'))
    requires Spells(line, n, if rest.None? then [] else [Sym(';')] + ShowLine(rest.value), j)
    ensures if rest.None? then First(line, n).End? || First(line, n) == Sym(')') else First(line, n) == Sym(';')
  {
  }

  lemma {:induction false} AfterPipe(line: string, k: nat, backs: nat, n: nat)
    requires k <= |line| && n <= |line| && Spells(line, k, ShowBacks(backs), n)
    ensures First(line, k) == if backs == 0 then First(line, n) else Sym('&')
  {
  }

  lemma {:induction false} PipeReads(p: PipeSyntax, line: string, i: nat, j: nat)
    requires PipeFits(p) && Settled(line, i) && Spells(line, i, ShowPipe(p), j) && j <= |line|
    requires Follows(First(line, j)) && First(line, j) != Sym('|')
    ensures ParsePipe(line, i) == Ok(PipeTree(p), j)
    decreases p, 1
  {
    hide Token1, First, Settled, ParsePipe, ParseExec, Good, Spells, ShowExec;
    var after := if p.rest.None? then [] else [Sym('|')] + ShowPipe(p.rest.value);
    assert ShowPipe(p) == ShowExec(p.first) + after;
    var k := SpellsSplit(line, i, ShowExec(p.first), after, j);
    SpellsEnds(line, i, ShowExec(p.first), k);
    AfterExec(line, k, p.rest, j);
    ExecReads(p.first, line, i, k);
    PipeSteps(line, i, ExecTree(p.first), k);
    if p.rest.Some? {
      var m := SpellsSplit(line, k, [Sym('|')], ShowPipe(p.rest.value), j);
      SpellsOne(line, k, Sym('|'), m);
      SpellsEnds(line, k, [Sym('|')], m);
      PipeReads(p.rest.value, line, m, j);
    } else {
      SpellsNone(line, k, j);
    }
  }

  lemma {:induction false} AfterExec(line: string, k: nat, rest: Option<PipeSyntax>, j: nat)
    requires k <= |line| && j <= |line| && Follows(First(line, j))
    requires Spells(line, k, if rest.None? then [] else [Sym('|')] + ShowPipe(rest.value), j)
    ensures if rest.None? then First(line, k) == First(line, j) else First(line, k) == Sym('|')
  {
  }

  lemma {:induction false} ExecReads(e: ExecSyntax, line: string, i: nat, j: nat)
    requires ExecFits(e) && Settled(line, i) && Spells(line, i, ShowExec(e), j)
    requires j <= |line| && Follows(First(line, j))
    ensures ParseExec(line, i) == Ok(ExecTree(e), j)
    decreases e, 0
  {
    hide Token1, First, Settled, ParseExec, Wrapped, Spells, ShowRedirs, ShowArgs, ArgRedirs, Follows;
    match e
    case Simple(lead, args) => SimpleReads(lead, args, line, i, j);
    case Block(l, redirs) =>
      var a, b, d := BlockSpelled(l, redirs, line, i, j);
      LineReads(l, line, a, b);
      BlockReads(LineTree(l), redirs, line, i, a, b, d, j);
  }

  lemma {:induction false} BlockSpelled(l: LineSyntax, redirs: seq<Redirect<Slice>>, line: string, i: nat, j: nat)
    returns (a: nat, b: nat, d: nat)
    requires Settled(line, i) && Spells(line, i, [Sym('(')] + ShowLine(l) + [Sym(')')] + ShowRedirs(redirs), j)
    ensures a <= |line| && Token1(line, i) == (Sym('('), a) && Settled(line, a)
    ensures Spells(line, a, ShowLine(l), b) && b <= |line| && Settled(line, b) && First(line, b) == Sym(')')
    ensures Token1(line, b) == (Sym(')'), d) && Settled(line, d) && Spells(line, d, ShowRedirs(redirs), j)
  {
    hide Token1, Settled, Spells, ShowRedirs, ShowLine;
    var inner := ShowLine(l) + ([Sym(')')] + ShowRedirs(redirs));
    assert [Sym('(')] + ShowLine(l) + [Sym(')')] + ShowRedirs(redirs) == [Sym('(')] + inner;
    a := SpellsSplit(line, i, [Sym('(')], inner, j);
    b := SpellsSplit(line, a, ShowLine(l), [Sym(')')] + ShowRedirs(redirs), j);
    d := SpellsSplit(line, b, [Sym(')')], ShowRedirs(redirs), j);
    SpellsEnds(line, i, [Sym('(')], a);
    SpellsEnds(line, a, ShowLine(l), b);
    SpellsEnds(line, b, [Sym(')')], d);
    SettledAt(line, i);
    SpellsOne(line, i, Sym('('), a);
    SpellsOne(line, b, Sym(')'), d);
  }

  lemma {:induction false} BlockReads(
      c: Cmd<Slice>, redirs: seq<Redirect<Slice>>, line: string, i: nat, a: nat, b: nat, d: nat, j: nat)
    requires Settled(line, i) && a <= |line| && Token1(line, i) == (Sym('('), a) && ParseLine(line, a) == Ok(c, b)
    requires Settled(line, b) && Token1(line, b) == (Sym(')'), d) && Settled(line, d)
    requires Spells(line, d, ShowRedirs(redirs), j) && j <= |line| && Follows(First(line, j))
    ensures ParseExec(line, i) == Ok(Wrapped(c, redirs), j)
  {
    hide Token1, Settled, ParseExec, ParseBlock, ParseLine, Redirs, Wrapped, Spells, ShowRedirs;
    SettledAt(line, i);
    SettledAt(line, b);
    SettledAt(line, d);
    ExecSteps(line, i);
    BlockSteps(line, i, c, b, d);
    RedirsRead(line, d, [], redirs, j);
    assert [] + redirs == redirs;
  }

  lemma {:induction false} SimpleReads(
      lead: seq<Redirect<Slice>>, args: seq<Arg>, line: string, i: nat, j: nat)
    requires |args| < MAXARGS && Settled(line, i) && Spells(line, i, ShowRedirs(lead) + ShowArgs(args), j)
    requires j <= |line| && Follows(First(line, j))
    ensures ParseExec(line, i) == Ok(Wrapped(Exec(ArgWords(args)), lead + ArgRedirs(args)), j)
  {
    hide Token1, First, Settled, ParseExec, Args, Redirs, Wrapped, Spells, ShowRedirs, ShowArgs, ArgRedirs;
    var k := SpellsSplit(line, i, ShowRedirs(lead), ShowArgs(args), j);
    SpellsEnds(line, i, ShowRedirs(lead), k);
    ArgsStart(line, k, args, j);
    RedirsRead(line, i, [], lead, k);
    assert [] + lead == lead;
    LeadStarts(line, i, lead, k);
    ExecSteps(line, i);
    ArgsRead(line, k, [], lead, args, j);
    assert [] + ArgWords(args) == ArgWords(args);
  }

  lemma {:induction false} LeadStarts(line: string, i: nat, lead: seq<Redirect<Slice>>, k: nat)
    requires i <= |line| && Spells(line, i, ShowRedirs(lead), k) && k <= |line| && First(line, k) != Sym('(')
    ensures First(line, i) != Sym('(')
  {
    if lead != [] {
      assert ShowRedirs(lead)[0] == OpToken(lead[0].mode);
    }
  }

  // ---- From the parser to the grammar ----

  lemma {:induction false} SimpleWas(line: string, i: nat, c: Cmd<Slice>, j: nat) returns (e: ExecSyntax)
    requires Settled(line, i) && First(line, i) != Sym('(') && ParseExec(line, i) == Ok(c, j)
    ensures ExecFits(e) && ExecTree(e) == c && Spells(line, i, ShowExec(e), j)
    ensures Settled(line, j) && Follows(First(line, j))
  {
    hide Token1, First, Settled, ParseExec, Args, Redirs, Wrapped, Spells, ShowRedirs, ShowArgs, ArgRedirs, Follows;
    ExecSteps(line, i);
    var rs, k := Redirs(line, i, []).value, Redirs(line, i, []).pos;
    var lead := RedirsWere(line, i, [], rs, k);
    assert [] + lead == lead;
    RedirsGood(line, i);
    var args := ArgsWere(line, k, [], rs, c, j);
    assert [] + ArgWords(args) == ArgWords(args);
    SpellsJoin(line, i, ShowRedirs(lead), k, ShowArgs(args), j);
    e := Simple(lead, args);
  }

  lemma {:induction false} RedirsGood(line: string, i: nat)
    requires i <= |line|
    ensures Redirs(line, i, []).Ok? ==>
              i <= Redirs(line, i, []).pos <= |line| && GoodRedirs(line, Redirs(line, i, []).value)
  {
  }

  // What parseblock() went through.
  lemma {:induction false} BlockTook(line: string, i: nat) returns (a: nat, c: Cmd<Slice>, b: nat)
    requires Settled(line, i) && First(line, i) == Sym('(') && ParseExec(line, i).Ok?
    ensures i < a <= |line| && Token1(line, i) == (Sym('('), a) && Settled(line, a)
    ensures ParseLine(line, a) == Ok(c, b) && b <= |line| && (Settled(line, b) ==> First(line, b) == Sym(')'))
  {
    hide Token1, Settled, ParseExec, ParseLine, Redirs, Wrapped, Next, Good, Skip;
    ExecSteps(line, i);
    SettledAt(line, i);
    a := Token1(line, i).1;
    LineMoves(line, a);
    c, b := ParseLine(line, a).value, ParseLine(line, a).pos;
    if Settled(line, b) {
      PeekIs(line, b, ")");
    }
  }

  lemma {:induction false} LineMoves(line: string, i: nat)
    requires i <= |line|
    ensures ParseLine(line, i).Ok? ==> i <= ParseLine(line, i).pos <= |line| && Good(line, ParseLine(line, i).value)
  {
  }

  lemma {:induction false} BlockWas(
      line: string, i: nat, a: nat, l: LineSyntax, b: nat, c: Cmd<Slice>, j: nat)
    returns (e: ExecSyntax)
    requires Settled(line, i) && Token1(line, i) == (Sym('('), a) && a <= |line| && LineFits(l)
    requires ParseLine(line, a) == Ok(LineTree(l), b) && Spells(line, a, ShowLine(l), b) && Settled(line, b)
    requires b <= |line| && First(line, b) == Sym(')') && ParseExec(line, i) == Ok(c, j)
    ensures ExecFits(e) && ExecTree(e) == c && Spells(line, i, ShowExec(e), j)
    ensures Settled(line, j) && !Redirects(First(line, j))
  {
    hide Token1, Settled, ParseExec, ParseBlock, ParseLine, Redirs, Wrapped, Spells, ShowRedirs, ShowLine, LineFits;
    SettledAt(line, i);
    ExecSteps(line, i);
    TokenSettles(line, b);
    var d := Token1(line, b).1;
    SettledAt(line, d);
    BlockSteps(line, i, LineTree(l), b, d);
    var rs, k := Redirs(line, d, []).value, Redirs(line, d, []).pos;
    var redirs := RedirsWere(line, d, [], rs, k);
    assert [] + redirs == redirs;
    SpellsOne(line, i, Sym('('), a);
    SpellsOne(line, b, Sym(')'), d);
    SpellsJoin(line, i, [Sym('(')], a, ShowLine(l), b);
    SpellsJoin(line, i, [Sym('(')] + ShowLine(l), b, [Sym(')')], d);
    SpellsJoin(line, i, [Sym('(')] + ShowLine(l) + [Sym(')')], d, ShowRedirs(redirs), j);
    e := Block(l, redirs);
  }

  lemma {:induction false} ExecWas(line: string, i: nat, c: Cmd<Slice>, j: nat) returns (e: ExecSyntax)
    requires Settled(line, i) && ParseExec(line, i) == Ok(c, j)
    ensures ExecFits(e) && ExecTree(e) == c && Spells(line, i, ShowExec(e), j) && Settled(line, j)
    decreases |line| - i, 0
  {
    hide Token1, First, Settled, ParseExec, ParseLine, Spells, ShowExec, ExecTree, ExecFits, LineFits;
    SettledAt(line, i);
    if First(line, i) != Sym('(') {
      e := SimpleWas(line, i, c, j);
    } else {
      var a, d, b := BlockTook(line, i);
      var l := LineWas(line, a, d, b);
      e := BlockWas(line, i, a, l, b, c, j);
    }
  }

  lemma {:induction false} PipeWas(line: string, i: nat, c: Cmd<Slice>, j: nat) returns (p: PipeSyntax)
    requires Settled(line, i) && ParsePipe(line, i) == Ok(c, j)
    ensures PipeFits(p) && PipeTree(p) == c && Spells(line, i, ShowPipe(p), j) && Settled(line, j)
    decreases |line| - i, 1
  {
    hide Token1, First, Settled, ParsePipe, ParseExec, Spells, ShowExec, ExecTree, ExecFits;
    SettledAt(line, i);
    var d, k := PipeTook(line, i);
    var e := ExecWas(line, i, d, k);
    SettledAt(line, k);
    PipeSteps(line, i, d, k);
    if First(line, k) == Sym('|') {
      TokenSettles(line, k);
      FirstIs(line, k);
      var n := Token1(line, k).1;
      SettledAt(line, n);
      var q := PipeWas(line, n, ParsePipe(line, n).value, j);
      p := PipeSyntax(e, Some(q));
      SpellsOne(line, k, Sym('|'), n);
      SpellsJoin(line, i, ShowExec(e), k, [Sym('|')], n);
      SpellsJoin(line, i, ShowExec(e) + [Sym('|')], n, ShowPipe(q), j);
    } else {
      p := PipeSyntax(e, None);
    }
  }

  lemma {:induction false} PipeTook(line: string, i: nat) returns (c: Cmd<Slice>, k: nat)
    requires i <= |line| && ParsePipe(line, i).Ok?
    ensures ParseExec(line, i) == Ok(c, k)
  {
    hide ParseExec, Next, Token1;
    c, k := ParseExec(line, i).value, ParseExec(line, i).pos;
  }

  lemma {:induction false} BacksWere(line: string, i: nat, c: Cmd<Slice>, d: Cmd<Slice>, j: nat) returns (n: nat)
    requires Settled(line, i) && Good(line, c) && Backs(line, i, c) == (d, j)
    ensures d == InBack(c, n) && Spells(line, i, ShowBacks(n), j) && Settled(line, j)
    decreases |line| - i
  {
    hide Token1, First, Settled, Backs;
    BacksStep(line, i, c);
    SettledAt(line, i);
    FirstIs(line, i);
    n := 0;
    if First(line, i) == Sym('&') {
      var m := BacksWere(line, Token1(line, i).1, Back(c), d, j);
      n := m + 1;
      assert ShowBacks(n)[1..] == ShowBacks(m);
    }
  }

  lemma {:induction false} LineTook(line: string, i: nat) returns (c: Cmd<Slice>, j: nat)
    requires i <= |line| && ParseLine(line, i).Ok?
    ensures ParsePipe(line, i) == Ok(c, j) && j <= |line| && Good(line, c)
  {
    hide ParsePipe, Next, Token1, Backs;
    PipeMoves(line, i);
    c, j := ParsePipe(line, i).value, ParsePipe(line, i).pos;
  }

  // What parseline() has read is a line of the grammar.
  lemma {:induction false} LineWas(line: string, i: nat, c: Cmd<Slice>, j: nat) returns (l: LineSyntax)
    requires Settled(line, i) && ParseLine(line, i) == Ok(c, j)
    ensures LineFits(l) && LineTree(l) == c && Spells(line, i, ShowLine(l), j) && Settled(line, j)
    decreases |line| - i, 2
  {
    hide Token1, First, Settled, ParseLine, ParsePipe, Backs, Good, Spells, ShowPipe, PipeTree, PipeFits, ShowBacks,
      InBack;
    SettledAt(line, i);
    var d, k := LineTook(line, i);
    var p := PipeWas(line, i, d, k);
    var e, n := Backs(line, k, d).0, Backs(line, k, d).1;
    var backs := BacksWere(line, k, d, e, n);
    SettledAt(line, n);
    LineSteps(line, i, d, k, e, n);
    SpellsJoin(line, i, ShowPipe(p), k, ShowBacks(backs), n);
    if First(line, n) == Sym(';') {
      TokenSettles(line, n);
      FirstIs(line, n);
      var m := Token1(line, n).1;
      SettledAt(line, m);
      var rest := LineWas(line, m, ParseLine(line, m).value, j);
      l := LineSyntax(p, backs, Some(rest));
      SpellsOne(line, n, Sym(';'), m);
      SpellsJoin(line, i, ShowPipe(p) + ShowBacks(backs), n, [Sym(';')], m);
      SpellsJoin(line, i, ShowPipe(p) + ShowBacks(backs) + [Sym(';')], m, ShowLine(rest), j);
    } else {
      l := LineSyntax(p, backs, None);
    }
  }

  // ---- The whole line ----

  lemma {:induction false} LineSkips(line: string)
    ensures ParseLine(line, 0) == ParseLine(line, Skip(line, 0))
  {
    hide Redirs, Args, ParseBlock, Backs, Token1, Good;
    var i := Skip(line, 0);
    SkipSettles(line, 0);
    assert Next(line, 0, "(") == Next(line, i, "(");
    assert Redirs(line, 0, []) == Redirs(line, i, []) by { RedirsSkip(line, 0); }
    assert ParseExec(line, 0) == ParseExec(line, i);
    assert ParsePipe(line, 0) == ParsePipe(line, i) by { hide ParseExec; }
    hide ParsePipe;
  }

  lemma {:induction false} RedirsSkip(line: string, i: nat)
    requires i <= |line|
    ensures Redirs(line, i, []) == Redirs(line, Skip(line, i), [])
  {
    SkipSettles(line, i);
  }

  // The tokens of the whole line are those of l.
  ghost predicate IsLine(line: string, l: LineSyntax) {
    LineFits(l) && Spells(line, Skip(line, 0), ShowLine(l), |line|)
  }

  /** parsecmd() accepts a line and makes command c of it if and only if the tokens of the line, however spaced, are
      those of a line of the grammar that stands for c and has at most 9 words in each simple command. */
  lemma {:induction false} ParseExact(line: string, c: Cmd<Slice>)
    ensures ParseCmd(line) == Ok(c, |line|) <==> exists l :: IsLine(line, l) && LineTree(l) == c
  {
    hide ParseLine, Spells, ShowLine, LineFits, LineTree, Token1;
    var i := Skip(line, 0);
    SkipSettles(line, 0);
    LineSkips(line);
    EndToken(line);
    if ParseCmd(line) == Ok(c, |line|) {
      var j := ParseLine(line, i).pos;
      var l := LineWas(line, i, c, j);
      SettledAt(line, j);
      assert IsLine(line, l);
    }
    if l :| IsLine(line, l) && LineTree(l) == c {
      LineReads(l, line, i, |line|);
    }
  }

  lemma {:induction false} EndToken(line: string)
    ensures Settled(line, |line|) && First(line, |line|).End?
  {
  }

  /** So a line stands for one command at most. */
  lemma {:induction false} Unambiguous(line: string, l: LineSyntax, m: LineSyntax)
    requires IsLine(line, l) && IsLine(line, m)
    ensures LineTree(l) == LineTree(m)
  {
    hide IsLine, LineTree;
    ParseExact(line, LineTree(l));
    ParseExact(line, LineTree(m));
  }
}
