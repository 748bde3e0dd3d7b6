/** The language the shell accepts: a grammar over the words and symbols of the line,
    independent of how the parser goes about it, and the parser's agreement with it. */
module ShellLanguage {
  import opened ShellGrammar
  import opened ShellPrint

  datatype Lexeme = Sym(c: char) | Double | Plain(w: string)

  /** The words and symbols of s from position i on; Double is `>>`. */
  function Lexemes(s: string, i: nat): (ts: seq<Lexeme>)
    requires i <= |s|
    decreases |s| - i
  {
    var t := TokenAt(s, i);
    match t.kind
    case End => []
    case Symbol(c) => [Sym(c)] + Lexemes(s, t.next)
    case Append => [Double] + Lexemes(s, t.next)
    case Word => [Plain(Text(s, Tok(t.q, t.eq)))] + Lexemes(s, t.next)
  }

  // ----- the grammar -----

  predicate IsOp(l: Lexeme, m: Mode) { if m.Input? then l == Sym('<') else l == Sym('>') || l == Double }

  predicate OneRedir(ts: seq<Lexeme>, r: Redirection<string>) {
    |ts| >= 2 && IsOp(ts[0], r.mode) && ts[1] == Plain(r.file)
  }

  predicate RedirList(ts: seq<Lexeme>, rs: seq<Redirection<string>>) {
    if rs == [] then ts == [] else OneRedir(ts, rs[0]) && RedirList(ts[2..], rs[1..])
  }

  /** Words and redirections in any mix, each kind in order. */
  predicate Simple(ts: seq<Lexeme>, argv: seq<string>, rs: seq<Redirection<string>>) {
    if ts == [] then argv == [] && rs == []
    else if ts[0].Plain? then argv != [] && ts[0].w == argv[0] && Simple(ts[1..], argv[1..], rs)
    else rs != [] && OneRedir(ts, rs[0]) && Simple(ts[2..], argv, rs[1..])
  }

  ghost predicate BlockOf(ts: seq<Lexeme>, c: Cmd<string>, k: nat, d: Cmd<string>, rs: seq<Redirection<string>>)
    decreases |ts|, 0
  {
    && 0 < k < |ts| && ts[0] == Sym('(') && ts[k] == Sym(')')
    && IsLine(ts[1..k], d) && RedirList(ts[k+1..], rs) && c == Wrap(d, rs)
  }

  ghost predicate SimpleOf(ts: seq<Lexeme>, c: Cmd<string>, argv: seq<string>, rs: seq<Redirection<string>>) {
    c == Wrap(Exec(argv), rs) && |argv| < MAXARGS && Simple(ts, argv, rs)
  }

  /** A simple command, or a line in parentheses followed by redirections. */
  ghost predicate IsExec(ts: seq<Lexeme>, c: Cmd<string>)
    decreases |ts|, 1
  {
    || (exists argv, rs :: SimpleOf(ts, c, argv, rs))
    || (exists k: nat, d, rs :: BlockOf(ts, c, k, d, rs))
  }

  ghost predicate PipeOf(ts: seq<Lexeme>, c: Cmd<string>, k: nat)
    decreases |ts|, 2
  {
    c.Pipe? && k < |ts| && ts[k] == Sym('|') && IsExec(ts[..k], c.left) && IsPipe(ts[k+1..], c.right)
  }

  ghost predicate IsPipe(ts: seq<Lexeme>, c: Cmd<string>)
    decreases |ts|, 3
  {
    IsExec(ts, c) || exists k: nat :: PipeOf(ts, c, k)
  }

  ghost predicate IsBack(ts: seq<Lexeme>, c: Cmd<string>)
    decreases |ts|, 4
  {
    || IsPipe(ts, c)
    || (c.Back? && ts != [] && ts[|ts|-1] == Sym('&') && IsBack(ts[..|ts|-1], c.cmd))
  }

  ghost predicate ListOf(ts: seq<Lexeme>, c: Cmd<string>, k: nat)
    decreases |ts|, 5
  {
    c.List? && k < |ts| && ts[k] == Sym(';') && IsBack(ts[..k], c.left) && IsLine(ts[k+1..], c.right)
  }

  ghost predicate IsLine(ts: seq<Lexeme>, c: Cmd<string>)
    decreases |ts|, 6
  {
    IsBack(ts, c) || exists k: nat :: ListOf(ts, c, k)
  }

  // ----- lexemes and the parser's look-ahead -----

  lemma LexBlanks(s: string, i: nat)
    requires i <= |s|
    ensures Lexemes(s, Skip(s, i)) == Lexemes(s, i)
  {
    SkipTwice(s, i);
    assert TokenAt(s, Skip(s, i)) == TokenAt(s, i);
  }

  /** What peek sees is the next symbol. */
  lemma LexSees(s: string, i: nat)
    requires i <= |s|
    ensures var ts := Lexemes(s, i);
      && (ts == [] <==> TokenAt(s, i).kind.End?)
      && (forall c: char :: IsSymbol(c) && c != '>' ==> (Sees(s, i, [c]) <==> ts != [] && ts[0] == Sym(c)))
      && (Sees(s, i, "<>") <==> ts != [] && (ts[0] == Sym('<') || ts[0] == Sym('>') || ts[0] == Double))
      && (Sees(s, i, "|)&;") <==> ts != [] && (ts[0] == Sym('|') || ts[0] == Sym(')') || ts[0] == Sym('&') || ts[0] == Sym(';')))
  {
  }

  lemma LexNext(s: string, i: nat)
    requires i <= |s| && Lexemes(s, i) != []
    ensures var t := TokenAt(s, i);
      && Lexemes(s, i)[1..] == Lexemes(s, t.next)
      && (t.kind.Word? <==> Lexemes(s, i)[0].Plain?)
      && (t.kind.Word? ==> Lexemes(s, i)[0] == Plain(Text(s, Tok(t.q, t.eq))))
      && (t.kind == Symbol('<') <==> Lexemes(s, i)[0] == Sym('<'))
  {
  }

  // ----- soundness: what the parser accepts is in the language -----

  /** ts is what stands between positions i and n. */
  ghost predicate Covers(s: string, i: nat, n: nat, ts: seq<Lexeme>) {
    i <= |s| && n <= |s| && Lexemes(s, i) == ts + Lexemes(s, n)
  }

  lemma CoverNone(s: string, i: nat)
    requires i <= |s|
    ensures Covers(s, i, i, []) && Covers(s, i, Skip(s, i), []) && Covers(s, Skip(s, i), i, [])
  {
    LexBlanks(s, i);
    hide Lexemes;
    assert forall ts: seq<Lexeme> :: [] + ts == ts;
  }

  lemma CoverJoin(s: string, i: nat, j: nat, n: nat, ts: seq<Lexeme>, us: seq<Lexeme>)
    requires Covers(s, i, j, ts) && Covers(s, j, n, us)
    ensures Covers(s, i, n, ts + us)
  {
    hide Lexemes;
  }

  lemma CoverToken(s: string, i: nat)
    requires i <= |s| && Lexemes(s, i) != []
    ensures Covers(s, i, TokenAt(s, i).next, [Lexemes(s, i)[0]])
  {
    LexNext(s, i);
    hide Lexemes;
  }

  /** An operator and a word, as parseredirs takes them. */
  lemma CoverRedir(s: string, i: nat) returns (ts: seq<Lexeme>)
    requires i <= |s| && Sees(s, i, "<>") && TokenAt(s, TokenAt(s, i).next).kind.Word?
    ensures var op := TokenAt(s, i); var name := TokenAt(s, op.next);
      && |ts| == 2 && Covers(s, i, name.next, ts)
      && OneRedir(ts, Redirection(Text(s, Tok(name.q, name.eq)), if op.kind == Symbol('<') then Input else Output))
  {
    hide Lexemes, TokenAt, Sees, Skip;
    var j := TokenAt(s, i).next;
    LexSees(s, i);
    LexNext(s, i);
    LexSees(s, j);
    LexNext(s, j);
    CoverToken(s, i);
    CoverToken(s, j);
    CoverJoin(s, i, j, TokenAt(s, j).next, [Lexemes(s, i)[0]], [Lexemes(s, j)[0]]);
    ts := [Lexemes(s, i)[0]] + [Lexemes(s, j)[0]];
  }

  lemma {:induction false} SoundRedirs(s: string, i: nat) returns (ts: seq<Lexeme>)
    requires i <= |s| && RedirsAt(s, i).Ok?
    ensures Covers(s, i, RedirsAt(s, i).next, ts) && RedirList(ts, NamedRedirs(s, RedirsAt(s, i).value))
    decreases |s| - i
  {
    hide Covers, Lexemes, TokenAt, Sees, Skip, OneRedir;
    if Sees(s, i, "<>") {
      var one := CoverRedir(s, i);
      var op := TokenAt(s, i);
      var name := TokenAt(s, op.next);
      var more := SoundRedirs(s, name.next);
      ts := one + more;
      CoverJoin(s, i, name.next, RedirsAt(s, name.next).next, one, more);
      RedirCons(s, one, more, Tok(name.q, name.eq), if op.kind == Symbol('<') then Input else Output, RedirsAt(s, name.next).value);
    } else {
      CoverNone(s, i);
      ts := [];
    }
  }

  lemma RedirCons(s: string, one: seq<Lexeme>, more: seq<Lexeme>, t: Tok, m: Mode, us: seq<Redirection<Tok>>)
    requires |one| == 2 && OneRedir(one, Redirection(Text(s, t), m)) && RedirList(more, NamedRedirs(s, us))
    ensures RedirList(one + more, NamedRedirs(s, [Redirection(t, m)] + us))
  {
    var all := [Redirection(t, m)] + us;
    assert all[1..] == us && (one + more)[2..] == more;
  }

  lemma {:induction false} SimpleRedirs(ts: seq<Lexeme>, rs: seq<Redirection<string>>,
                                        us: seq<Lexeme>, argv: seq<string>, rs': seq<Redirection<string>>)
    requires RedirList(ts, rs) && Simple(us, argv, rs')
    ensures Simple(ts + us, argv, rs + rs')
    decreases |rs|
  {
    if rs == [] {
      assert ts + us == us && rs + rs' == rs';
    } else {
      SimpleRedirs(ts[2..], rs[1..], us, argv, rs');
      assert (ts + us)[2..] == ts[2..] + us && (rs + rs')[1..] == rs[1..] + rs';
      assert (ts + us)[0] == ts[0] && (ts + us)[1] == ts[1];
    }
  }

  lemma {:induction false} NamedRedirsJoin(s: string, us: seq<Redirection<Tok>>, us': seq<Redirection<Tok>>)
    ensures NamedRedirs(s, us + us') == NamedRedirs(s, us) + NamedRedirs(s, us')
  {
    if us == [] {
      assert us + us' == us';
    } else {
      assert (us + us')[1..] == us[1..] + us';
      NamedRedirsJoin(s, us[1..], us');
    }
  }

  lemma SimpleWord(w: string, ts: seq<Lexeme>, argv: seq<string>, rs: seq<Redirection<string>>)
    requires Simple(ts, argv, rs)
    ensures Simple([Plain(w)] + ts, [w] + argv, rs)
  {
    assert ([Plain(w)] + ts)[1..] == ts && ([w] + argv)[1..] == argv;
  }

  lemma TextsOne(s: string, t: Tok, ts: seq<Tok>)
    ensures Texts(s, [t] + ts) == [Text(s, t)] + Texts(s, ts)
  {
    assert ([t] + ts)[1..] == ts;
  }

  lemma {:induction false} SoundArgs(s: string, i: nat, argc: nat) returns (ts: seq<Lexeme>)
    requires i <= |s| && ArgsAt(s, i, argc).Ok?
    ensures var a := ArgsAt(s, i, argc);
      Covers(s, i, a.next, ts) && Simple(ts, Texts(s, a.value.argv), NamedRedirs(s, a.value.redirs))
    decreases |s| - i
  {
    hide Covers, Lexemes, Skip, Sees, TokenAt, RedirsAt, Simple, RedirList, NamedRedirs, Texts;
    var t := TokenAt(s, i);
    if Sees(s, i, "|)&;") || t.kind.End? {
      CoverNone(s, i);
      if t.kind.End? { EndNext(s, i); }
      assert Simple([], Texts(s, []), NamedRedirs(s, [])) by { SimpleNone(s); }
      ts := [];
    } else {
      var rs := RedirsAt(s, t.next);
      var one := SoundRedirs(s, t.next);
      var more := SoundArgs(s, rs.next, argc + 1);
      var rest := ArgsAt(s, rs.next, argc + 1);
      var w := Text(s, Tok(t.q, t.eq));
      LexSees(s, i);
      LexNext(s, i);
      CoverToken(s, i);
      CoverJoin(s, t.next, rs.next, rest.next, one, more);
      CoverJoin(s, i, t.next, rest.next, [Plain(w)], one + more);
      ts := [Plain(w)] + (one + more);
      SimpleRedirs(one, NamedRedirs(s, rs.value), more, Texts(s, rest.value.argv), NamedRedirs(s, rest.value.redirs));
      SimpleWord(w, one + more, Texts(s, rest.value.argv), NamedRedirs(s, rs.value) + NamedRedirs(s, rest.value.redirs));
      NamedRedirsJoin(s, rs.value, rest.value.redirs);
      TextsOne(s, Tok(t.q, t.eq), rest.value.argv);
    }
  }

  lemma EndNext(s: string, i: nat)
    requires i <= |s| && TokenAt(s, i).kind.End?
    ensures TokenAt(s, i).next == Skip(s, i)
  {
  }

  lemma SimpleNone(s: string)
    ensures Simple([], Texts(s, []), NamedRedirs(s, []))
  {
  }

  lemma SoundSimple(s: string, i: nat) returns (ts: seq<Lexeme>)
    requires i <= |s| && SimpleAt(s, i).Ok?
    ensures Covers(s, i, SimpleAt(s, i).next, ts) && IsExec(ts, Named(s, SimpleAt(s, i).value))
  {
    hide Covers, Lexemes, RedirsAt, ArgsAt, Simple, RedirList, NamedRedirs, Texts, Wrap, BlockOf;
    var rs := RedirsAt(s, i);
    var a := ArgsAt(s, rs.next, 0);
    var one := SoundRedirs(s, i);
    var more := SoundArgs(s, rs.next, 0);
    ts := one + more;
    CoverJoin(s, i, rs.next, a.next, one, more);
    var argv, us := a.value.argv, rs.value + a.value.redirs;
    SimpleRedirs(one, NamedRedirs(s, rs.value), more, Texts(s, argv), NamedRedirs(s, a.value.redirs));
    NamedRedirsJoin(s, rs.value, a.value.redirs);
    NamedWrap(s, Exec(argv), us);
    ArgsOk(s, rs.next, 0);
    assert SimpleOf(ts, Named(s, SimpleAt(s, i).value), Texts(s, argv), NamedRedirs(s, us));
  }

  lemma BlockJoin(ts: seq<Lexeme>, d: Cmd<string>, us: seq<Lexeme>, rs: seq<Redirection<string>>)
    requires IsLine(ts, d) && RedirList(us, rs)
    ensures IsExec([Sym('(')] + (ts + ([Sym(')')] + us)), Wrap(d, rs))
  {
    hide IsLine, RedirList, Wrap, Simple;
    var all, k := [Sym('(')] + (ts + ([Sym(')')] + us)), |ts| + 1;
    assert all[1..k] == ts && all[k] == Sym(')') && all[k+1..] == us;
    assert BlockOf(all, Wrap(d, rs), k, d, rs);
  }

  lemma {:induction false} SoundBlock(s: string, i: nat) returns (ts: seq<Lexeme>)
    requires i <= |s| && Sees(s, i, "(") && BlockAt(s, i).Ok?
    ensures Covers(s, i, BlockAt(s, i).next, ts) && IsExec(ts, Named(s, BlockAt(s, i).value))
    decreases |s| - i, 0
  {
    hide Covers, Lexemes, TokenAt, Skip, Sees, RedirsAt, LineAt, RedirList, IsLine, IsExec, Wrap, NamedRedirs;
    var j := TokenAt(s, i).next;
    CoverSign(s, i, '(');
    var line := LineAt(s, j);
    var k := TokenAt(s, line.next).next;
    var rs := RedirsAt(s, k);
    var inner := SoundLine(s, j);
    var redirs := SoundRedirs(s, k);
    CoverSign(s, line.next, ')');
    CoverJoin(s, line.next, k, rs.next, [Sym(')')], redirs);
    CoverJoin(s, j, line.next, rs.next, inner, [Sym(')')] + redirs);
    ts := [Sym('(')] + (inner + ([Sym(')')] + redirs));
    CoverJoin(s, i, j, rs.next, [Sym('(')], inner + ([Sym(')')] + redirs));
    BlockJoin(inner, Named(s, line.value), redirs, NamedRedirs(s, rs.value));
    NamedWrap(s, line.value, rs.value);
  }

  lemma CoverSign(s: string, i: nat, c: char)
    requires i <= |s| && IsSymbol(c) && c != '>' && Sees(s, i, [c])
    ensures Covers(s, i, TokenAt(s, i).next, [Sym(c)]) && TokenAt(s, i).next > i
  {
    LexSees(s, i);
    CoverToken(s, i);
  }

  lemma {:induction false} SoundPipe(s: string, i: nat) returns (ts: seq<Lexeme>)
    requires i <= |s| && PipeAt(s, i).Ok?
    ensures Covers(s, i, PipeAt(s, i).next, ts) && IsPipe(ts, Named(s, PipeAt(s, i).value))
    decreases |s| - i, 2
  {
    hide Covers, Lexemes, TokenAt, Skip, Sees, ExecAt, IsExec;
    var left := ExecAt(s, i);
    var us := SoundExec(s, i);
    if Sees(s, left.next, "|") {
      var j := TokenAt(s, left.next).next;
      CoverSign(s, left.next, '|');
      var vs := SoundPipe(s, j);
      var n := PipeAt(s, j).next;
      CoverJoin(s, left.next, j, n, [Sym('|')], vs);
      CoverJoin(s, i, left.next, n, us, [Sym('|')] + vs);
      ts := us + ([Sym('|')] + vs);
      PipeJoin(us, Named(s, left.value), vs, Named(s, PipeAt(s, j).value));
    } else {
      CoverNone(s, left.next);
      CoverJoin(s, i, left.next, Skip(s, left.next), us, []);
      ts := us + [];
      assert ts == us;
    }
  }

  lemma PipeJoin(us: seq<Lexeme>, l: Cmd<string>, vs: seq<Lexeme>, r: Cmd<string>)
    requires IsExec(us, l) && IsPipe(vs, r)
    ensures IsPipe(us + ([Sym('|')] + vs), Pipe(l, r))
  {
    hide IsExec;
    var all := us + ([Sym('|')] + vs);
    assert all[..|us|] == us && all[|us|+1..] == vs;
    assert PipeOf(all, Pipe(l, r), |us|);
  }

  lemma {:induction false} SoundExec(s: string, i: nat) returns (ts: seq<Lexeme>)
    requires i <= |s| && ExecAt(s, i).Ok?
    ensures Covers(s, i, ExecAt(s, i).next, ts) && IsExec(ts, Named(s, ExecAt(s, i).value))
    decreases |s| - i, 1
  {
    hide Covers, Lexemes, Sees, BlockAt, SimpleAt, IsExec;
    if Sees(s, i, "(") { ts := SoundBlock(s, i); } else { ts := SoundSimple(s, i); }
  }

  lemma ListJoin(us: seq<Lexeme>, l: Cmd<string>, vs: seq<Lexeme>, r: Cmd<string>)
    requires IsBack(us, l) && IsLine(vs, r)
    ensures IsLine(us + ([Sym(';')] + vs), List(l, r))
  {
    hide IsBack;
    var all := us + ([Sym(';')] + vs);
    assert all[..|us|] == us && all[|us|+1..] == vs;
    assert ListOf(all, List(l, r), |us|);
  }

  lemma BackMore(us: seq<Lexeme>, l: Cmd<string>)
    requires IsBack(us, l)
    ensures IsBack(us + [Sym('&')], Back(l))
  {
    hide IsPipe;
    var all := us + [Sym('&')];
    assert all[..|all|-1] == us;
  }

  /** us stands for the line so far, whose tree is c. */
  lemma {:induction false} SoundTail(s: string, c: Cmd<Tok>, i: nat, us: seq<Lexeme>) returns (vs: seq<Lexeme>)
    requires i <= |s| && TailAt(s, c, i).Ok? && IsBack(us, Named(s, c))
    ensures Covers(s, i, TailAt(s, c, i).next, vs) && IsLine(us + vs, Named(s, TailAt(s, c, i).value))
    decreases |s| - i, 3
  {
    hide Covers, Lexemes, TokenAt, Skip, Sees, LineAt, IsBack;
    var j := TokenAt(s, i).next;
    if Sees(s, i, "&") {
      CoverSign(s, i, '&');
      BackMore(us, Named(s, c));
      var ws := SoundTail(s, Back(c), j, us + [Sym('&')]);
      CoverJoin(s, i, j, TailAt(s, Back(c), j).next, [Sym('&')], ws);
      vs := [Sym('&')] + ws;
      assert us + vs == us + [Sym('&')] + ws;
    } else if Sees(s, i, ";") {
      CoverSign(s, i, ';');
      var ws := SoundLine(s, j);
      CoverJoin(s, i, j, LineAt(s, j).next, [Sym(';')], ws);
      vs := [Sym(';')] + ws;
      ListJoin(us, Named(s, c), ws, Named(s, LineAt(s, j).value));
    } else {
      CoverNone(s, i);
      vs := [];
      assert us + vs == us;
    }
  }

  lemma {:induction false} SoundLine(s: string, i: nat) returns (ts: seq<Lexeme>)
    requires i <= |s| && LineAt(s, i).Ok?
    ensures Covers(s, i, LineAt(s, i).next, ts) && IsLine(ts, Named(s, LineAt(s, i).value))
    decreases |s| - i, 4
  {
    hide Covers, Lexemes, PipeAt, TailAt, IsLine, IsPipe;
    var first := PipeAt(s, i);
    var us := SoundPipe(s, i);
    var vs := SoundTail(s, first.value, first.next, us);
    ts := us + vs;
    CoverJoin(s, i, first.next, TailAt(s, first.value, first.next).next, us, vs);
  }

  /** Every accepted line is in the language, with the tree the parser returns. */
  lemma Sound(s: string)
    requires CmdOf(s).Ok?
    ensures IsLine(Lexemes(s, 0), Named(s, CmdOf(s).value))
  {
    hide LineAt, IsLine, Named;
    var ts := SoundLine(s, 0);
    var n := LineAt(s, 0).next;
    LexBlanks(s, n);
    assert Lexemes(s, |s|) == [];
    assert Lexemes(s, 0) == ts + [] == ts;
  }

  // ----- completeness: what is in the language the parser accepts -----

  predicate Before(rest: seq<Lexeme>, toks: string) { rest == [] || (rest[0].Sym? && rest[0].c in toks) }

  /** Where the parser is: at position i, with ts and then rest ahead. */
  ghost predicate Ahead(s: string, i: nat, ts: seq<Lexeme>, rest: seq<Lexeme>) { i <= |s| && Lexemes(s, i) == ts + rest }

  /** One redirection ahead, as parseredirs takes it. */
  lemma AheadRedir(s: string, i: nat, ts: seq<Lexeme>, rest: seq<Lexeme>, r: Redirection<string>)
    requires Ahead(s, i, ts, rest) && OneRedir(ts, r)
    ensures Sees(s, i, "<>")
    ensures var op := TokenAt(s, i); var name := TokenAt(s, op.next);
      && name.kind.Word? && Text(s, Tok(name.q, name.eq)) == r.file
      && (if op.kind == Symbol('<') then Input else Output) == r.mode
      && name.next > i && Ahead(s, name.next, ts[2..], rest)
  {
    hide Lexemes, TokenAt, Sees;
    var all := ts + rest;
    assert all[0] == ts[0] && all[1] == ts[1] && all[1..][0] == ts[1] && all[1..][1..] == ts[2..] + rest;
    LexSees(s, i);
    LexNext(s, i);
    assert TokenAt(s, i).next > i by { SeesNext(s, i); }
    LexNext(s, TokenAt(s, i).next);
  }

  lemma SeesNext(s: string, i: nat)
    requires i <= |s| && !TokenAt(s, i).kind.End?
    ensures TokenAt(s, i).next > i
  {
  }

  lemma TakeOne(ts: seq<Lexeme>, rs: seq<Redirection<string>>, m: nat)
    requires |rs| > 0 && |ts| >= 2 && m <= |rs| - 1 && 2 * m <= |ts| - 2
    ensures rs[..m+1] == [rs[0]] + rs[1..][..m] && rs[m+1..] == rs[1..][m..]
    ensures ts[2*(m+1)..] == ts[2..][2*m..]
  {
  }

  /** parseredirs takes the redirections that lead a mix of words and redirections. */
  lemma {:induction false} CompleteRedirs(s: string, i: nat, ts: seq<Lexeme>, rest: seq<Lexeme>,
                                          argv: seq<string>, rs: seq<Redirection<string>>)
    returns (us: seq<Redirection<Tok>>, n: nat, m: nat)
    requires Ahead(s, i, ts, rest) && Simple(ts, argv, rs) && Before(rest, "|)&;")
    ensures RedirsAt(s, i) == Ok(us, n) && m <= |rs| && 2 * m <= |ts| && NamedRedirs(s, us) == rs[..m]
    ensures Ahead(s, n, ts[2*m..], rest) && Simple(ts[2*m..], argv, rs[m..]) && n >= i
    ensures ts[2*m..] == [] || ts[2*m].Plain?
    decreases |ts|
  {
    hide Lexemes, TokenAt, Sees, Skip, RedirsAt, NamedRedirs, Ahead, Before;
    AheadIn(s, i, ts, rest);
    if ts != [] && !ts[0].Plain? {
      assert OneRedir(ts, rs[0]) && Simple(ts[2..], argv, rs[1..]);
      hide Simple, OneRedir;
      AheadRedir(s, i, ts, rest, rs[0]);
      var op := TokenAt(s, i);
      var name := TokenAt(s, op.next);
      var us', m';
      us', n, m' := CompleteRedirs(s, name.next, ts[2..], rest, argv, rs[1..]);
      var u := Redirection(Tok(name.q, name.eq), if op.kind == Symbol('<') then Input else Output);
      us, m := [u] + us', m' + 1;
      RedirsMore(s, i, us', n);
      NamedMore(s, u, us');
      TakeOne(ts, rs, m');
    } else {
      us, m, n := [], 0, Skip(s, i);
      NoOpAhead(s, i, ts, rest);
      RedirsNone(s, i);
      AheadSkip(s, i, ts, rest);
      assert ts[0..] == ts && rs[0..] == rs && rs[..0] == [];
    }
  }

  lemma RedirsMore(s: string, i: nat, us: seq<Redirection<Tok>>, n: nat)
    requires i <= |s| && Sees(s, i, "<>") && TokenAt(s, TokenAt(s, i).next).kind.Word?
    requires RedirsAt(s, TokenAt(s, TokenAt(s, i).next).next) == Ok(us, n)
    ensures var op := TokenAt(s, i); var name := TokenAt(s, op.next);
      RedirsAt(s, i) == Ok([Redirection(Tok(name.q, name.eq), if op.kind == Symbol('<') then Input else Output)] + us, n)
  {
    hide TokenAt, Sees;
  }

  lemma RedirsNone(s: string, i: nat)
    requires i <= |s| && !Sees(s, i, "<>")
    ensures RedirsAt(s, i) == Ok([], Skip(s, i)) && NamedRedirs(s, []) == []
  {
  }

  lemma NamedMore(s: string, u: Redirection<Tok>, us: seq<Redirection<Tok>>)
    ensures NamedRedirs(s, [u] + us) == [Redirection(Text(s, u.file), u.mode)] + NamedRedirs(s, us)
  {
    assert ([u] + us)[1..] == us;
  }

  lemma AheadSkip(s: string, i: nat, ts: seq<Lexeme>, rest: seq<Lexeme>)
    requires Ahead(s, i, ts, rest)
    ensures i <= |s| && Ahead(s, Skip(s, i), ts, rest)
  {
    LexBlanks(s, i);
  }

  lemma NoOpAhead(s: string, i: nat, ts: seq<Lexeme>, rest: seq<Lexeme>)
    requires Ahead(s, i, ts, rest) && Before(rest, "|)&;") && (ts == [] || ts[0].Plain?)
    ensures !Sees(s, i, "<>") && (ts != [] ==> !Sees(s, i, "|)&;") && TokenAt(s, i).kind.Word?)
    ensures ts == [] ==> Sees(s, i, "|)&;") || TokenAt(s, i).kind.End?
    ensures !Sees(s, i, "(")
  {
    hide Lexemes, TokenAt, Sees, Skip;
    LexSees(s, i);
    assert ts == [] ==> ts + rest == rest;
    if Lexemes(s, i) != [] { LexNext(s, i); }
  }

  lemma NothingNamed(s: string)
    ensures Texts(s, []) == [] && NamedRedirs(s, []) == []
  {
  }

  lemma AheadWord(s: string, i: nat, ts: seq<Lexeme>, rest: seq<Lexeme>)
    requires Ahead(s, i, ts, rest) && ts != [] && ts[0].Plain?
    ensures var t := TokenAt(s, i);
      && t.kind.Word? && ts[0] == Plain(Text(s, Tok(t.q, t.eq))) && t.next > i && Ahead(s, t.next, ts[1..], rest)
  {
    hide Lexemes, TokenAt;
    LexNext(s, i);
    assert (ts + rest)[0] == ts[0] && (ts + rest)[1..] == ts[1..] + rest;
    SeesNext(s, i);
  }

  lemma {:induction false} CompleteArgs(s: string, i: nat, ts: seq<Lexeme>, rest: seq<Lexeme>,
                                        argv: seq<string>, rs: seq<Redirection<string>>, argc: nat)
    returns (vs: seq<Tok>, us: seq<Redirection<Tok>>, n: nat)
    requires Ahead(s, i, ts, rest) && Simple(ts, argv, rs) && Before(rest, "|)&;") && (ts == [] || ts[0].Plain?)
    requires argc + |argv| < MAXARGS
    ensures ArgsAt(s, i, argc) == Ok(Args(vs, us), n) && Ahead(s, n, [], rest)
    ensures Texts(s, vs) == argv && NamedRedirs(s, us) == rs
    decreases |ts|
  {
    hide Lexemes, TokenAt, Sees, Skip, RedirsAt, ArgsAt, NamedRedirs, Texts, Ahead, Before;
    AheadIn(s, i, ts, rest);
    NoOpAhead(s, i, ts, rest);
    if ts == [] {
      vs, us, n := [], [], Skip(s, i);
      AheadSkip(s, i, ts, rest);
      ArgsNone(s, i, argc);
      NothingNamed(s);
    } else {
      var t := TokenAt(s, i);
      AheadWord(s, i, ts, rest);
      var us1, j, m := CompleteRedirs(s, t.next, ts[1..], rest, argv[1..], rs);
      var ts' := ts[1..][2*m..];
      var vs', us';
      vs', us', n := CompleteArgs(s, j, ts', rest, argv[1..], rs[m..], argc + 1);
      var tok := Tok(t.q, t.eq);
      vs, us := [tok] + vs', us1 + us';
      ArgsMore(s, i, argc, tok, t.next, us1, j, vs', us', n);
      NamedRedirsJoin(s, us1, us');
      assert rs == rs[..m] + rs[m..];
      TextsCons(s, tok, vs', argv);
    }
  }

  lemma CompleteSimple(s: string, i: nat, ts: seq<Lexeme>, rest: seq<Lexeme>, argv: seq<string>, rs: seq<Redirection<string>>)
    returns (t: Cmd<Tok>, n: nat)
    requires Ahead(s, i, ts, rest) && Simple(ts, argv, rs) && Before(rest, "|)&;") && |argv| < MAXARGS
    ensures SimpleAt(s, i) == Ok(t, n) && Named(s, t) == Wrap(Exec(argv), rs) && Ahead(s, n, [], rest)
    ensures !Sees(s, i, "(")
  {
    hide Lexemes, Sees, Skip, RedirsAt, ArgsAt, Wrap, Simple, NamedRedirs, Texts;
    var us, j, m := CompleteRedirs(s, i, ts, rest, argv, rs);
    var vs, us';
    vs, us', n := CompleteArgs(s, j, ts[2*m..], rest, argv, rs[m..], 0);
    t := Wrap(Exec(vs), us + us');
    NamedWrap(s, Exec(vs), us + us');
    NamedRedirsJoin(s, us, us');
    assert rs == rs[..m] + rs[m..];
    NotBlock(s, i, ts, rest, argv, rs);
  }

  lemma NotBlock(s: string, i: nat, ts: seq<Lexeme>, rest: seq<Lexeme>, argv: seq<string>, rs: seq<Redirection<string>>)
    requires Ahead(s, i, ts, rest) && Simple(ts, argv, rs) && Before(rest, "|)&;")
    ensures !Sees(s, i, "(")
  {
    hide Lexemes, Sees;
    LexSees(s, i);
    assert ts == [] ==> ts + rest == rest;
    assert ts != [] ==> (ts + rest)[0] == ts[0];
  }

  /** A symbol ahead is seen, and taken by gettoken. */
  lemma AheadSign(s: string, i: nat, c: char, rest: seq<Lexeme>)
    requires Ahead(s, i, [Sym(c)], rest) && IsSymbol(c) && c != '>'
    ensures forall d: char :: IsSymbol(d) && d != '>' ==> (Sees(s, i, [d]) <==> d == c)
    ensures Ahead(s, TokenAt(s, i).next, [], rest) && TokenAt(s, i).next > i
  {
    hide Lexemes, TokenAt, Sees;
    LexSees(s, i);
    LexNext(s, i);
    assert ([Sym(c)] + rest)[1..] == rest == [] + rest;
    SeesNext(s, i);
  }

  lemma AheadSplit(s: string, i: nat, ts: seq<Lexeme>, rest: seq<Lexeme>, k: nat)
    requires Ahead(s, i, ts, rest) && k <= |ts|
    ensures Ahead(s, i, ts[..k], ts[k..] + rest)
    ensures k == 0 ==> Ahead(s, i, [], ts + rest)
  {
    hide Lexemes;
    assert ts + rest == ts[..k] + (ts[k..] + rest);
  }

  lemma AheadNext(s: string, i: nat, us: seq<Lexeme>, k: nat, rest: seq<Lexeme>)
    requires k < |us| && Ahead(s, i, [], us[k..] + rest)
    ensures Ahead(s, i, [us[k]], us[k+1..] + rest)
  {
    hide Lexemes;
    assert [] + (us[k..] + rest) == [us[k]] + (us[k+1..] + rest);
  }

  lemma AheadRest(s: string, i: nat, us: seq<Lexeme>, rest: seq<Lexeme>)
    requires Ahead(s, i, [], us + rest)
    ensures Ahead(s, i, us, rest)
  {
    hide Lexemes;
    assert [] + (us + rest) == us + rest;
  }

  lemma {:induction false} CompleteExec(s: string, i: nat, ts: seq<Lexeme>, rest: seq<Lexeme>, c: Cmd<string>)
    returns (t: Cmd<Tok>, n: nat)
    requires Ahead(s, i, ts, rest) && IsExec(ts, c) && Before(rest, "|)&;")
    ensures ExecAt(s, i) == Ok(t, n) && Named(s, t) == c && Ahead(s, n, [], rest)
    decreases |ts|, 0
  {
    hide Ahead, Sees, SimpleAt, BlockAt, BlockOf, Wrap, Named;
    if argv, rs :| SimpleOf(ts, c, argv, rs) {
      t, n := CompleteSimple(s, i, ts, rest, argv, rs);
    } else {
      var k: nat, d, rs :| BlockOf(ts, c, k, d, rs);
      t, n := CompleteBlock(s, i, ts, rest, c, k, d, rs);
    }
  }

  lemma {:induction false} CompleteBlock(s: string, i: nat, ts: seq<Lexeme>, rest: seq<Lexeme>, c: Cmd<string>,
                                         k: nat, d: Cmd<string>, rs: seq<Redirection<string>>)
    returns (t: Cmd<Tok>, n: nat)
    requires Ahead(s, i, ts, rest) && BlockOf(ts, c, k, d, rs) && Before(rest, "|)&;")
    ensures ExecAt(s, i) == Ok(t, n) && Named(s, t) == c && Ahead(s, n, [], rest)
    decreases |ts|, 0, 0
  {
    hide Ahead, Sees, TokenAt, ExecAt, LineAt, RedirsAt, IsLine, RedirList, Wrap, Named;
    AheadSplit(s, i, ts, rest, 0);
    assert ts[0..] == ts;
    AheadNext(s, i, ts, 0, rest);
    AheadSign(s, i, '(', ts[1..] + rest);
    var j := TokenAt(s, i).next;
    AheadRest(s, j, ts[1..], rest);
    AheadSplit(s, j, ts[1..], rest, k - 1);
    assert ts[1..][..k-1] == ts[1..k] && ts[1..][k-1..] == ts[k..];
    assert Before(ts[k..] + rest, ")");
    var u, m := CompleteLine(s, j, ts[1..k], ts[k..] + rest, d);
    AheadNext(s, m, ts, k, rest);
    AheadSign(s, m, ')', ts[k+1..] + rest);
    var j' := TokenAt(s, m).next;
    AheadRest(s, j', ts[k+1..], rest);
    var us;
    us, n := CompleteRedirList(s, j', ts[k+1..], rest, rs);
    BlockDone(s, i, u, m, us, n);
    t := Wrap(u, us);
    NamedWrap(s, u, us);
  }

  lemma CompleteRedirList(s: string, i: nat, ts: seq<Lexeme>, rest: seq<Lexeme>, rs: seq<Redirection<string>>)
    returns (us: seq<Redirection<Tok>>, n: nat)
    requires Ahead(s, i, ts, rest) && RedirList(ts, rs) && Before(rest, "|)&;")
    ensures RedirsAt(s, i) == Ok(us, n) && NamedRedirs(s, us) == rs && Ahead(s, n, [], rest)
  {
    hide Ahead, RedirsAt, RedirList, NamedRedirs;
    assert Simple([], [], []);
    SimpleRedirs(ts, rs, [], [], []);
    assert ts + [] == ts && rs + [] == rs;
    var m;
    us, n, m := CompleteRedirs(s, i, ts, rest, [], rs);
    assert ts[2*m..] == [] && rs[m..] == [];
    assert rs[..m] == rs;
  }

  lemma {:induction false} CompletePipe(s: string, i: nat, ts: seq<Lexeme>, rest: seq<Lexeme>, c: Cmd<string>)
    returns (t: Cmd<Tok>, n: nat)
    requires Ahead(s, i, ts, rest) && IsPipe(ts, c) && Before(rest, ")&;")
    ensures PipeAt(s, i) == Ok(t, n) && Named(s, t) == c && Ahead(s, n, [], rest)
    decreases |ts|, 1
  {
    hide Ahead, Sees, TokenAt, ExecAt, PipeAt, IsExec;
    if IsExec(ts, c) {
      var m;
      t, m := CompleteExec(s, i, ts, rest, c);
      assert m <= |s| && !Sees(s, m, "|") by { NotAhead(s, m, rest, ")&;", '|'); }
      PipeOne(s, i, t, m);
      n := Skip(s, m);
      AheadSkip(s, m, [], rest);
    } else {
      var k: nat :| PipeOf(ts, c, k);
      AheadSplit(s, i, ts, rest, k);
      var l, m := CompleteExec(s, i, ts[..k], ts[k..] + rest, c.left);
      AheadNext(s, m, ts, k, rest);
      AheadSign(s, m, '|', ts[k+1..] + rest);
      var j := TokenAt(s, m).next;
      AheadRest(s, j, ts[k+1..], rest);
      var r;
      r, n := CompletePipe(s, j, ts[k+1..], rest, c.right);
      PipeMore(s, i, l, m, r, n);
      t := Pipe(l, r);
    }
  }

  lemma NotAhead(s: string, i: nat, rest: seq<Lexeme>, toks: string, c: char)
    requires Ahead(s, i, [], rest) && Before(rest, toks) && IsSymbol(c) && c != '>' && c !in toks
    ensures i <= |s| && !Sees(s, i, [c])
  {
    hide Lexemes, Sees;
    LexSees(s, i);
    assert [] + rest == rest;
  }

  lemma {:induction false} CompleteBack(s: string, i: nat, ts: seq<Lexeme>, rest: seq<Lexeme>, c: Cmd<string>)
    returns (t: Cmd<Tok>, n: nat)
    requires Ahead(s, i, ts, rest) && IsBack(ts, c) && Before(rest, ")&;")
    ensures i <= |s| && n <= |s| && LineAt(s, i) == TailAt(s, t, n) && Named(s, t) == c && Ahead(s, n, [], rest)
    decreases |ts|, 2
  {
    hide Ahead, Sees, TokenAt, PipeAt, LineAt, TailAt, IsPipe;
    assert i <= |s| by { AheadIn(s, i, ts, rest); }
    if IsPipe(ts, c) {
      t, n := CompletePipe(s, i, ts, rest, c);
      LineFirst(s, i, t, n);
      AheadIn(s, n, [], rest);
    } else {
      var k := |ts| - 1;
      AheadSplit(s, i, ts, rest, k);
      var b, m := CompleteBack(s, i, ts[..k], ts[k..] + rest, c.cmd);
      AheadNext(s, m, ts, k, rest);
      AheadSign(s, m, '&', ts[k+1..] + rest);
      LineBack(s, i, b, m);
      t, n := Back(b), TokenAt(s, m).next;
      assert ts[k+1..] + rest == rest;
    }
  }

  lemma AheadIn(s: string, i: nat, ts: seq<Lexeme>, rest: seq<Lexeme>)
    requires Ahead(s, i, ts, rest)
    ensures i <= |s|
  {
  }

  lemma {:induction false} CompleteLine(s: string, i: nat, ts: seq<Lexeme>, rest: seq<Lexeme>, c: Cmd<string>)
    returns (t: Cmd<Tok>, n: nat)
    requires Ahead(s, i, ts, rest) && IsLine(ts, c) && Before(rest, ")")
    ensures i <= |s| && LineAt(s, i) == Ok(t, n) && Named(s, t) == c && Ahead(s, n, [], rest)
    decreases |ts|, 3
  {
    hide Ahead, Sees, TokenAt, PipeAt, LineAt, TailAt, IsBack;
    if IsBack(ts, c) {
      var m;
      t, m := CompleteBack(s, i, ts, rest, c);
      NotAhead(s, m, rest, ")", '&');
      NotAhead(s, m, rest, ")", ';');
      LineOne(s, i, t, m);
      n := Skip(s, m);
      AheadSkip(s, m, [], rest);
    } else {
      var k: nat :| ListOf(ts, c, k);
      AheadSplit(s, i, ts, rest, k);
      var l, m := CompleteBack(s, i, ts[..k], ts[k..] + rest, c.left);
      AheadNext(s, m, ts, k, rest);
      AheadSign(s, m, ';', ts[k+1..] + rest);
      var j := TokenAt(s, m).next;
      AheadRest(s, j, ts[k+1..], rest);
      var r;
      r, n := CompleteLine(s, j, ts[k+1..], rest, c.right);
      LineMore(s, i, l, r, m, n);
      t := List(l, r);
    }
  }

  /** The parser accepts exactly the language, and returns the tree: for every line s and
      every tree c. */
  lemma Language(s: string, c: Cmd<string>)
    ensures (CmdOf(s).Ok? && Named(s, CmdOf(s).value) == c) <==> IsLine(Lexemes(s, 0), c)
  {
    hide LineAt, IsLine, Named;
    if CmdOf(s).Ok? { Sound(s); }
    if IsLine(Lexemes(s, 0), c) {
      assert Lexemes(s, 0) + [] == Lexemes(s, 0);
      var t, n := CompleteLine(s, 0, Lexemes(s, 0), [], c);
      LexBlanks(s, n);
      assert Skip(s, n) == |s| by { LexSees(s, n); KindEnd(s, n); }
    }
  }

  lemma KindEnd(s: string, i: nat)
    requires i <= |s| && TokenAt(s, i).kind.End?
    ensures Skip(s, i) == |s|
  {
  }

  /** The grammar is unambiguous. */
  lemma Unambiguous(s: string, c: Cmd<string>, d: Cmd<string>)
    requires IsLine(Lexemes(s, 0), c) && IsLine(Lexemes(s, 0), d)
    ensures c == d
  {
    Language(s, c);
    Language(s, d);
  }

  // ----- what may follow `&` -----

  predicate AmpAt(ts: seq<Lexeme>, k: nat) {
    k + 1 < |ts| && ts[k] == Sym('&') ==> ts[k+1] == Sym('&') || ts[k+1] == Sym(';') || ts[k+1] == Sym(')')
  }

  ghost predicate AmpOk(ts: seq<Lexeme>) { forall k: nat :: AmpAt(ts, k) }

  predicate EndsOpen(ts: seq<Lexeme>) { ts == [] || ts[|ts|-1] != Sym('&') }

  lemma {:induction false} SimpleNoAmp(ts: seq<Lexeme>, argv: seq<string>, rs: seq<Redirection<string>>)
    requires Simple(ts, argv, rs)
    ensures Sym('&') !in ts
    decreases |ts|
  {
    if ts != [] {
      if ts[0].Plain? {
        SimpleNoAmp(ts[1..], argv[1..], rs);
        assert ts == [ts[0]] + ts[1..];
      } else {
        SimpleNoAmp(ts[2..], argv, rs[1..]);
        assert ts == [ts[0], ts[1]] + ts[2..];
      }
    }
  }

  lemma NoAmpOk(ts: seq<Lexeme>)
    requires Sym('&') !in ts
    ensures AmpOk(ts) && EndsOpen(ts)
  {
    forall k: nat ensures AmpAt(ts, k) { if k < |ts| { assert ts[k] in ts; } }
    if ts != [] { assert ts[|ts|-1] in ts; }
  }

  lemma JoinAmp(us: seq<Lexeme>, l: Lexeme, vs: seq<Lexeme>)
    requires AmpOk(us) && AmpOk(vs) && l != Sym('&') && (EndsOpen(us) || l == Sym(';') || l == Sym(')'))
    ensures AmpOk(us + ([l] + vs)) && (EndsOpen(vs) ==> EndsOpen(us + ([l] + vs)))
  {
    var all := us + ([l] + vs);
    forall k: nat ensures AmpAt(all, k) {
      if k < |us| { assert AmpAt(us, k) && all[k] == us[k]; }
      else if k > |us| && k < |all| { assert AmpAt(vs, k - |us| - 1) && all[k] == vs[k - |us| - 1]; }
    }
  }

  lemma {:induction false} ExecAmp(ts: seq<Lexeme>, c: Cmd<string>)
    requires IsExec(ts, c)
    ensures AmpOk(ts) && EndsOpen(ts)
    decreases |ts|, 0
  {
    hide AmpOk, Simple, IsLine, RedirList, Wrap;
    if argv, rs :| SimpleOf(ts, c, argv, rs) {
      SimpleNoAmp(ts, argv, rs);
      NoAmpOk(ts);
    } else {
      var k: nat, d, rs :| BlockOf(ts, c, k, d, rs);
      LineAmp(ts[1..k], d);
      SimpleRedirs(ts[k+1..], rs, [], [], []);
      assert Simple([], [], []) by { SimpleNone(""); }
      assert ts[k+1..] + [] == ts[k+1..] && rs + [] == rs;
      SimpleNoAmp(ts[k+1..], [], rs);
      NoAmpOk(ts[k+1..]);
      JoinAmp(ts[1..k], Sym(')'), ts[k+1..]);
      NoAmpOk([]);
      JoinAmp([], Sym('('), ts[1..k] + ([Sym(')')] + ts[k+1..]));
      assert ts == [] + ([Sym('(')] + (ts[1..k] + ([Sym(')')] + ts[k+1..])));
    }
  }

  lemma {:induction false} PipeAmp(ts: seq<Lexeme>, c: Cmd<string>)
    requires IsPipe(ts, c)
    ensures AmpOk(ts) && EndsOpen(ts)
    decreases |ts|, 1
  {
    hide AmpOk, IsExec;
    if IsExec(ts, c) {
      ExecAmp(ts, c);
    } else {
      var k: nat :| PipeOf(ts, c, k);
      ExecAmp(ts[..k], c.left);
      PipeAmp(ts[k+1..], c.right);
      JoinAmp(ts[..k], Sym('|'), ts[k+1..]);
      assert ts == ts[..k] + ([Sym('|')] + ts[k+1..]);
    }
  }

  lemma {:induction false} BackAmp(ts: seq<Lexeme>, c: Cmd<string>)
    requires IsBack(ts, c)
    ensures AmpOk(ts)
    decreases |ts|, 2
  {
    hide IsPipe;
    if IsPipe(ts, c) {
      PipeAmp(ts, c);
    } else {
      var us := ts[..|ts|-1];
      BackAmp(us, c.cmd);
      forall k: nat ensures AmpAt(ts, k) { assert AmpAt(us, k); }
    }
  }

  /** In an accepted line `&` is followed only by `&`, `;`, `)` or the end: the shell has no
      `a & b`. */
  lemma {:induction false} LineAmp(ts: seq<Lexeme>, c: Cmd<string>)
    requires IsLine(ts, c)
    ensures AmpOk(ts)
    decreases |ts|, 3
  {
    hide AmpOk, IsBack;
    if IsBack(ts, c) {
      BackAmp(ts, c);
    } else {
      var k: nat :| ListOf(ts, c, k);
      BackAmp(ts[..k], c.left);
      LineAmp(ts[k+1..], c.right);
      JoinAmp(ts[..k], Sym(';'), ts[k+1..]);
      assert ts == ts[..k] + ([Sym(';')] + ts[k+1..]);
    }
  }

  /** The three lexemes of the line. */
  lemma LexBackground()
    ensures Lexemes("a & b", 0) == [Plain("a"), Sym('&'), Plain("b")]
  {
    var s := "a & b";
    assert Skip(s, 5) == 5 && Skip(s, 4) == 4 && Skip(s, 2) == 2 && Skip(s, 0) == 0;
    assert Skip(s, 1) == 2 && Skip(s, 3) == 4;
    assert WordEnd(s, 1) == 1 && WordEnd(s, 0) == 1;
    assert WordEnd(s, 5) == 5 && WordEnd(s, 4) == 5;
    assert TokenAt(s, 0) == Token(Word, 0, 1, 2);
    assert TokenAt(s, 2) == Token(Symbol('&'), 2, 3, 4);
    assert TokenAt(s, 4) == Token(Word, 4, 5, 5);
    assert Lexemes(s, 5) == [];
    assert s[4..5] == "b" && s[0..1] == "a";
    assert Lexemes(s, 4) == [Plain("b")];
    assert Lexemes(s, 2) == [Sym('&'), Plain("b")];
  }

  /** The shell rejects a command that follows one in the background. */
  lemma NoBackgroundThenCommand()
    ensures CmdOf("a & b").Panic?
  {
    hide CmdOf, Lexemes, Named;
    LexBackground();
    assert !AmpAt([Plain("a"), Sym('&'), Plain("b")], 1);
    if CmdOf("a & b").Ok? {
      Sound("a & b");
      LineAmp(Lexemes("a & b", 0), Named("a & b", CmdOf("a & b").value));
    }
  }
}
