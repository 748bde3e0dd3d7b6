/** Printing a command tree and parsing it back. */
module ShellPrint {
  import opened ShellGrammar

  // ----- printing -----

  /** Where a tree may stand: 0 in a pipeline, 1 before `&`, 2 before `;`, 3 as a line. */
  type Level = n: nat | n < 4

  function Natural(c: Cmd<string>): (n: Level) {
    match c
    case Exec(_) => 0
    case Redir(_, _, _) => 0
    case Pipe(_, _) => 1
    case Back(_) => 2
    case List(_, _) => 3
  }

  function PrintArgs(argv: seq<string>): (r: string) {
    if argv == [] then [] else [' '] + argv[0] + PrintArgs(argv[1..])
  }

  function Sign(m: Mode): (c: char) { if m.Input? then '<' else '>' }

  /** Parentheses only where the level does not allow the tree as it stands. */
  function Print(c: Cmd<string>, level: Level): (r: string)
    decreases c, 1
  {
    if Natural(c) <= level then Body(c) else ['('] + Body(c) + [')']
  }

  function Body(c: Cmd<string>): (r: string)
    decreases c, 0
  {
    match c
    case Exec(argv) => PrintArgs(argv)
    case Redir(cmd, file, mode) => Print(cmd, 0) + ([Sign(mode)] + file)
    case Pipe(l, r) => Print(l, 0) + ['|'] + Print(r, 1)
    case Back(cmd) => Print(cmd, 2) + ['&']
    case List(l, r) => Print(l, 2) + [';'] + Print(r, 3)
  }

  ghost predicate WordOk(w: string) { w != [] && forall k :: 0 <= k < |w| ==> IsWord(w[k]) }

  /** The trees the shell can hold: real words, fewer than MAXARGS arguments. */
  ghost predicate Valid(c: Cmd<string>) {
    match c
    case Exec(argv) => |argv| < MAXARGS && forall w :: w in argv ==> WordOk(w)
    case Redir(cmd, file, _) => Valid(cmd) && WordOk(file)
    case Pipe(l, r) => Valid(l) && Valid(r)
    case List(l, r) => Valid(l) && Valid(r)
    case Back(cmd) => Valid(cmd)
  }

  // ----- redirections peeled off -----

  function Core<W>(c: Cmd<W>): (r: Cmd<W>) { if c.Redir? then Core(c.cmd) else c }

  function Redirs<W>(c: Cmd<W>): (r: seq<Redirection<W>>) {
    if c.Redir? then Redirs(c.cmd) + [Redirection(c.file, c.mode)] else []
  }

  function Size<W>(c: Cmd<W>): (n: nat) {
    match c
    case Exec(_) => 1
    case Redir(cmd, _, _) => 1 + Size(cmd)
    case Pipe(l, r) => 1 + Size(l) + Size(r)
    case List(l, r) => 1 + Size(l) + Size(r)
    case Back(cmd) => 1 + Size(cmd)
  }

  function PrintRedirs(rs: seq<Redirection<string>>): (r: string) {
    if rs == [] then [] else [Sign(rs[0].mode)] + rs[0].file + PrintRedirs(rs[1..])
  }

  lemma {:induction false} PrintRedirsSnoc(rs: seq<Redirection<string>>, r: Redirection<string>)
    ensures PrintRedirs(rs + [r]) == PrintRedirs(rs) + ([Sign(r.mode)] + r.file)
  {
    if rs == [] {
      assert PrintRedirs([r]) == [Sign(r.mode)] + r.file;
    } else {
      assert (rs + [r])[1..] == rs[1..] + [r];
      PrintRedirsSnoc(rs[1..], r);
    }
  }

  lemma {:induction false} WrapSnoc<W>(c: Cmd<W>, rs: seq<Redirection<W>>, r: Redirection<W>)
    ensures Wrap(c, rs + [r]) == Redir(Wrap(c, rs), r.file, r.mode)
    decreases |rs|
  {
    if rs == [] {
      assert ([] + [r])[1..] == [];
    } else {
      assert (rs + [r])[1..] == rs[1..] + [r];
      WrapSnoc(Redir(c, rs[0].file, rs[0].mode), rs[1..], r);
    }
  }

  ghost predicate RedirsValid(rs: seq<Redirection<string>>) { forall r :: r in rs ==> WordOk(r.file) }

  lemma {:induction false} Peel(c: Cmd<string>)
    requires Valid(c)
    ensures Wrap(Core(c), Redirs(c)) == c && Print(c, 0) == Print(Core(c), 0) + PrintRedirs(Redirs(c))
    ensures Valid(Core(c)) && !Core(c).Redir? && RedirsValid(Redirs(c))
    ensures Size(Core(c)) <= Size(c) && (c.Redir? ==> Size(Core(c)) < Size(c)) && (!c.Redir? ==> Core(c) == c)
  {
    if c.Redir? {
      Peel(c.cmd);
      var r := Redirection(c.file, c.mode);
      PrintRedirsSnoc(Redirs(c.cmd), r);
      WrapSnoc(Core(c), Redirs(c.cmd), r);
      assert Print(c, 0) == (Print(Core(c), 0) + PrintRedirs(Redirs(c.cmd))) + ([Sign(r.mode)] + r.file);
    } else {
      assert Print(c, 0) + [] == Print(c, 0);
    }
  }

  // ----- reading text at a position -----

  ghost predicate At(s: string, i: nat, w: string) { i + |w| <= |s| && s[i..i+|w|] == w }

  lemma AtSplit(s: string, i: nat, u: string, v: string)
    requires At(s, i, u + v)
    ensures At(s, i, u) && At(s, i + |u|, v)
  {
    var n := i + |u| + |v|;
    assert s[i..n][..|u|] == u && s[i..n][|u|..] == v;
    assert s[i..n][..|u|] == s[i..i+|u|] && s[i..n][|u|..] == s[i+|u|..n];
  }

  lemma AtChar(s: string, i: nat, c: char, v: string)
    requires At(s, i, [c] + v)
    ensures i < |s| && s[i] == c && At(s, i + 1, v)
  {
    AtSplit(s, i, [c], v);
    assert s[i..i+1][0] == c;
  }

  /** After the blanks at j comes one of toks, or the end. */
  ghost predicate Follow(s: string, j: nat, toks: string) {
    j <= |s| && var k := Skip(s, j); k < |s| ==> s[k] in toks
  }

  lemma ReadSymbol(s: string, i: nat)
    requires i < |s| && IsSymbol(s[i]) && (s[i] == '>' && i + 1 < |s| ==> s[i+1] != '>')
    ensures Skip(s, i) == i && TokenAt(s, i) == Token(Symbol(s[i]), i, i + 1, Skip(s, i + 1))
  {
  }

  lemma {:induction false} RunEnd(s: string, i: nat, j: nat)
    requires i <= j <= |s| && (forall k :: i <= k < j ==> IsWord(s[k])) && (j < |s| ==> !IsWord(s[j]))
    ensures WordEnd(s, i) == j
    decreases j - i
  {
    if i < j { RunEnd(s, i + 1, j); }
  }

  lemma ReadWord(s: string, i: nat, w: string)
    requires At(s, i, w) && WordOk(w) && (i + |w| < |s| ==> !IsWord(s[i + |w|]))
    ensures Skip(s, i) == i && TokenAt(s, i) == Token(Word, i, i + |w|, Skip(s, i + |w|))
    ensures Text(s, Tok(i, i + |w|)) == w && i < |s| && IsWord(s[i])
  {
    forall k | i <= k < i + |w| ensures IsWord(s[k]) { assert s[k] == s[i..i+|w|][k-i]; }
    WordRun(s, i);
    RunEnd(s, i, i + |w|);
  }

  /** The parsing functions look at a position only through the blanks. */
  lemma BlanksRedirs(s: string, i: nat, j: nat)
    requires i <= |s| && j <= |s| && Skip(s, i) == Skip(s, j)
    ensures RedirsAt(s, i) == RedirsAt(s, j)
  {
    assert TokenAt(s, i) == TokenAt(s, j);
    hide TokenAt, Skip;
  }

  lemma BlanksArgs(s: string, i: nat, j: nat, argc: nat)
    requires i <= |s| && j <= |s| && Skip(s, i) == Skip(s, j)
    ensures ArgsAt(s, i, argc) == ArgsAt(s, j, argc)
  {
    assert TokenAt(s, i) == TokenAt(s, j);
    hide TokenAt, Skip, RedirsAt;
  }

  lemma BlanksExec(s: string, i: nat, j: nat)
    requires i <= |s| && j <= |s| && Skip(s, i) == Skip(s, j)
    ensures ExecAt(s, i) == ExecAt(s, j)
  {
    BlanksRedirs(s, i, j);
    BlanksArgs(s, i, j, 0);
    assert TokenAt(s, i) == TokenAt(s, j);
    hide LineAt, RedirsAt, ArgsAt, TokenAt, Skip;
    if Sees(s, i, "(") {
      assert BlockAt(s, i) == BlockAt(s, j);
    } else {
      assert SimpleAt(s, i) == SimpleAt(s, j);
    }
  }

  lemma BlanksLine(s: string, i: nat, j: nat)
    requires i <= |s| && j <= |s| && Skip(s, i) == Skip(s, j)
    ensures PipeAt(s, i) == PipeAt(s, j) && LineAt(s, i) == LineAt(s, j)
  {
    BlanksExec(s, i, j);
    hide ExecAt, TokenAt, TailAt, Skip;
    assert PipeAt(s, i) == PipeAt(s, j);
    hide PipeAt;
  }

  lemma BlanksTail(s: string, c: Cmd<Tok>, i: nat, j: nat)
    requires i <= |s| && j <= |s| && Skip(s, i) == Skip(s, j)
    ensures TailAt(s, c, i) == TailAt(s, c, j)
  {
    assert TokenAt(s, i) == TokenAt(s, j);
    hide TokenAt, Skip, LineAt;
  }

  // ----- redirections -----

  function NamedRedirs(s: string, rs: seq<Redirection<Tok>>): (r: seq<Redirection<string>>)
    ensures |r| == |rs|
  {
    if rs == [] then [] else [Redirection(Text(s, rs[0].file), rs[0].mode)] + NamedRedirs(s, rs[1..])
  }

  lemma {:induction false} NamedWrap(s: string, c: Cmd<Tok>, rs: seq<Redirection<Tok>>)
    ensures Named(s, Wrap(c, rs)) == Wrap(Named(s, c), NamedRedirs(s, rs))
    decreases |rs|
  {
    if rs != [] {
      var r := NamedRedirs(s, rs);
      assert r[1..] == NamedRedirs(s, rs[1..]);
      NamedWrap(s, Redir(c, rs[0].file, rs[0].mode), rs[1..]);
    }
  }

  lemma RedirTokens(s: string, i: nat, r: Redirection<string>)
    requires At(s, i, [Sign(r.mode)] + r.file) && WordOk(r.file)
    requires var j := i + 1 + |r.file|; j < |s| ==> !IsWord(s[j])
    ensures var j := i + 1 + |r.file|;
      && j <= |s| && Sees(s, i, "<>") && Text(s, Tok(i + 1, j)) == r.file
      && TokenAt(s, i) == Token(Symbol(Sign(r.mode)), i, i + 1, i + 1)
      && TokenAt(s, i + 1) == Token(Word, i + 1, j, Skip(s, j))
  {
    hide WordEnd, At, WordOk, TokenAt, Skip;
    AtChar(s, i, Sign(r.mode), r.file);
    ReadWord(s, i + 1, r.file);
    ReadSymbol(s, i);
  }

  /** One redirection, then whatever redirections follow. */
  lemma ReadRedir(s: string, i: nat, r: Redirection<string>)
    requires At(s, i, [Sign(r.mode)] + r.file) && WordOk(r.file)
    requires var j := i + 1 + |r.file|; j < |s| ==> !IsWord(s[j])
    ensures var j := i + 1 + |r.file|;
      j <= |s| && Text(s, Tok(i + 1, j)) == r.file &&
      var rest := RedirsAt(s, j); var here := RedirsAt(s, i);
      && (rest.Panic? ==> here == rest)
      && (rest.Ok? ==> here == Ok([Redirection(Tok(i + 1, j), r.mode)] + rest.value, rest.next))
  {
    hide Skip, WordEnd, KindAt, IsWord, IsSymbol, IsSpace, TokenAt, Sees, At, WordOk;
    RedirTokens(s, i, r);
    var j := i + 1 + |r.file|;
    SkipTwice(s, j);
    BlanksRedirs(s, j, Skip(s, j));
  }

  lemma RedirNext(s: string, j: nat, rs: seq<Redirection<string>>)
    requires At(s, j, PrintRedirs(rs)) && Follow(s, j + |PrintRedirs(rs)|, "|)&;")
    ensures j < |s| ==> !IsWord(s[j])
  {
    if rs != [] {
      var tail := rs[0].file + PrintRedirs(rs[1..]);
      assert PrintRedirs(rs) == [Sign(rs[0].mode)] + tail;
      AtChar(s, j, Sign(rs[0].mode), tail);
    }
  }

  lemma NoRedirs(s: string, i: nat)
    requires Follow(s, i, "|)&;")
    ensures RedirsAt(s, i) == Ok([], Skip(s, i))
  {
  }

  lemma {:induction false} ReadRedirs(s: string, i: nat, rs: seq<Redirection<string>>) returns (ts: seq<Redirection<Tok>>)
    requires At(s, i, PrintRedirs(rs)) && RedirsValid(rs)
    requires Follow(s, i + |PrintRedirs(rs)|, "|)&;")
    ensures NamedRedirs(s, ts) == rs && RedirsAt(s, i) == Ok(ts, Skip(s, i + |PrintRedirs(rs)|))
    decreases |rs|
  {
    hide RedirsAt, At, Follow, Skip, IsWord, WordOk;
    if rs == [] {
      ts := [];
      NoRedirs(s, i);
    } else {
      var r := rs[0];
      assert r in rs;
      var one := [Sign(r.mode)] + r.file;
      assert PrintRedirs(rs) == one + PrintRedirs(rs[1..]);
      AtSplit(s, i, one, PrintRedirs(rs[1..]));
      var j := i + |one|;
      RedirNext(s, j, rs[1..]);
      var rest := ReadRedirs(s, j, rs[1..]);
      ReadRedir(s, i, r);
      ts := [Redirection(Tok(i + 1, j), r.mode)] + rest;
      assert ts[1..] == rest;
      assert rs == [r] + rs[1..];
    }
  }

  // ----- arguments -----

  /** The text of a simple command. */
  function PrintSimple(argv: seq<string>, rs: seq<Redirection<string>>): (r: string) { PrintArgs(argv) + PrintRedirs(rs) }

  ghost predicate SimpleValid(argv: seq<string>, rs: seq<Redirection<string>>) {
    (forall w :: w in argv ==> WordOk(w)) && RedirsValid(rs)
  }

  lemma FollowStops(s: string, i: nat)
    requires Follow(s, i, "|)&;")
    ensures Sees(s, i, "|)&;") || TokenAt(s, i).kind.End?
  {
  }

  lemma PrintMore(argv: seq<string>, rs: seq<Redirection<string>>)
    requires argv != []
    ensures PrintSimple(argv, rs) == [' '] + (argv[0] + PrintSimple(argv[1..], rs))
  {
  }

  /** After the first word comes no word character, and a redirection only if it was the
      last word. */
  lemma AfterWord(s: string, j: nat, argv: seq<string>, rs: seq<Redirection<string>>)
    requires At(s, j, PrintSimple(argv, rs)) && SimpleValid(argv, rs)
    requires Follow(s, j + |PrintSimple(argv, rs)|, "|)&;")
    ensures j < |s| ==> !IsWord(s[j])
    ensures argv != [] ==> j < |s| && s[j] == ' ' && At(s, j + 1, argv[0] + PrintSimple(argv[1..], rs))
  {
    if argv == [] {
      assert PrintSimple(argv, rs) == PrintRedirs(rs);
      RedirNext(s, j, rs);
    } else {
      PrintMore(argv, rs);
      AtChar(s, j, ' ', argv[0] + PrintSimple(argv[1..], rs));
    }
  }

  lemma TailValid(argv: seq<string>, rs: seq<Redirection<string>>)
    requires argv != [] && SimpleValid(argv, rs)
    ensures WordOk(argv[0]) && SimpleValid(argv[1..], rs)
  {
    hide WordOk, RedirsValid;
    assert argv[0] in argv;
  }

  lemma FirstWord(s: string, i: nat, argv: seq<string>, rs: seq<Redirection<string>>)
    requires argv != [] && At(s, i, PrintSimple(argv, rs)) && SimpleValid(argv, rs)
    requires Follow(s, i + |PrintSimple(argv, rs)|, "|)&;")
    ensures var j := i + 1 + |argv[0]|;
      && j <= |s| && i < |s| && Skip(s, i) == i + 1 && i + 1 < |s| && IsWord(s[i+1])
      && TokenAt(s, i) == Token(Word, i + 1, j, Skip(s, j)) && Text(s, Tok(i + 1, j)) == argv[0]
      && At(s, j, PrintSimple(argv[1..], rs))
      && j + |PrintSimple(argv[1..], rs)| == i + |PrintSimple(argv, rs)|
  {
    hide PrintSimple, At, Follow, WordOk, TokenAt, Skip, WordEnd, SimpleValid, IsSpace, IsSymbol, IsWord;
    var w, more := argv[0], PrintSimple(argv[1..], rs);
    TailValid(argv, rs);
    var j := i + 1 + |w|;
    AfterWord(s, i, argv, rs);
    PrintMore(argv, rs);
    AtSplit(s, i + 1, w, more);
    AfterWord(s, j, argv[1..], rs);
    ReadWord(s, i + 1, w);
    SkipBlank(s, i);
  }

  lemma SkipBlank(s: string, i: nat)
    requires i < |s| && s[i] == ' '
    ensures Skip(s, i) == Skip(s, i + 1) && TokenAt(s, i) == TokenAt(s, i + 1)
  {
  }

  lemma NotSeen(s: string, i: nat)
    requires i <= |s| && Skip(s, i) < |s| && IsWord(s[Skip(s, i)])
    ensures !Sees(s, i, "<>") && !Sees(s, i, "|)&;") && !Sees(s, i, "(") && RedirsAt(s, i) == Ok([], Skip(s, i))
  {
  }

  lemma ArgsMore(s: string, i: nat, argc: nat, t: Tok, k: nat,
                 us: seq<Redirection<Tok>>, m: nat, ts': seq<Tok>, us': seq<Redirection<Tok>>, n: nat)
    requires i <= |s| && argc + 1 < MAXARGS && !Sees(s, i, "|)&;") && TokenAt(s, i) == Token(Word, t.q, t.eq, k)
    requires RedirsAt(s, k) == Ok(us, m) && ArgsAt(s, m, argc + 1) == Ok(Args(ts', us'), n)
    ensures ArgsAt(s, i, argc) == Ok(Args([t] + ts', us + us'), n)
  {
    hide Sees, TokenAt, RedirsAt;
  }

  /** Redirections only after the last argument, all of them there. */
  lemma {:induction false} ReadArgs(s: string, i: nat, argv: seq<string>, rs: seq<Redirection<string>>, argc: nat)
    returns (ts: seq<Tok>, us: seq<Redirection<Tok>>)
    requires At(s, i, PrintSimple(argv, rs)) && SimpleValid(argv, rs)
    requires argv != [] && argc + |argv| < MAXARGS
    requires Follow(s, i + |PrintSimple(argv, rs)|, "|)&;")
    ensures Texts(s, ts) == argv && NamedRedirs(s, us) == rs
    ensures ArgsAt(s, i, argc) == Ok(Args(ts, us), Skip(s, i + |PrintSimple(argv, rs)|))
    decreases |argv|
  {
    hide PrintSimple, At, Follow, WordOk, TokenAt, Skip, WordEnd, Sees, RedirsAt, ArgsAt, IsWord, SimpleValid,
      PrintRedirs, NamedRedirs, Texts, Text, RedirsValid;
    FirstWord(s, i, argv, rs);
    NotSeen(s, i);
    TailValid(argv, rs);
    var j, end := i + 1 + |argv[0]|, i + |PrintSimple(argv, rs)|;
    SkipTwice(s, j);
    BlanksRedirs(s, j, Skip(s, j));
    var t := Tok(i + 1, j);
    if |argv| == 1 {
      assert argv[1..] == [];
      SimpleEmpty(rs);
      us := ReadRedirs(s, j, rs);
      FollowStops(s, end);
      ArgsNone(s, end, argc + 1);
      SkipTwice(s, end);
      BlanksArgs(s, end, Skip(s, end), argc + 1);
      ArgsMore(s, i, argc, t, Skip(s, j), us, Skip(s, end), [], [], Skip(s, end));
      assert us + [] == us && [t] + [] == [t];
      ts := [t];
      TextsCons(s, t, [], argv);
    } else {
      FirstWord(s, j, argv[1..], rs);
      NotSeen(s, j);
      var ts';
      ts', us := ReadArgs(s, j, argv[1..], rs, argc + 1);
      BlanksArgs(s, j, Skip(s, j), argc + 1);
      ArgsMore(s, i, argc, t, Skip(s, j), [], Skip(s, j), ts', us, Skip(s, end));
      assert [] + us == us;
      ts := [t] + ts';
      TextsCons(s, t, ts', argv);
    }
  }

  lemma SimpleEmpty(rs: seq<Redirection<string>>)
    ensures PrintSimple([], rs) == PrintRedirs(rs)
    ensures SimpleValid([], rs) ==> RedirsValid(rs)
  {
  }

  lemma TextsCons(s: string, t: Tok, ts: seq<Tok>, argv: seq<string>)
    requires argv != [] && Text(s, t) == argv[0] && Texts(s, ts) == argv[1..]
    ensures Texts(s, [t] + ts) == argv
  {
    assert ([t] + ts)[1..] == ts;
  }

  lemma ReadSimple(s: string, i: nat, argv: seq<string>, rs: seq<Redirection<string>>) returns (t: Cmd<Tok>)
    requires At(s, i, PrintSimple(argv, rs)) && SimpleValid(argv, rs) && |argv| < MAXARGS
    requires Follow(s, i + |PrintSimple(argv, rs)|, "|)&;")
    ensures Named(s, t) == Wrap(Exec(argv), rs) && !Sees(s, i, "(")
    ensures SimpleAt(s, i) == Ok(t, Skip(s, i + |PrintSimple(argv, rs)|))
  {
    hide PrintSimple, At, Follow, WordOk, TokenAt, Skip, WordEnd, Sees, RedirsAt, ArgsAt, IsWord, Wrap;
    var end := i + |PrintSimple(argv, rs)|;
    var ts, us := [], [];
    if argv == [] {
      SimpleEmpty(rs);
      us := ReadRedirs(s, i, rs);
      FollowStops(s, end);
      ArgsNone(s, end, 0);
      SkipTwice(s, end);
      BlanksArgs(s, end, Skip(s, end), 0);
      NoParen(s, i, rs);
      assert us + [] == us;
    } else {
      FirstWord(s, i, argv, rs);
      NotSeen(s, i);
      ts, us := ReadArgs(s, i, argv, rs, 0);
      SkipTwice(s, i);
      BlanksArgs(s, i, Skip(s, i), 0);
      assert [] + us == us;
    }
    t := Wrap(Exec(ts), us);
    NamedWrap(s, Exec(ts), us);
  }

  lemma NoParen(s: string, i: nat, rs: seq<Redirection<string>>)
    requires At(s, i, PrintRedirs(rs)) && Follow(s, i + |PrintRedirs(rs)|, "|)&;")
    ensures !Sees(s, i, "(")
  {
    if rs != [] {
      assert PrintRedirs(rs) == [Sign(rs[0].mode)] + (rs[0].file + PrintRedirs(rs[1..]));
      AtChar(s, i, Sign(rs[0].mode), rs[0].file + PrintRedirs(rs[1..]));
    }
  }

  // ----- commands -----

  /** Text w, printed for some tree, stands at i and is followed by one of toks. */
  ghost predicate Placed(s: string, i: nat, w: string, toks: string) { At(s, i, w) && Follow(s, i + |w|, toks) }

  lemma PlacedBefore(s: string, i: nat, u: string, c: char, v: string, toks: string)
    requires Placed(s, i, u + [c] + v, toks) && IsSymbol(c)
    ensures i + |u| < |s| && s[i + |u|] == c
    ensures At(s, i, u) && Follow(s, i + |u|, [c])
    ensures Placed(s, i + |u| + 1, v, toks)
  {
    assert u + [c] + v == u + ([c] + v);
    AtSplit(s, i, u, [c] + v);
    AtChar(s, i + |u|, c, v);
  }

  lemma FollowMore(s: string, j: nat, toks: string, more: string)
    requires Follow(s, j, toks) && forall c :: c in toks ==> c in more
    ensures Follow(s, j, more)
  {
  }

  /** A symbol seen as such, and the position after it. */
  lemma ReadSign(s: string, i: nat, j: nat, c: char)
    requires j < |s| && s[j] == c && (c == '|' || c == '&' || c == ';' || c == '(' || c == ')')
    requires i <= |s| && Skip(s, i) == Skip(s, j)
    ensures Skip(s, j) == j && TokenAt(s, i).next == Skip(s, j + 1)
    ensures forall toks :: Sees(s, i, toks) <==> c in toks
  {
    ReadSymbol(s, j);
  }

  lemma SkipTwice(s: string, i: nat)
    requires i <= |s|
    ensures Skip(s, Skip(s, i)) == Skip(s, i)
  {
  }

  function Rank(level: Level, c: Cmd<string>): (n: nat) {
    if level >= Natural(c) then level - Natural(c) else level + 4 - Natural(c)
  }

  // What the parsing functions return, case by case.

  lemma PipeMore(s: string, i: nat, l: Cmd<Tok>, j: nat, r: Cmd<Tok>, n: nat)
    requires i <= |s| && ExecAt(s, i) == Ok(l, j) && Sees(s, j, "|") && PipeAt(s, TokenAt(s, j).next) == Ok(r, n)
    ensures PipeAt(s, i) == Ok(Pipe(l, r), n)
  {
    hide ExecAt, Sees, TokenAt;
  }

  lemma PipeOne(s: string, i: nat, l: Cmd<Tok>, j: nat)
    requires i <= |s| && ExecAt(s, i) == Ok(l, j) && !Sees(s, j, "|")
    ensures PipeAt(s, i) == Ok(l, Skip(s, j))
  {
    hide ExecAt, Sees, TokenAt;
  }

  lemma LineMore(s: string, i: nat, l: Cmd<Tok>, r: Cmd<Tok>, j: nat, n: nat)
    requires i <= |s| && j <= |s| && LineAt(s, i) == TailAt(s, l, j)
    requires !Sees(s, j, "&") && Sees(s, j, ";") && LineAt(s, TokenAt(s, j).next) == Ok(r, n)
    ensures LineAt(s, i) == Ok(List(l, r), n)
  {
    hide LineAt, Sees, TokenAt;
  }

  lemma LineOne(s: string, i: nat, l: Cmd<Tok>, j: nat)
    requires i <= |s| && j <= |s| && LineAt(s, i) == TailAt(s, l, j) && !Sees(s, j, "&") && !Sees(s, j, ";")
    ensures LineAt(s, i) == Ok(l, Skip(s, j))
  {
    hide LineAt, Sees, TokenAt;
  }

  lemma LineFirst(s: string, i: nat, l: Cmd<Tok>, j: nat)
    requires i <= |s| && PipeAt(s, i) == Ok(l, j)
    ensures LineAt(s, i) == TailAt(s, l, j)
  {
    hide PipeAt, TailAt;
  }

  lemma LineBack(s: string, i: nat, l: Cmd<Tok>, j: nat)
    requires i <= |s| && j <= |s| && LineAt(s, i) == TailAt(s, l, j) && Sees(s, j, "&")
    ensures LineAt(s, i) == TailAt(s, Back(l), TokenAt(s, j).next)
  {
    hide LineAt, Sees, TokenAt;
  }

  lemma BlockDone(s: string, i: nat, u: Cmd<Tok>, k: nat, us: seq<Redirection<Tok>>, n: nat)
    requires i <= |s| && Sees(s, i, "(") && LineAt(s, TokenAt(s, i).next) == Ok(u, k)
    requires Sees(s, k, ")") && RedirsAt(s, TokenAt(s, k).next) == Ok(us, n)
    ensures ExecAt(s, i) == Ok(Wrap(u, us), n)
  {
    hide LineAt, Sees, TokenAt, RedirsAt;
  }

  lemma {:induction false} ReadExec(s: string, i: nat, c: Cmd<string>) returns (t: Cmd<Tok>)
    requires Valid(c) && Placed(s, i, Print(c, 0), "|)&;")
    ensures Named(s, t) == c && ExecAt(s, i) == Ok(t, Skip(s, i + |Print(c, 0)|))
    decreases Size(c), Rank(0, c)
  {
    hide Print, Body, Valid, At, Follow, Skip, TokenAt, Sees, RedirsAt, ArgsAt, LineAt, SimpleAt, BlockAt, Wrap;
    Peel(c);
    var d, rs := Core(c), Redirs(c);
    if d.Exec? {
      assert PrintSimple(d.argv, rs) == Print(c, 0) && SimpleValid(d.argv, rs) && |d.argv| < MAXARGS by { ExecText(c); }
      t := ReadSimple(s, i, d.argv, rs);
    } else {
      t := ReadBlock(s, i, c);
    }
  }

  lemma ExecText(c: Cmd<string>)
    requires Valid(Core(c)) && RedirsValid(Redirs(c)) && Core(c).Exec?
    requires Print(c, 0) == Print(Core(c), 0) + PrintRedirs(Redirs(c))
    ensures PrintSimple(Core(c).argv, Redirs(c)) == Print(c, 0)
    ensures SimpleValid(Core(c).argv, Redirs(c)) && |Core(c).argv| < MAXARGS
  {
    hide WordOk, RedirsValid;
  }

  lemma BlockText(d: Cmd<string>, w: string)
    requires !d.Exec? && !d.Redir?
    ensures Print(d, 0) + w == [] + ['('] + (Print(d, 3) + [')'] + w)
  {
  }

  /** Where the parts of a block stand. */
  lemma BlockPlaces(s: string, i: nat, d: Cmd<string>, w: string)
    requires !d.Exec? && !d.Redir? && Placed(s, i, Print(d, 0) + w, "|)&;")
    ensures var k := i + 1 + |Print(d, 3)|;
      && k < |s| && At(s, i + 1, Print(d, 3)) && Follow(s, k, ")") && Placed(s, k + 1, w, "|)&;")
      && i + |Print(d, 0) + w| == k + 1 + |w|
      && Sees(s, i, "(") && TokenAt(s, i).next == Skip(s, i + 1)
      && Sees(s, Skip(s, k), ")") && TokenAt(s, Skip(s, k)).next == Skip(s, k + 1)
  {
    hide Print, Body, At, Follow, Skip, TokenAt, Sees;
    BlockText(d, w);
    PlacedBefore(s, i, [], '(', Print(d, 3) + [')'] + w, "|)&;");
    ReadSign(s, i, i, '(');
    PlacedBefore(s, i + 1, Print(d, 3), ')', w, "|)&;");
    var k := i + 1 + |Print(d, 3)|;
    SkipTwice(s, k);
    ReadSign(s, Skip(s, k), k, ')');
  }

  lemma {:induction false} ReadBlock(s: string, i: nat, c: Cmd<string>) returns (t: Cmd<Tok>)
    requires Valid(c) && Placed(s, i, Print(c, 0), "|)&;") && !Core(c).Exec?
    ensures Named(s, t) == c && ExecAt(s, i) == Ok(t, Skip(s, i + |Print(c, 0)|))
    decreases Size(Core(c)), Rank(0, Core(c)), 0
  {
    hide Print, Body, Valid, At, Follow, Skip, TokenAt, Sees, RedirsAt, LineAt, ExecAt, Wrap, Named,
      PrintRedirs, NamedRedirs, Size, Core, Redirs, RedirsValid;
    Peel(c);
    var d, w := Core(c), PrintRedirs(Redirs(c));
    BlockPlaces(s, i, d, w);
    var k := i + 1 + |Print(d, 3)|;
    var u := ReadLine(s, i + 1, d);
    SkipTwice(s, i + 1);
    BlanksLine(s, i + 1, Skip(s, i + 1));
    var us := ReadRedirs(s, k + 1, Redirs(c));
    SkipTwice(s, k + 1);
    BlanksRedirs(s, k + 1, Skip(s, k + 1));
    t := Wrap(u, us);
    NamedWrap(s, u, us);
    BlockDone(s, i, u, Skip(s, k), us, Skip(s, k + 1 + |w|));
  }

  lemma {:induction false} ReadPipe(s: string, i: nat, c: Cmd<string>) returns (t: Cmd<Tok>)
    requires Valid(c) && Placed(s, i, Print(c, 1), ")&;")
    ensures Named(s, t) == c && PipeAt(s, i) == Ok(t, Skip(s, i + |Print(c, 1)|))
    decreases Size(c), Rank(1, c)
  {
    hide Print, Body, At, Follow, Skip, TokenAt, Sees, ExecAt, PipeAt;
    if c.Pipe? {
      var u, v := Print(c.left, 0), Print(c.right, 1);
      assert Print(c, 1) == u + ['|'] + v by { PipeText(c); }
      PlacedBefore(s, i, u, '|', v, ")&;");
      FollowMore(s, i + |u|, "|", "|)&;");
      var l := ReadExec(s, i, c.left);
      var r := ReadPipe(s, i + |u| + 1, c.right);
      SkipTwice(s, i + |u|);
      ReadSign(s, Skip(s, i + |u|), i + |u|, '|');
      SkipTwice(s, i + |u| + 1);
      BlanksLine(s, i + |u| + 1, Skip(s, i + |u| + 1));
      t := Pipe(l, r);
      PipeMore(s, i, l, Skip(s, i + |u|), r, Skip(s, i + |u| + 1 + |v|));
    } else {
      var end := i + |Print(c, 1)|;
      assert Print(c, 1) == Print(c, 0) by { LowerText(c); }
      FollowMore(s, end, ")&;", "|)&;");
      t := ReadExec(s, i, c);
      SkipTwice(s, end);
      NotIn(s, end, ")&;", "|");
      PipeOne(s, i, t, Skip(s, end));
    }
  }

  lemma PipeText(c: Cmd<string>)
    ensures c.Pipe? ==> Print(c, 1) == Print(c.left, 0) + ['|'] + Print(c.right, 1)
    ensures c.Back? ==> Print(c, 2) == Print(c.cmd, 2) + ['&'] + []
    ensures c.List? ==> Print(c, 3) == Print(c.left, 2) + [';'] + Print(c.right, 3)
  {
  }

  lemma LowerText(c: Cmd<string>)
    ensures !c.Pipe? ==> Print(c, 1) == Print(c, 0)
    ensures !c.Back? ==> Print(c, 2) == Print(c, 1)
    ensures !c.List? ==> Print(c, 3) == Print(c, 2)
  {
  }

  lemma NotIn(s: string, j: nat, toks: string, others: string)
    requires Follow(s, j, toks) && forall c :: c in toks ==> c !in others
    ensures !Sees(s, Skip(s, j), others) && !Sees(s, j, others)
  {
    SkipTwice(s, j);
  }

  /** The `&`s of a line are read from left to right. */
  lemma {:induction false} ReadBack(s: string, i: nat, c: Cmd<string>) returns (t: Cmd<Tok>)
    requires Valid(c) && Placed(s, i, Print(c, 2), ")&;")
    ensures Named(s, t) == c && LineAt(s, i) == TailAt(s, t, i + |Print(c, 2)|)
    decreases Size(c), Rank(2, c)
  {
    hide Print, Body, At, Follow, Skip, TokenAt, Sees, PipeAt, LineAt, TailAt;
    if c.Back? {
      var u := Print(c.cmd, 2);
      var j := i + |u|;
      PipeText(c);
      PlacedBefore(s, i, u, '&', [], ")&;");
      FollowMore(s, j, "&", ")&;");
      var b := ReadBack(s, i, c.cmd);
      ReadSign(s, j, j, '&');
      t := Back(b);
      LineBack(s, i, b, j);
      SkipTwice(s, j + 1);
      BlanksTail(s, t, j + 1, Skip(s, j + 1));
    } else {
      LowerText(c);
      t := ReadPipe(s, i, c);
      var j := i + |Print(c, 1)|;
      SkipTwice(s, j);
      BlanksTail(s, t, j, Skip(s, j));
      LineFirst(s, i, t, Skip(s, j));
    }
  }

  lemma {:induction false} ReadLine(s: string, i: nat, c: Cmd<string>) returns (t: Cmd<Tok>)
    requires Valid(c) && At(s, i, Print(c, 3)) && Follow(s, i + |Print(c, 3)|, ")")
    ensures Named(s, t) == c && LineAt(s, i) == Ok(t, Skip(s, i + |Print(c, 3)|))
    decreases Size(c), Rank(3, c)
  {
    hide Print, Body, At, Follow, Skip, TokenAt, Sees, PipeAt, LineAt, TailAt;
    if c.List? {
      var u, v := Print(c.left, 2), Print(c.right, 3);
      var j := i + |u|;
      PipeText(c);
      PlacedBefore(s, i, u, ';', v, ")");
      FollowMore(s, j, ";", ")&;");
      var l := ReadBack(s, i, c.left);
      var r := ReadLine(s, j + 1, c.right);
      ReadSign(s, j, j, ';');
      SkipTwice(s, j + 1);
      BlanksLine(s, j + 1, Skip(s, j + 1));
      t := List(l, r);
      LineMore(s, i, l, r, j, Skip(s, j + 1 + |v|));
    } else {
      LowerText(c);
      var j := i + |Print(c, 2)|;
      FollowMore(s, j, ")", ")&;");
      t := ReadBack(s, i, c);
      NotIn(s, j, ")", "&");
      NotIn(s, j, ")", ";");
      LineOne(s, i, t, j);
    }
  }

  // ----- the round trips -----

  /** Printing and parsing: every tree the shell can hold is read back from its text. */
  lemma PrintParse(c: Cmd<string>)
    requires Valid(c)
    ensures var s := Print(c, 3); CmdOf(s).Ok? && Named(s, CmdOf(s).value) == c
  {
    hide Print, LineAt, Skip;
    var s := Print(c, 3);
    assert s[0..0 + |s|] == s;
    var t := ReadLine(s, 0, c);
  }

  lemma {:induction false} NamedValid(s: string, c: Cmd<Tok>)
    requires TreeOk(s, c)
    ensures Valid(Named(s, c))
  {
    match c
    case Exec(argv) =>
      forall w | w in Texts(s, argv) ensures WordOk(w) {
        var k :| 0 <= k < |argv| && Texts(s, argv)[k] == w;
        assert argv[k] in argv;
      }
    case Redir(cmd, file, mode) => NamedValid(s, cmd);
    case Pipe(l, r) => NamedValid(s, l); NamedValid(s, r);
    case List(l, r) => NamedValid(s, l); NamedValid(s, r);
    case Back(cmd) => NamedValid(s, cmd);
  }

  /** Parsing and printing: every accepted line has the same tree as the text printed for
      that tree. */
  lemma ParsePrint(s: string)
    requires CmdOf(s).Ok?
    ensures var c := Named(s, CmdOf(s).value);
      var s' := Print(c, 3); CmdOf(s').Ok? && Named(s', CmdOf(s').value) == c
  {
    hide CmdOf, TreeOk, Print, Named;
    ParsedOk(s);
    NamedValid(s, CmdOf(s).value);
    PrintParse(Named(s, CmdOf(s).value));
  }
}
