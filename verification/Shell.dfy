/** The shell's parser as it runs (sh.c:262-493): the scanning and parsing loops, each
    proved to compute its function of ShellGrammar, and nulterminate, which ends every
    word in place. */
module Shell {
  import opened ShellGrammar

  // ----- scanning -----

  /** peek: whether the next character after blanks is one of toks, and where it is. */
  method Peek(s: string, i: nat, toks: string) returns (found: bool, j: nat)
    requires i <= |s|
    ensures j == Skip(s, i) && (found <==> Sees(s, i, toks))
  {
    j := i;
    while j < |s| && IsSpace(s[j])
      invariant i <= j <= |s| && Skip(s, j) == Skip(s, i)
    {
      j := j + 1;
    }
    found := j < |s| && s[j] in toks;
  }

  method GetToken(s: string, i: nat) returns (t: Token)
    requires i <= |s|
    ensures t == TokenAt(s, i)
  {
    var q := i;
    while q < |s| && IsSpace(s[q])
      invariant i <= q <= |s| && Skip(s, q) == Skip(s, i)
    {
      q := q + 1;
    }
    var kind, e := End, q;
    if q < |s| {
      if s[q] == '>' {
        kind, e := Symbol('>'), e + 1;
        if e < |s| && s[e] == '>' { kind, e := Append, e + 1; }
      } else if IsSymbol(s[q]) {
        kind, e := Symbol(s[q]), e + 1;
      } else {
        kind := Word;
        while e < |s| && !IsSpace(s[e]) && !IsSymbol(s[e])
          invariant q <= e <= |s| && WordEnd(s, e) == WordEnd(s, q)
        {
          e := e + 1;
        }
      }
    }
    var n := e;
    while n < |s| && IsSpace(s[n])
      invariant e <= n <= |s| && Skip(s, n) == Skip(s, e)
    {
      n := n + 1;
    }
    t := Token(kind, q, e, n);
  }

  // ----- parsing -----

  /** cmd with the redirections of rs around it. */
  function Redirected(c: Cmd<Tok>, rs: Result<seq<Redirection<Tok>>>): (r: Result<Cmd<Tok>>) {
    if rs.Panic? then Panic(rs.why) else Ok(Wrap(c, rs.value), rs.next)
  }

  lemma RedirectedMore(s: string, c: Cmd<Tok>, i: nat)
    requires i <= |s| && Sees(s, i, "<>") && TokenAt(s, TokenAt(s, i).next).kind.Word?
    ensures var op := TokenAt(s, i); var name := TokenAt(s, op.next);
      Redirected(c, RedirsAt(s, i)) ==
      Redirected(Redir(c, Tok(name.q, name.eq), if op.kind == Symbol('<') then Input else Output), RedirsAt(s, name.next))
  {
    var op := TokenAt(s, i);
    var name := TokenAt(s, op.next);
    hide TokenAt, Sees;
    var rest := RedirsAt(s, name.next);
    if rest.Ok? {
      var r := Redirection(Tok(name.q, name.eq), if op.kind == Symbol('<') then Input else Output);
      assert ([r] + rest.value)[1..] == rest.value;
    }
  }

  method ParseRedirs(s: string, i: nat, cmd: Cmd<Tok>) returns (r: Result<Cmd<Tok>>)
    requires i <= |s|
    ensures r == Redirected(cmd, RedirsAt(s, i))
  {
    var c, j := cmd, i;
    while true
      invariant j <= |s| && Redirected(c, RedirsAt(s, j)) == Redirected(cmd, RedirsAt(s, i))
      decreases |s| - j
    {
      var more, k := Peek(s, j, "<>");
      if !more { return Ok(c, k); }
      var op := GetToken(s, j);
      var name := GetToken(s, op.next);
      if !name.kind.Word? { return Panic(MissingFile); }
      RedirectedMore(s, c, j);
      c := Redir(c, Tok(name.q, name.eq), if op.kind == Symbol('<') then Input else Output);
      j := name.next;
    }
  }

  /** Stores one more argument in the execcmd inside the redirections of c. */
  function AddArg(c: Cmd<Tok>, t: Tok): (r: Cmd<Tok>) {
    match c
    case Redir(cmd, file, mode) => Redir(AddArg(cmd, t), file, mode)
    case Exec(argv) => Exec(argv + [t])
    case _ => c
  }

  lemma {:induction false} AddArgWrap(rs: seq<Redirection<Tok>>, t: Tok, c: Cmd<Tok>)
    requires Inner(c)
    ensures AddArg(Wrap(c, rs), t) == Wrap(AddArg(c, t), rs)
    decreases |rs|
  {
    if rs != [] { AddArgWrap(rs[1..], t, Redir(c, rs[0].file, rs[0].mode)); }
  }

  predicate Inner(c: Cmd<Tok>) { c.Exec? || (c.Redir? && Inner(c.cmd)) }

  lemma {:induction false} WrapWrap(c: Cmd<Tok>, rs: seq<Redirection<Tok>>, rs': seq<Redirection<Tok>>)
    ensures Wrap(Wrap(c, rs), rs') == Wrap(c, rs + rs')
    decreases |rs|
  {
    if rs == [] {
      assert [] + rs' == rs';
    } else {
      assert (rs + rs')[1..] == rs[1..] + rs';
      WrapWrap(Redir(c, rs[0].file, rs[0].mode), rs[1..], rs');
    }
  }

  /** A simple command read up to some point: argv and redirections so far, then the rest. */
  function Continued(argv: seq<Tok>, rs: seq<Redirection<Tok>>, a: Result<Args<Tok>>): (r: Result<Cmd<Tok>>) {
    if a.Panic? then Panic(a.why) else Ok(Wrap(Exec(argv + a.value.argv), rs + a.value.redirs), a.next)
  }

  lemma ArgsStep(s: string, i: nat, argc: nat)
    requires i <= |s| && !Sees(s, i, "|)&;") && TokenAt(s, i).kind.Word? && argc + 1 < MAXARGS
    requires RedirsAt(s, TokenAt(s, i).next).Ok?
    ensures var t := TokenAt(s, i); var more := RedirsAt(s, t.next); var rest := ArgsAt(s, more.next, argc + 1);
      ArgsAt(s, i, argc) == if rest.Panic? then rest else
        Ok(Args([Tok(t.q, t.eq)] + rest.value.argv, more.value + rest.value.redirs), rest.next)
  {
    hide TokenAt, Sees, RedirsAt;
  }

  lemma ContinuedMore(s: string, argv: seq<Tok>, rs: seq<Redirection<Tok>>, i: nat)
    requires i <= |s| && !Sees(s, i, "|)&;") && TokenAt(s, i).kind.Word? && |argv| + 1 < MAXARGS
    requires RedirsAt(s, TokenAt(s, i).next).Ok?
    ensures var t := TokenAt(s, i); var more := RedirsAt(s, t.next);
      Continued(argv, rs, ArgsAt(s, i, |argv|)) ==
      Continued(argv + [Tok(t.q, t.eq)], rs + more.value, ArgsAt(s, more.next, |argv| + 1))
  {
    hide TokenAt, Sees, RedirsAt, ArgsAt, Wrap;
    ArgsStep(s, i, |argv|);
    var t := TokenAt(s, i);
    var more := RedirsAt(s, t.next);
    var rest := ArgsAt(s, more.next, |argv| + 1);
    if rest.Ok? {
      assert argv + ([Tok(t.q, t.eq)] + rest.value.argv) == argv + [Tok(t.q, t.eq)] + rest.value.argv;
      assert rs + (more.value + rest.value.redirs) == rs + more.value + rest.value.redirs;
    }
  }

  lemma ContinuedDone(argv: seq<Tok>, rs: seq<Redirection<Tok>>, j: nat)
    ensures Continued(argv, rs, Ok(Args([], []), j)) == Ok(Wrap(Exec(argv), rs), j)
  {
    assert argv + [] == argv && rs + [] == rs;
  }

  /** parseexec without the block case. */
  method ParseSimple(s: string, i: nat) returns (r: Result<Cmd<Tok>>)
    requires i <= |s|
    ensures r == SimpleAt(s, i)
  {
    hide RedirsAt, ArgsAt, Wrap, TokenAt, Sees;
    r := ParseRedirs(s, i, Exec([]));
    if r.Panic? { return; }
    var ret, j, argc := r.value, r.next, 0;
    ghost var argv: seq<Tok>, rs := [], RedirsAt(s, i).value;
    assert SimpleAt(s, i) == Continued(argv, rs, ArgsAt(s, j, 0)) by { SimpleContinued(s, i); }
    while true
      invariant j <= |s| && argc == |argv| < MAXARGS && ret == Wrap(Exec(argv), rs)
      invariant SimpleAt(s, i) == Continued(argv, rs, ArgsAt(s, j, argc))
      decreases |s| - j
    {
      var stop, k := Peek(s, j, "|)&;");
      if stop {
        ArgsNone(s, j, argc);
        ContinuedDone(argv, rs, k);
        return Ok(ret, k);
      }
      var tok := GetToken(s, j);
      ArgsFail(s, j, argc);
      if tok.kind.End? {
        ContinuedDone(argv, rs, tok.next);
        return Ok(ret, tok.next);
      }
      if !tok.kind.Word? { return Panic(Syntax); }
      if argc + 1 >= MAXARGS { return Panic(TooManyArgs); }
      var t := Tok(tok.q, tok.eq);
      AddArgWrap(rs, t, Exec(argv));
      ret := AddArg(ret, t);
      argc := argc + 1;
      r := ParseRedirs(s, tok.next, ret);
      if r.Panic? { return; }
      ContinuedMore(s, argv, rs, j);
      ghost var more := RedirsAt(s, tok.next);
      WrapWrap(Exec(argv + [t]), rs, more.value);
      argv, rs := argv + [t], rs + more.value;
      ret, j := r.value, r.next;
    }
  }

  lemma SimpleContinued(s: string, i: nat)
    requires i <= |s| && RedirsAt(s, i).Ok?
    ensures SimpleAt(s, i) == Continued([], RedirsAt(s, i).value, ArgsAt(s, RedirsAt(s, i).next, 0))
  {
    hide RedirsAt, ArgsAt, Wrap;
    var a := ArgsAt(s, RedirsAt(s, i).next, 0);
    if a.Ok? { assert [] + a.value.argv == a.value.argv; }
  }

  lemma ArgsFail(s: string, i: nat, argc: nat)
    requires i <= |s| && !Sees(s, i, "|)&;")
    ensures var t, a := TokenAt(s, i), ArgsAt(s, i, argc);
      && (t.kind.End? ==> a == Ok(Args([], []), t.next))
      && (!t.kind.End? && !t.kind.Word? ==> a == Panic(Syntax))
      && (t.kind.Word? && argc + 1 >= MAXARGS ==> a == Panic(TooManyArgs))
      && (t.kind.Word? && argc + 1 < MAXARGS && RedirsAt(s, t.next).Panic? ==> a == Panic(RedirsAt(s, t.next).why))
  {
    hide Sees, TokenAt, RedirsAt;
  }

  method ParseBlock(s: string, i: nat) returns (r: Result<Cmd<Tok>>)
    requires i <= |s| && Sees(s, i, "(")
    ensures r == BlockAt(s, i)
    decreases |s| - i, 0
  {
    hide RedirsAt, Wrap, LineAt;
    var open := GetToken(s, i);
    r := ParseLine(s, open.next);
    if r.Panic? { return; }
    var ok, k := Peek(s, r.next, ")");
    if !ok { return Panic(MissingParen); }
    var close := GetToken(s, r.next);
    r := ParseRedirs(s, close.next, r.value);
  }

  method ParseExec(s: string, i: nat) returns (r: Result<Cmd<Tok>>)
    requires i <= |s|
    ensures r == ExecAt(s, i)
    decreases |s| - i, 1
  {
    hide BlockAt, SimpleAt;
    var block, k := Peek(s, i, "(");
    if block { r := ParseBlock(s, i); } else { r := ParseSimple(s, i); }
  }

  method ParsePipe(s: string, i: nat) returns (r: Result<Cmd<Tok>>)
    requires i <= |s|
    ensures r == PipeAt(s, i)
    decreases |s| - i, 2
  {
    hide ExecAt;
    r := ParseExec(s, i);
    if r.Panic? { return; }
    var more, k := Peek(s, r.next, "|");
    if !more { return Ok(r.value, k); }
    var bar := GetToken(s, r.next);
    var right := ParsePipe(s, bar.next);
    if right.Panic? { return right; }
    return Ok(Pipe(r.value, right.value), right.next);
  }

  method ParseLine(s: string, i: nat) returns (r: Result<Cmd<Tok>>)
    requires i <= |s|
    ensures r == LineAt(s, i)
    decreases |s| - i, 3
  {
    hide PipeAt;
    r := ParsePipe(s, i);
    if r.Panic? { return; }
    var cmd, j := r.value, r.next;
    while true
      invariant i <= j <= |s| && LineAt(s, i) == TailAt(s, cmd, j)
      decreases |s| - j
    {
      var back, k := Peek(s, j, "&");
      if !back { break; }
      var amp := GetToken(s, j);
      cmd, j := Back(cmd), amp.next;
    }
    var more, k := Peek(s, j, ";");
    if !more { return Ok(cmd, k); }
    var semi := GetToken(s, j);
    var rest := ParseLine(s, semi.next);
    if rest.Panic? { return rest; }
    return Ok(List(cmd, rest.value), rest.next);
  }

  /** parsecmd before nulterminate. */
  method ParseTree(s: string) returns (r: Result<Cmd<Tok>>)
    ensures r == CmdOf(s)
  {
    hide LineAt;
    r := ParseLine(s, 0);
    if r.Panic? { return; }
    var any, j := Peek(s, r.next, "");
    if j != |s| { return Panic(Leftovers); }
    return Ok(r.value, |s|);
  }

  // ----- nulterminate -----

  function Toks(c: Cmd<Tok>): (ts: seq<Tok>) {
    match c
    case Exec(argv) => argv
    case Redir(cmd, file, _) => Toks(cmd) + [file]
    case Pipe(l, r) => Toks(l) + Toks(r)
    case List(l, r) => Toks(l) + Toks(r)
    case Back(cmd) => Toks(cmd)
  }

  ghost predicate Ends(ts: seq<Tok>, k: int) { exists i :: 0 <= i < |ts| && ts[i].eq == k }

  ghost predicate InBuffer(ts: seq<Tok>, n: nat) { forall i :: 0 <= i < |ts| ==> ts[i].eq < n }

  /** b with a NUL at the end of each word of ts, and nothing else changed. */
  ghost predicate Terminated(b: seq<char>, b': seq<char>, ts: seq<Tok>) {
    |b'| == |b| && forall k :: 0 <= k < |b| ==> b'[k] == if Ends(ts, k) then '\0' else b[k]
  }

  lemma TerminatedJoin(b: seq<char>, b': seq<char>, b'': seq<char>, ts: seq<Tok>, us: seq<Tok>)
    requires Terminated(b, b', ts) && Terminated(b', b'', us)
    ensures Terminated(b, b'', ts + us)
  {
    forall k | 0 <= k < |b| ensures Ends(ts + us, k) <==> Ends(ts, k) || Ends(us, k) {
      var all := ts + us;
      if Ends(ts, k) { var i :| 0 <= i < |ts| && ts[i].eq == k; assert all[i].eq == k; }
      if Ends(us, k) { var i :| 0 <= i < |us| && us[i].eq == k; assert all[|ts| + i].eq == k; }
    }
  }

  lemma TerminatedOne(b: seq<char>, t: Tok)
    requires t.eq < |b|
    ensures Terminated(b, b[t.eq := '\0'], [t])
  {
    assert [t][0].eq == t.eq;
  }

  lemma InBufferSplit(ts: seq<Tok>, us: seq<Tok>, n: nat)
    requires InBuffer(ts + us, n)
    ensures InBuffer(ts, n) && InBuffer(us, n)
  {
    var all := ts + us;
    forall i | 0 <= i < |ts| ensures ts[i].eq < n { assert all[i] == ts[i]; }
    forall i | 0 <= i < |us| ensures us[i].eq < n { assert all[|ts| + i] == us[i]; }
  }

  method TerminateArgs(buf: array<char>, argv: seq<Tok>)
    requires InBuffer(argv, buf.Length)
    modifies buf
    ensures Terminated(old(buf[..]), buf[..], argv)
  {
    var i := 0;
    while i < |argv|
      invariant i <= |argv| && Terminated(old(buf[..]), buf[..], argv[..i])
    {
      ghost var b := buf[..];
      buf[argv[i].eq] := '\0';
      TerminatedOne(b, argv[i]);
      assert buf[..] == b[argv[i].eq := '\0'];
      TerminatedJoin(old(buf[..]), b, buf[..], argv[..i], [argv[i]]);
      assert argv[..i] + [argv[i]] == argv[..i+1];
      i := i + 1;
    }
    assert argv[..i] == argv;
  }

  method NulTerminate(buf: array<char>, c: Cmd<Tok>)
    requires InBuffer(Toks(c), buf.Length)
    modifies buf
    ensures Terminated(old(buf[..]), buf[..], Toks(c))
    decreases c
  {
    hide Terminated, InBuffer;
    match c
    case Exec(argv) =>
      TerminateArgs(buf, argv);
    case Redir(cmd, file, _) =>
      InBufferSplit(Toks(cmd), [file], buf.Length);
      NulTerminate(buf, cmd);
      ghost var b := buf[..];
      assert file.eq < buf.Length by { InOne(file, buf.Length); }
      buf[file.eq] := '\0';
      TerminatedOne(b, file);
      assert buf[..] == b[file.eq := '\0'];
      TerminatedJoin(old(buf[..]), b, buf[..], Toks(cmd), [file]);
    case Pipe(l, r) =>
      InBufferSplit(Toks(l), Toks(r), buf.Length);
      NulTerminate(buf, l);
      ghost var b := buf[..];
      NulTerminate(buf, r);
      TerminatedJoin(old(buf[..]), b, buf[..], Toks(l), Toks(r));
    case List(l, r) =>
      InBufferSplit(Toks(l), Toks(r), buf.Length);
      NulTerminate(buf, l);
      ghost var b := buf[..];
      NulTerminate(buf, r);
      TerminatedJoin(old(buf[..]), b, buf[..], Toks(l), Toks(r));
    case Back(cmd) =>
      NulTerminate(buf, cmd);
  }

  lemma InOne(t: Tok, n: nat)
    requires InBuffer([t], n)
    ensures t.eq < n
  {
    assert [t][0] == t;
  }

  /** The C string that starts at b[q]. */
  function CString(b: seq<char>, q: nat): (w: string)
    requires q <= |b|
    decreases |b| - q
  {
    if q == |b| || b[q] == '\0' then [] else [b[q]] + CString(b, q + 1)
  }

  lemma {:induction false} CStringRun(b: seq<char>, q: nat, e: nat)
    requires q <= e < |b| && b[e] == '\0' && forall k :: q <= k < e ==> b[k] != '\0'
    ensures CString(b, q) == b[q..e]
    decreases e - q
  {
    if q < e {
      CStringRun(b, q + 1, e);
      assert b[q..e] == [b[q]] + b[q+1..e];
    }
  }

  lemma {:induction false} ToksOk(s: string, c: Cmd<Tok>)
    requires TreeOk(s, c)
    ensures WordsOk(s, Toks(c))
  {
    hide WordTok;
    match c
    case Exec(argv) =>
    case Redir(cmd, file, _) => ToksOk(s, cmd);
    case Pipe(l, r) => ToksOk(s, l); ToksOk(s, r);
    case List(l, r) => ToksOk(s, l); ToksOk(s, r);
    case Back(cmd) => ToksOk(s, cmd);
  }

  lemma NoEndInWord(s: string, ts: seq<Tok>, k: nat)
    requires WordsOk(s, ts) && k < |s| && IsWord(s[k])
    ensures !Ends(ts, k)
  {
    forall j | 0 <= j < |ts| ensures ts[j].eq != k { assert ts[j] in ts; }
  }

  /** No word of the line is cut by the NUL that ends another one. */
  lemma WordsKept(s: string, b': seq<char>, ts: seq<Tok>, t: Tok)
    requires '\0' !in s && WordsOk(s, ts) && t in ts && Terminated(s + ['\0'], b', ts)
    ensures t.q <= t.eq < |b'| && CString(b', t.q) == Text(s, t)
  {
    var b := s + ['\0'];
    assert WordTok(s, t);
    var i :| 0 <= i < |ts| && ts[i] == t;
    assert Ends(ts, t.eq);
    forall k | t.q <= k < t.eq ensures b'[k] == s[k] && b'[k] != '\0' {
      NoEndInWord(s, ts, k);
      assert s[k] in s;
    }
    CStringRun(b', t.q, t.eq);
    assert b'[t.q..t.eq] == s[t.q..t.eq];
  }

  lemma WordsInside(s: string, ts: seq<Tok>)
    requires WordsOk(s, ts)
    ensures InBuffer(ts, |s| + 1)
  {
    forall i | 0 <= i < |ts| ensures ts[i].eq < |s| + 1 { assert ts[i] in ts; }
  }

  /** parsecmd: on success every argument and file name of the tree, read as a C string
      from the buffer, is the word it was parsed from. */
  method ParseCmd(buf: array<char>, s: string) returns (r: Result<Cmd<Tok>>)
    requires '\0' !in s && buf[..] == s + ['\0']
    modifies buf
    ensures r == CmdOf(s)
    ensures r.Panic? ==> buf[..] == old(buf[..])
    ensures r.Ok? ==> forall t :: t in Toks(r.value) ==> t.q <= t.eq < buf.Length && CString(buf[..], t.q) == Text(s, t)
  {
    hide CmdOf, TreeOk, Terminated, WordsOk, InBuffer, Toks;
    r := ParseTree(s);
    if r.Panic? { return; }
    ParsedOk(s);
    ToksOk(s, r.value);
    WordsInside(s, Toks(r.value));
    NulTerminate(buf, r.value);
    forall t | t in Toks(r.value) ensures t.q <= t.eq < buf.Length && CString(buf[..], t.q) == Text(s, t) {
      WordsKept(s, buf[..], Toks(r.value), t);
    }
  }
}
