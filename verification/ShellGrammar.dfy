/** What the shell's parser computes (sh.c:262-462), as functions of the command line and a
    position in it. A C string is the sequence of its characters before the NUL. */
module ShellGrammar {

  const MAXARGS: nat := 10

  /** A word of the command line: s[q..eq]. */
  datatype Tok = Tok(q: nat, eq: nat)

  /** `<` opens for reading as descriptor 0; `>` and `>>` both open for writing and creating
      as descriptor 1. */
  datatype Mode = Input | Output

  datatype Cmd<W> =
    | Exec(argv: seq<W>)
    | Redir(cmd: Cmd<W>, file: W, mode: Mode)
    | Pipe(left: Cmd<W>, right: Cmd<W>)
    | List(left: Cmd<W>, right: Cmd<W>)
    | Back(cmd: Cmd<W>)

  datatype Redirection<W> = Redirection(file: W, mode: Mode)

  datatype Error = MissingFile | MissingParen | Syntax | TooManyArgs | Leftovers

  datatype Result<T> = Ok(value: T, next: nat) | Panic(why: Error)

  // ----- characters and tokens -----

  predicate IsSpace(c: char) { c == ' ' || c == '\t' || c == '\r' || c == '\n' || c as int == 11 }
  predicate IsSymbol(c: char) { c == '<' || c == '|' || c == '>' || c == '&' || c == ';' || c == '(' || c == ')' }
  predicate IsWord(c: char) { !IsSpace(c) && !IsSymbol(c) }

  function Skip(s: string, i: nat): (j: nat)
    requires i <= |s|
    ensures i <= j <= |s| && (j < |s| ==> !IsSpace(s[j]))
    decreases |s| - i
  {
    if i < |s| && IsSpace(s[i]) then Skip(s, i + 1) else i
  }

  function WordEnd(s: string, i: nat): (j: nat)
    requires i <= |s|
    ensures i <= j <= |s| && (j < |s| ==> !IsWord(s[j]))
    decreases |s| - i
  {
    if i < |s| && IsWord(s[i]) then WordEnd(s, i + 1) else i
  }

  lemma {:induction false} WordRun(s: string, i: nat)
    requires i <= |s|
    ensures forall k :: i <= k < WordEnd(s, i) ==> IsWord(s[k])
    decreases |s| - i
  {
    if i < |s| && IsWord(s[i]) { WordRun(s, i + 1); }
  }

  datatype Kind = End | Symbol(c: char) | Append | Word

  datatype Token = Token(kind: Kind, q: nat, eq: nat, next: nat)

  function KindAt(s: string, q: nat): (k: Kind)
    requires q <= |s|
  {
    if q == |s| then End
    else if s[q] == '>' && q + 1 < |s| && s[q+1] == '>' then Append
    else if IsSymbol(s[q]) then Symbol(s[q])
    else Word
  }

  /** gettoken: skip blanks, take one token, skip blanks. */
  function TokenAt(s: string, i: nat): (t: Token)
    requires i <= |s|
    ensures i <= t.q <= t.eq <= t.next <= |s|
    ensures t.q == Skip(s, i) && t.next == Skip(s, t.eq) && t.kind == KindAt(s, t.q)
    ensures t.q < |s| && !IsSpace(s[t.q]) ==> t.q < t.eq
  {
    var q := Skip(s, i);
    var kind := KindAt(s, q);
    var eq := match kind
              case End => q
              case Symbol(_) => q + 1
              case Append => q + 2
              case Word => WordEnd(s, q);
    Token(kind, q, eq, Skip(s, eq))
  }

  /** peek: the next character that is not blank is one of toks. */
  predicate Sees(s: string, i: nat, toks: string)
    requires i <= |s|
  {
    var j := Skip(s, i);
    j < |s| && s[j] in toks
  }

  // ----- the grammar -----

  function Wrap<W>(c: Cmd<W>, rs: seq<Redirection<W>>): (r: Cmd<W>)
    decreases |rs|
  {
    if rs == [] then c else Wrap(Redir(c, rs[0].file, rs[0].mode), rs[1..])
  }

  function RedirsAt(s: string, i: nat): (r: Result<seq<Redirection<Tok>>>)
    requires i <= |s|
    ensures r.Ok? ==> i <= r.next <= |s|
    decreases |s| - i
  {
    if !Sees(s, i, "<>") then Ok([], Skip(s, i))
    else
      var op := TokenAt(s, i);
      var name := TokenAt(s, op.next);
      if !name.kind.Word? then Panic(MissingFile)
      else
        var rest := RedirsAt(s, name.next);
        if rest.Panic? then rest
        else Ok([Redirection(Tok(name.q, name.eq), if op.kind == Symbol('<') then Input else Output)] + rest.value, rest.next)
  }

  datatype Args<W> = Args(argv: seq<W>, redirs: seq<Redirection<W>>)

  function ArgsAt(s: string, i: nat, argc: nat): (r: Result<Args<Tok>>)
    requires i <= |s|
    ensures r.Ok? ==> i <= r.next <= |s|
    decreases |s| - i
  {
    if Sees(s, i, "|)&;") then Ok(Args([], []), Skip(s, i))
    else
      var t := TokenAt(s, i);
      if t.kind.End? then Ok(Args([], []), t.next)
      else if !t.kind.Word? then Panic(Syntax)
      else if argc + 1 >= MAXARGS then Panic(TooManyArgs)
      else
        var rs := RedirsAt(s, t.next);
        if rs.Panic? then Panic(rs.why)
        else
          var rest := ArgsAt(s, rs.next, argc + 1);
          if rest.Panic? then rest
          else Ok(Args([Tok(t.q, t.eq)] + rest.value.argv, rs.value + rest.value.redirs), rest.next)
  }

  lemma ArgsNone(s: string, i: nat, argc: nat)
    requires i <= |s| && (Sees(s, i, "|)&;") || TokenAt(s, i).kind.End?)
    ensures ArgsAt(s, i, argc) == Ok(Args([], []), Skip(s, i))
  {
  }

  function SimpleAt(s: string, i: nat): (r: Result<Cmd<Tok>>)
    requires i <= |s|
    ensures r.Ok? ==> i <= r.next <= |s|
  {
    var rs := RedirsAt(s, i);
    if rs.Panic? then Panic(rs.why)
    else
      var a := ArgsAt(s, rs.next, 0);
      if a.Panic? then Panic(a.why)
      else Ok(Wrap(Exec(a.value.argv), rs.value + a.value.redirs), a.next)
  }

  function BlockAt(s: string, i: nat): (r: Result<Cmd<Tok>>)
    requires i <= |s| && Sees(s, i, "(")
    ensures r.Ok? ==> i <= r.next <= |s|
    decreases |s| - i, 0
  {
    var line := LineAt(s, TokenAt(s, i).next);
    if line.Panic? then line
    else if !Sees(s, line.next, ")") then Panic(MissingParen)
    else
      var rs := RedirsAt(s, TokenAt(s, line.next).next);
      if rs.Panic? then Panic(rs.why) else Ok(Wrap(line.value, rs.value), rs.next)
  }

  function ExecAt(s: string, i: nat): (r: Result<Cmd<Tok>>)
    requires i <= |s|
    ensures r.Ok? ==> i <= r.next <= |s|
    decreases |s| - i, 1
  {
    if Sees(s, i, "(") then BlockAt(s, i) else SimpleAt(s, i)
  }

  function PipeAt(s: string, i: nat): (r: Result<Cmd<Tok>>)
    requires i <= |s|
    ensures r.Ok? ==> i <= r.next <= |s|
    decreases |s| - i, 2
  {
    var left := ExecAt(s, i);
    if left.Panic? || !Sees(s, left.next, "|") then SkipAfter(s, left)
    else
      var right := PipeAt(s, TokenAt(s, left.next).next);
      if right.Panic? then right else Ok(Pipe(left.value, right.value), right.next)
  }

  /** A failed peek still moves past the blanks. */
  function SkipAfter(s: string, r: Result<Cmd<Tok>>): (r': Result<Cmd<Tok>>)
    requires r.Ok? ==> r.next <= |s|
    ensures r'.Ok? <==> r.Ok?
    ensures r.Ok? ==> r.next <= r'.next <= |s|
  {
    if r.Ok? then Ok(r.value, Skip(s, r.next)) else r
  }

  /** The rest of a line whose first pipeline, with the `&`s so far, is c. */
  function TailAt(s: string, c: Cmd<Tok>, i: nat): (r: Result<Cmd<Tok>>)
    requires i <= |s|
    ensures r.Ok? ==> i <= r.next <= |s|
    decreases |s| - i, 3
  {
    if Sees(s, i, "&") then TailAt(s, Back(c), TokenAt(s, i).next)
    else if Sees(s, i, ";") then
      var right := LineAt(s, TokenAt(s, i).next);
      if right.Panic? then right else Ok(List(c, right.value), right.next)
    else Ok(c, Skip(s, i))
  }

  function LineAt(s: string, i: nat): (r: Result<Cmd<Tok>>)
    requires i <= |s|
    ensures r.Ok? ==> i <= r.next <= |s|
    decreases |s| - i, 4
  {
    var first := PipeAt(s, i);
    if first.Panic? then first else TailAt(s, first.value, first.next)
  }

  function CmdOf(s: string): (r: Result<Cmd<Tok>>)
    ensures r.Ok? ==> r.next == |s|
  {
    var line := LineAt(s, 0);
    if line.Panic? then line
    else if Skip(s, line.next) != |s| then Panic(Leftovers)
    else Ok(line.value, |s|)
  }

  // ----- words -----

  function Text(s: string, t: Tok): (w: string) { if t.q <= t.eq <= |s| then s[t.q..t.eq] else [] }

  function Texts(s: string, ts: seq<Tok>): (ws: seq<string>)
    ensures |ws| == |ts| && forall k :: 0 <= k < |ts| ==> ws[k] == Text(s, ts[k])
  {
    if ts == [] then [] else [Text(s, ts[0])] + Texts(s, ts[1..])
  }

  /** The tree with each word replaced by its text. */
  function Named(s: string, c: Cmd<Tok>): (r: Cmd<string>)
  {
    match c
    case Exec(argv) => Exec(Texts(s, argv))
    case Redir(cmd, file, mode) => Redir(Named(s, cmd), Text(s, file), mode)
    case Pipe(l, r) => Pipe(Named(s, l), Named(s, r))
    case List(l, r) => List(Named(s, l), Named(s, r))
    case Back(cmd) => Back(Named(s, cmd))
  }

  /** t is a maximal run of word characters of s. */
  ghost predicate WordTok(s: string, t: Tok) {
    && t.q < t.eq <= |s|
    && (forall k :: t.q <= k < t.eq ==> IsWord(s[k]))
    && (t.eq < |s| ==> !IsWord(s[t.eq]))
  }

  ghost predicate WordsOk(s: string, ts: seq<Tok>) { forall t :: t in ts ==> WordTok(s, t) }

  ghost predicate FilesOk(s: string, rs: seq<Redirection<Tok>>) { forall r :: r in rs ==> WordTok(s, r.file) }

  /** Every word of the tree is one and no command has MAXARGS arguments. */
  ghost predicate TreeOk(s: string, c: Cmd<Tok>) {
    match c
    case Exec(argv) => WordsOk(s, argv) && |argv| < MAXARGS
    case Redir(cmd, file, _) => TreeOk(s, cmd) && WordTok(s, file)
    case Pipe(l, r) => TreeOk(s, l) && TreeOk(s, r)
    case List(l, r) => TreeOk(s, l) && TreeOk(s, r)
    case Back(cmd) => TreeOk(s, cmd)
  }

  lemma TokenWord(s: string, i: nat)
    requires i <= |s| && TokenAt(s, i).kind.Word?
    ensures var t := TokenAt(s, i); WordTok(s, Tok(t.q, t.eq))
  {
    WordRun(s, TokenAt(s, i).q);
  }

  lemma {:induction false} WrapOk(s: string, c: Cmd<Tok>, rs: seq<Redirection<Tok>>)
    requires TreeOk(s, c) && FilesOk(s, rs)
    ensures TreeOk(s, Wrap(c, rs))
    decreases |rs|
  {
    if rs != [] {
      assert rs[0] in rs;
      WrapOk(s, Redir(c, rs[0].file, rs[0].mode), rs[1..]);
    }
  }

  lemma {:induction false} RedirsOk(s: string, i: nat)
    requires i <= |s|
    ensures var r := RedirsAt(s, i); r.Ok? ==> FilesOk(s, r.value)
    decreases |s| - i
  {
    if Sees(s, i, "<>") {
      var name := TokenAt(s, TokenAt(s, i).next);
      if name.kind.Word? {
        TokenWord(s, TokenAt(s, i).next);
        RedirsOk(s, name.next);
      }
    }
  }

  lemma NoneOk(s: string)
    ensures WordsOk(s, []) && FilesOk(s, [])
  {
  }

  lemma OkJoin(s: string, t: Tok, ts: seq<Tok>, rs: seq<Redirection<Tok>>, rs': seq<Redirection<Tok>>)
    requires WordTok(s, t) && WordsOk(s, ts) && FilesOk(s, rs) && FilesOk(s, rs')
    ensures WordsOk(s, [t] + ts) && FilesOk(s, rs + rs')
  {
    hide WordTok;
  }

  lemma {:induction false} ArgsOk(s: string, i: nat, argc: nat)
    requires i <= |s| && argc < MAXARGS
    ensures var r := ArgsAt(s, i, argc);
      r.Ok? ==> WordsOk(s, r.value.argv) && FilesOk(s, r.value.redirs) && argc + |r.value.argv| < MAXARGS
    decreases |s| - i
  {
    hide RedirsAt, WordsOk, FilesOk, WordTok;
    var t := TokenAt(s, i);
    if Sees(s, i, "|)&;") || t.kind.End? {
      assert WordsOk(s, []) && FilesOk(s, []) by { NoneOk(s); }
    } else if t.kind.Word? && argc + 1 < MAXARGS {
      TokenWord(s, i);
      RedirsOk(s, t.next);
      var rs := RedirsAt(s, t.next);
      if rs.Ok? {
        ArgsOk(s, rs.next, argc + 1);
        var rest := ArgsAt(s, rs.next, argc + 1);
        if rest.Ok? { OkJoin(s, Tok(t.q, t.eq), rest.value.argv, rs.value, rest.value.redirs); }
      }
    }
  }

  lemma SimpleOk(s: string, i: nat)
    requires i <= |s|
    ensures var r := SimpleAt(s, i); r.Ok? ==> TreeOk(s, r.value)
  {
    hide RedirsAt, ArgsAt;
    RedirsOk(s, i);
    var rs := RedirsAt(s, i);
    if rs.Ok? {
      ArgsOk(s, rs.next, 0);
      var a := ArgsAt(s, rs.next, 0);
      if a.Ok? { WrapOk(s, Exec(a.value.argv), rs.value + a.value.redirs); }
    }
  }

  lemma {:induction false} BlockOk(s: string, i: nat)
    requires i <= |s| && Sees(s, i, "(")
    ensures var r := BlockAt(s, i); r.Ok? ==> TreeOk(s, r.value)
    decreases |s| - i, 0
  {
    hide RedirsAt, LineAt;
    var j := TokenAt(s, i).next;
    LineOk(s, j);
    var line := LineAt(s, j);
    if line.Ok? && Sees(s, line.next, ")") {
      var k := TokenAt(s, line.next).next;
      RedirsOk(s, k);
      if RedirsAt(s, k).Ok? { WrapOk(s, line.value, RedirsAt(s, k).value); }
    }
  }

  lemma {:induction false} ExecOk(s: string, i: nat)
    requires i <= |s|
    ensures var r := ExecAt(s, i); r.Ok? ==> TreeOk(s, r.value)
    decreases |s| - i, 1
  {
    hide BlockAt, SimpleAt;
    if Sees(s, i, "(") { BlockOk(s, i); } else { SimpleOk(s, i); }
  }

  lemma {:induction false} PipeOk(s: string, i: nat)
    requires i <= |s|
    ensures var r := PipeAt(s, i); r.Ok? ==> TreeOk(s, r.value)
    decreases |s| - i, 2
  {
    ExecOk(s, i);
    hide ExecAt;
    var left := ExecAt(s, i);
    if left.Ok? && Sees(s, left.next, "|") { PipeOk(s, TokenAt(s, left.next).next); }
  }

  lemma {:induction false} TailOk(s: string, c: Cmd<Tok>, i: nat)
    requires i <= |s| && TreeOk(s, c)
    ensures var r := TailAt(s, c, i); r.Ok? ==> TreeOk(s, r.value)
    decreases |s| - i, 3
  {
    if Sees(s, i, "&") { TailOk(s, Back(c), TokenAt(s, i).next); }
    else if Sees(s, i, ";") { LineOk(s, TokenAt(s, i).next); }
  }

  lemma {:induction false} LineOk(s: string, i: nat)
    requires i <= |s|
    ensures var r := LineAt(s, i); r.Ok? ==> TreeOk(s, r.value)
    decreases |s| - i, 4
  {
    PipeOk(s, i);
    var first := PipeAt(s, i);
    if first.Ok? { TailOk(s, first.value, first.next); }
  }

  /** Whatever parses, parses into words of the command line, fewer than MAXARGS each. */
  lemma ParsedOk(s: string)
    ensures CmdOf(s).Ok? ==> TreeOk(s, CmdOf(s).value)
  {
    LineOk(s, 0);
  }
}
